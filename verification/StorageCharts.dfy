/** The storage charts: days of use put into bars, and the failed attempts' categories put into one.
    Days are numbered; how a date text names one is the calendar's business and a parameter. */
module StorageCharts {
  import opened Wrappers
  import opened Sequences
  import opened Sorting

  const MAX_BARS := 60
  const MAX_PRECISION := 9999
  const PRESETS: seq<nat> := [1, 7, 30, 60, 90]
  const HISTORY_IDS: seq<string> := ["failed_capture", "failed_build", "superseded", "failed_publish"]
  const LEADING_IDS: seq<string> := ["recordings", "current"]

  datatype Day = Day(date: string, bytes: nat, files: nat)
  datatype Category = Category(id: string, bytes: nat, files: nat, undatedBytes: nat, undatedFiles: nat, days: seq<Day>)
  datatype Bar = Bar(from: int, to: int, bytes: nat, files: nat)
  datatype ChartError = BadDates | Reversed | BadPrecision

  type Calendar = string -> Option<int>

  // ----- bars

  predicate Within(utcDay: Calendar, d: Day, from: int, to: int) {
    utcDay(d.date).Some? && from <= utcDay(d.date).value <= to
  }

  /** Bytes and files of the days a date range holds. */
  function Bytes(utcDay: Calendar, days: seq<Day>, from: int, to: int): nat {
    if days == [] then 0
    else Bytes(utcDay, Init(days), from, to) + if Within(utcDay, Last(days), from, to) then Last(days).bytes else 0
  }

  function Files(utcDay: Calendar, days: seq<Day>, from: int, to: int): nat {
    if days == [] then 0
    else Files(utcDay, Init(days), from, to) + if Within(utcDay, Last(days), from, to) then Last(days).files else 0
  }

  /** Bars that follow each other without gap or overlap from the first day to the last, all as wide as
      asked for except possibly the last. */
  ghost predicate Partition(bars: seq<Bar>, start: int, end: int, width: nat) {
    && bars != [] && bars[0].from == start && Last(bars).to == end
    && (forall i :: 0 <= i < |bars| ==> bars[i].from <= bars[i].to < bars[i].from + width)
    && (forall i :: 0 <= i < |bars| - 1 ==>
      bars[i].to == bars[i].from + width - 1 && bars[i + 1].from == bars[i].to + 1)
  }

  /** Each bar holds what the days of its dates hold. */
  ghost predicate Holds(utcDay: Calendar, bars: seq<Bar>, days: seq<Day>) {
    forall i :: 0 <= i < |bars| ==>
      bars[i].bytes == Bytes(utcDay, days, bars[i].from, bars[i].to)
      && bars[i].files == Files(utcDay, days, bars[i].from, bars[i].to)
  }

  /** What a range of dates holds of one day: its bytes and files if its date lies there. */
  lemma HeldOfOne(utcDay: Calendar, d: Day, from: int, to: int)
    ensures var there := utcDay(d.date).Some? && from <= utcDay(d.date).value <= to;
      && Bytes(utcDay, [d], from, to) == (if there then d.bytes else 0)
      && Files(utcDay, [d], from, to) == (if there then d.files else 0)
  {
    assert Init([d]) == [];
  }

  /** What it holds of two lists of days is what it holds of each. */
  lemma {:induction false} HeldAdds(utcDay: Calendar, a: seq<Day>, b: seq<Day>, from: int, to: int)
    ensures Bytes(utcDay, a + b, from, to) == Bytes(utcDay, a, from, to) + Bytes(utcDay, b, from, to)
    ensures Files(utcDay, a + b, from, to) == Files(utcDay, a, from, to) + Files(utcDay, b, from, to)
  {
    if b == [] {
      assert a + b == a;
    } else {
      HeldAdds(utcDay, a, Init(b), from, to);
      assert Init(a + b) == a + Init(b);
    }
  }

  lemma NextMultiple(i: int, width: nat)
    ensures (i + 1) * width == i * width + width
  {
  }

  lemma MultipleOrder(i: int, j: int, width: nat)
    requires i < j
    ensures i * width + width <= j * width
    decreases j - i
  {
    NextMultiple(i, width);
    if i + 1 < j {
      MultipleOrder(i + 1, j, width);
    }
  }

  /** Day `x` of a range lies in the bar its quotient numbers, and in no other. */
  lemma QuotientBar(x: nat, width: nat, i: int)
    requires width > 0
    ensures x / width == i <==> i * width <= x < i * width + width
  {
    var q := x / width;
    assert x == q * width + x % width;
    if q < i {
      MultipleOrder(q, i, width);
    } else if i < q {
      MultipleOrder(i, q, width);
    }
  }

  function BarCount(days: int, width: nat): int
    requires width > 0
  {
    (days - 1) / width + 1
  }

  function EmptyBar(start: int, end: int, width: nat, i: nat): Bar {
    var to := start + (i + 1) * width - 1;
    Bar(start + i * width, if to < end then to else end, 0, 0)
  }

  /** An unfilled bar of a range that has so many. */
  ghost predicate BarFits(start: int, end: int, width: nat, count: nat, i: nat) {
    var bar := EmptyBar(start, end, width, i);
    && start <= bar.from <= bar.to <= end && bar.to < bar.from + width
    && (if i + 1 < count then bar.to == bar.from + width - 1 && EmptyBar(start, end, width, i + 1).from == bar.to + 1
        else bar.to == end)
  }

  lemma EmptyBarFits(start: int, end: int, width: nat, count: nat, i: nat)
    requires start <= end && width > 0 && count == (end - start) / width + 1 && i < count
    ensures BarFits(start, end, width, count, i)
  {
    QuotientBar(end - start, width, count - 1);
    NextMultiple(i, width);
    if i < count - 1 {
      MultipleOrder(i, count - 1, width);
    }
    MultipleOrder(-1, i, width);
  }

  method EmptyBars(start: int, end: int, width: nat) returns (bars: array<Bar>)
    requires start <= end && width > 0
    ensures fresh(bars) && Partition(bars[..], start, end, width)
    ensures bars.Length == BarCount(end - start + 1, width)
    ensures forall i :: 0 <= i < bars.Length ==> bars[i] == EmptyBar(start, end, width, i)
  {
    var count := (end - start) / width + 1;
    bars := new Bar[count](i requires 0 <= i => EmptyBar(start, end, width, i));
    forall i | 0 <= i < count ensures BarFits(start, end, width, count, i) {
      EmptyBarFits(start, end, width, count, i);
    }
    assert BarFits(start, end, width, count, count - 1);
    assert bars[..][0] == EmptyBar(start, end, width, 0) && Last(bars[..]) == EmptyBar(start, end, width, count - 1);
    forall i | 0 <= i < count - 1 ensures bars[i].to == bars[i].from + width - 1 && bars[i + 1].from == bars[i].to + 1 {
      assert BarFits(start, end, width, count, i);
    }
  }

  /** A bar with what the days of its dates hold. */
  function FilledBar(utcDay: Calendar, days: seq<Day>, bar: Bar): Bar {
    bar.(bytes := Bytes(utcDay, days, bar.from, bar.to), files := Files(utcDay, days, bar.from, bar.to))
  }

  lemma OneMoreDay(utcDay: Calendar, days: seq<Day>, n: nat, bar: Bar)
    requires n < |days|
    ensures var before := FilledBar(utcDay, days[..n], bar);
      FilledBar(utcDay, days[..n + 1], bar) ==
        if Within(utcDay, days[n], bar.from, bar.to) then
          before.(bytes := before.bytes + days[n].bytes, files := before.files + days[n].files)
        else before
  {
    assert Init(days[..n + 1]) == days[..n];
  }

  /** The bar that takes a day of the range is the only one whose dates hold it. */
  lemma OnlyBar(start: int, end: int, width: nat, date: int, i: nat)
    requires width > 0 && start <= date <= end && start + i * width <= end
    ensures var bar := EmptyBar(start, end, width, i);
      bar.from <= date <= bar.to <==> (date - start) / width == i
  {
    QuotientBar(date - start, width, i);
    NextMultiple(i, width);
  }

  lemma QuotientInRange(x: nat, y: nat, width: nat)
    requires x <= y && width > 0
    ensures 0 <= x / width <= y / width
  {
    QuotientBar(x, width, x / width);
    QuotientBar(y, width, y / width);
    if x / width > y / width {
      MultipleOrder(y / width, x / width, width);
    }
  }

  predicate IsWhole(x: real) {
    x.Floor as real == x
  }

  /** The bars of a chart, or what is wrong with what was asked for. Precision is a number that may be
      fractional, as a form field can hold. */
  method StorageBars(utcDay: Calendar, category: Category, from: string, to: string, precision: real)
    returns (result: Result<seq<Bar>, ChartError>)
    ensures result == Err(BadDates) <==> utcDay(from).None? || utcDay(to).None?
    ensures result == Err(Reversed) <==> utcDay(from).Some? && utcDay(to).Some? && utcDay(to).value < utcDay(from).value
    ensures result.Ok? <==>
      utcDay(from).Some? && utcDay(to).Some? && utcDay(from).value <= utcDay(to).value
      && precision == precision.Floor as real && 1 <= precision.Floor <= 9999
    ensures result.Ok? ==>
      && Partition(result.value, utcDay(from).value, utcDay(to).value, precision.Floor)
      && |result.value| == BarCount(utcDay(to).value - utcDay(from).value + 1, precision.Floor)
      && Holds(utcDay, result.value, category.days)
  {
    if utcDay(from).None? || utcDay(to).None? {
      return Err(BadDates);
    }
    var start, end := utcDay(from).value, utcDay(to).value;
    if end < start {
      return Err(Reversed);
    }
    if !IsWhole(precision) || precision < 1.0 || precision > MAX_PRECISION as real {
      return Err(BadPrecision);
    }
    var width: nat := precision.Floor;
    var bars := EmptyBars(start, end, width);
    ghost var empty := bars[..];
    FillBars(utcDay, category.days, start, end, width, bars);
    SameDates(empty, bars[..], start, end, width);
    result := Ok(bars[..]);
  }

  /** Which bar of the range a day belongs to, if it has a date there. */
  function BarOf(utcDay: Calendar, day: Day, start: int, end: int, width: nat): Option<int>
    requires width > 0
  {
    if Within(utcDay, day, start, end) then Some((utcDay(day.date).value - start) / width) else None
  }

  lemma BarOfIsOnlyBar(utcDay: Calendar, day: Day, start: int, end: int, width: nat, count: nat, i: nat)
    requires start <= end && width > 0 && count == (end - start) / width + 1 && i < count
    ensures var bar := EmptyBar(start, end, width, i);
      Within(utcDay, day, bar.from, bar.to) <==> BarOf(utcDay, day, start, end, width) == Some(i)
  {
    EmptyBarFits(start, end, width, count, i);
    if Within(utcDay, day, start, end) {
      OnlyBar(start, end, width, utcDay(day.date).value, i);
    }
  }

  /** Puts the days into the bars, one after the other. */
  method FillBars(utcDay: Calendar, days: seq<Day>, start: int, end: int, width: nat, bars: array<Bar>)
    requires start <= end && width > 0
    requires bars.Length == (end - start) / width + 1
    requires forall i :: 0 <= i < bars.Length ==> bars[i] == EmptyBar(start, end, width, i)
    modifies bars
    ensures forall i :: 0 <= i < bars.Length ==> bars[i] == FilledBar(utcDay, days, EmptyBar(start, end, width, i))
  {
    assert days[..0] == [];
    hide Bytes, Files, EmptyBar;
    for n := 0 to |days|
      invariant forall i :: 0 <= i < bars.Length ==>
        bars[i] == FilledBar(utcDay, days[..n], EmptyBar(start, end, width, i))
    {
      forall i | 0 <= i < bars.Length
        ensures FilledBar(utcDay, days[..n + 1], EmptyBar(start, end, width, i)) ==
          if BarOf(utcDay, days[n], start, end, width) == Some(i) then
            bars[i].(bytes := bars[i].bytes + days[n].bytes, files := bars[i].files + days[n].files)
          else bars[i]
      {
        OneMoreDay(utcDay, days, n, EmptyBar(start, end, width, i));
        BarOfIsOnlyBar(utcDay, days[n], start, end, width, bars.Length, i);
      }
      var date := utcDay(days[n].date);
      if date.None? || date.value < start || date.value > end { continue; }
      var k := (date.value - start) / width;
      QuotientInRange(date.value - start, end - start, width);
      bars[k] := bars[k].(bytes := bars[k].bytes + days[n].bytes, files := bars[k].files + days[n].files);
    }
    assert days[..|days|] == days;
  }

  lemma SameDates(bars: seq<Bar>, bars': seq<Bar>, start: int, end: int, width: nat)
    requires Partition(bars, start, end, width) && |bars'| == |bars|
    requires forall i :: 0 <= i < |bars| ==> bars'[i].from == bars[i].from && bars'[i].to == bars[i].to
    ensures Partition(bars', start, end, width)
  {
  }

  function TotalBytes(bars: seq<Bar>): nat {
    if bars == [] then 0 else TotalBytes(Init(bars)) + Last(bars).bytes
  }

  function TotalFiles(bars: seq<Bar>): nat {
    if bars == [] then 0 else TotalFiles(Init(bars)) + Last(bars).files
  }

  lemma {:induction false} RangeSplits(utcDay: Calendar, days: seq<Day>, from: int, mid: int, to: int)
    requires from <= mid + 1 && mid <= to
    ensures Bytes(utcDay, days, from, to) == Bytes(utcDay, days, from, mid) + Bytes(utcDay, days, mid + 1, to)
    ensures Files(utcDay, days, from, to) == Files(utcDay, days, from, mid) + Files(utcDay, days, mid + 1, to)
  {
    if days != [] {
      RangeSplits(utcDay, Init(days), from, mid, to);
    }
  }

  /** Over a partition nothing of the range is lost and nothing is counted twice. */
  lemma {:induction false} BarsConserve(utcDay: Calendar, bars: seq<Bar>, days: seq<Day>, start: int, end: int,
                                        width: nat)
    requires Partition(bars, start, end, width) && Holds(utcDay, bars, days)
    ensures TotalBytes(bars) == Bytes(utcDay, days, start, end) && TotalFiles(bars) == Files(utcDay, days, start, end)
  {
    hide Bytes, Files;
    if |bars| == 1 {
      assert Init(bars) == [] && TotalBytes([]) == 0 && TotalFiles([]) == 0;
    } else {
      var rest, k := Init(bars), |bars| - 2;
      assert rest[k] == bars[k] && Last(rest) == bars[k] && bars[k + 1] == Last(bars);
      BarsConserve(utcDay, rest, days, start, bars[k].to, width);
      BarsAscend(bars, start, end, width, k);
      RangeSplits(utcDay, days, start, bars[k].to, end);
    }
  }

  lemma {:induction false} BarsAscend(bars: seq<Bar>, start: int, end: int, width: nat, k: nat)
    requires Partition(bars, start, end, width) && k < |bars|
    ensures start <= bars[k].from <= bars[k].to
    ensures k < |bars| - 1 ==> bars[k].to < end
    decreases |bars| - k
  {
    AscendFrom(bars, start, end, width, k);
    if k < |bars| - 1 {
      BarsAscend(bars, start, end, width, k + 1);
      assert bars[k + 1].from == bars[k].to + 1;
    }
  }

  lemma {:induction false} AscendFrom(bars: seq<Bar>, start: int, end: int, width: nat, k: nat)
    requires Partition(bars, start, end, width) && k < |bars|
    ensures start <= bars[k].from
  {
    if k > 0 {
      AscendFrom(bars, start, end, width, k - 1);
      assert bars[k - 1 + 1].from == bars[k - 1].to + 1;
    }
  }

  // ----- the width a chart starts with

  /** The first preset that leaves at most sixty bars' worth of days per bar. */
  function FindPreset(days: int, sizes: seq<nat>): Option<nat>
    requires 0 !in sizes
  {
    if sizes == [] then None
    else if days as real / sizes[0] as real <= MAX_BARS as real then Some(sizes[0])
    else FindPreset(days, sizes[1..])
  }

  function DefaultPrecision(days: int): int {
    var preset := FindPreset(days, PRESETS);
    if preset.Some? then preset.value else (days + MAX_BARS - 1) / MAX_BARS
  }

  lemma RatioBound(days: int, size: nat)
    requires size > 0
    ensures days as real / size as real <= MAX_BARS as real <==> days <= size * MAX_BARS
  {
    var ratio := days as real / size as real;
    assert ratio * size as real == days as real;
    assert (size * MAX_BARS) as real == MAX_BARS as real * size as real;
  }

  lemma DefaultInSteps(days: int)
    ensures DefaultPrecision(days) ==
      if days <= 60 then 1 else if days <= 420 then 7 else if days <= 1800 then 30
      else if days <= 3600 then 60 else if days <= 5400 then 90 else (days + 59) / 60
  {
    RatioBound(days, 1);
    RatioBound(days, 7);
    RatioBound(days, 30);
    RatioBound(days, 60);
    RatioBound(days, 90);
    assert PRESETS[1..] == [7, 30, 60, 90] && PRESETS[1..][1..] == [30, 60, 90];
    assert [30, 60, 90][1..] == [60, 90] && [60, 90][1..] == [90] && [90][1..] == [];
    assert FindPreset(days, [90]) == if days <= 5400 then Some(90) else None;
    assert FindPreset(days, [60, 90]) == if days <= 3600 then Some(60) else FindPreset(days, [90]);
    assert FindPreset(days, [30, 60, 90]) == if days <= 1800 then Some(30) else FindPreset(days, [60, 90]);
    assert FindPreset(days, [7, 30, 60, 90]) == if days <= 420 then Some(7) else FindPreset(days, [30, 60, 90]);
  }

  /** A width of so many days gives at most sixty bars exactly when sixty of them cover the range. */
  lemma BarsFit(days: int, width: nat)
    requires days >= 1 && width >= 1
    ensures BarCount(days, width) <= MAX_BARS <==> days <= width * MAX_BARS
  {
    var q := (days - 1) / width;
    QuotientBar(days - 1, width, q);
    if q < MAX_BARS {
      if q + 1 < MAX_BARS {
        MultipleOrder(q, MAX_BARS - 1, width);
      }
      NextMultiple(MAX_BARS - 1, width);
    } else if q > MAX_BARS {
      MultipleOrder(MAX_BARS, q, width);
    }
  }

  /** The default gives at most sixty bars; no smaller preset does, and beyond the presets no smaller
      width does. The chart accepts it exactly up to 599940 days: past that the default is refused. */
  lemma DefaultIsLeast(days: int)
    requires days >= 1
    ensures var width := DefaultPrecision(days);
      && width >= 1 && BarCount(days, width) <= MAX_BARS
      && (forall p :: p in PRESETS && p < width ==> BarCount(days, p) > MAX_BARS)
      && (width !in PRESETS ==> forall p: nat :: 1 <= p < width ==> BarCount(days, p) > MAX_BARS)
      && ((exists p :: p in PRESETS && BarCount(days, p) <= MAX_BARS) ==> width in PRESETS)
      && (width <= MAX_PRECISION <==> days <= MAX_BARS * MAX_PRECISION)
  {
    hide FindPreset;
    DefaultInSteps(days);
    var width := DefaultPrecision(days);
    BarsFit(days, width);
    forall p: nat | 1 <= p < width && (p in PRESETS || width !in PRESETS) ensures BarCount(days, p) > MAX_BARS {
      BarsFit(days, p);
    }
    assert forall p :: p in PRESETS ==> p >= 1;
  }

  /** The shortest range whose default width the chart refuses. */
  lemma DefaultRefused()
    ensures DefaultPrecision(599941) == 10000
  {
    hide BarCount;
    DefaultIsLeast(599941);
  }

  // ----- grouping

  predicate DateBelow(a: Day, b: Day) {
    Below(a.date, b.date)
  }

  /** Adds to the entry of a date, or makes one. */
  function AddDay(days: seq<Day>, day: Day): seq<Day> {
    if days == [] then [day]
    else if days[0].date == day.date then
      [days[0].(bytes := days[0].bytes + day.bytes, files := days[0].files + day.files)] + days[1..]
    else [days[0]] + AddDay(days[1..], day)
  }

  function AddDays(days: seq<Day>, more: seq<Day>): seq<Day> {
    if more == [] then days else AddDay(AddDays(days, Init(more)), Last(more))
  }

  predicate IsHistory(c: Category) {
    c.id in HISTORY_IDS
  }

  predicate IsLeading(c: Category) {
    c.id in LEADING_IDS
  }

  predicate IsTrailing(c: Category) {
    !IsHistory(c) && !IsLeading(c)
  }

  /** The history of some categories, its days in order of first appearance. */
  function Gather(categories: seq<Category>): Category {
    if categories == [] then Category("history", 0, 0, 0, 0, [])
    else
      var h, c := Gather(Init(categories)), Last(categories);
      if !IsHistory(c) then h
      else Category("history", h.bytes + c.bytes, h.files + c.files, h.undatedBytes + c.undatedBytes,
                    h.undatedFiles + c.undatedFiles, AddDays(h.days, c.days))
  }

  function Grouped(categories: seq<Category>): seq<Category> {
    var h := Gather(categories);
    Filter(categories, IsLeading) + [h.(days := Sort(h.days, DateBelow))] + Filter(categories, IsTrailing)
  }

  method DisplayCategories(categories: seq<Category>, splitHistory: bool) returns (shown: seq<Category>)
    ensures shown == if splitHistory then categories else Grouped(categories)
  {
    if splitHistory {
      return categories;
    }
    var history := Category("history", 0, 0, 0, 0, []);
    for n := 0 to |categories|
      invariant history == Gather(categories[..n])
    {
      assert Init(categories[..n + 1]) == categories[..n];
      var c := categories[n];
      if c.id in HISTORY_IDS {
        var days := history.days;
        for k := 0 to |c.days|
          invariant days == AddDays(history.days, c.days[..k])
        {
          assert Init(c.days[..k + 1]) == c.days[..k];
          days := AddDay(days, c.days[k]);
        }
        assert c.days[..|c.days|] == c.days;
        history := Category("history", history.bytes + c.bytes, history.files + c.files,
                            history.undatedBytes + c.undatedBytes, history.undatedFiles + c.undatedFiles, days);
      }
    }
    assert categories[..|categories|] == categories;
    shown := Filter(categories, IsLeading) + [history.(days := Sort(history.days, DateBelow))]
      + Filter(categories, IsTrailing);
  }

  /** What is accounted for: in all, without a date, and on one date. */
  datatype Amount = Amount(bytes: nat, files: nat, undatedBytes: nat, undatedFiles: nat, dayBytes: nat, dayFiles: nat)

  const NOTHING := Amount(0, 0, 0, 0, 0, 0)

  function Plus(a: Amount, b: Amount): Amount {
    Amount(a.bytes + b.bytes, a.files + b.files, a.undatedBytes + b.undatedBytes, a.undatedFiles + b.undatedFiles,
           a.dayBytes + b.dayBytes, a.dayFiles + b.dayFiles)
  }

  function OfDay(d: Day, date: string): Amount {
    if d.date == date then NOTHING.(dayBytes := d.bytes, dayFiles := d.files) else NOTHING
  }

  /** What a list of days holds on one date. */
  function OnDate(days: seq<Day>, date: string): Amount {
    if days == [] then NOTHING else Plus(OfDay(days[0], date), OnDate(days[1..], date))
  }

  function Own(c: Category, date: string): Amount {
    Plus(Amount(c.bytes, c.files, c.undatedBytes, c.undatedFiles, 0, 0), OnDate(c.days, date))
  }

  function Accounted(categories: seq<Category>, date: string): Amount {
    if categories == [] then NOTHING else Plus(Accounted(Init(categories), date), Own(Last(categories), date))
  }

  lemma PlusReorders(a: Amount, b: Amount, c: Amount)
    ensures Plus(a, b) == Plus(b, a) && Plus(Plus(a, b), c) == Plus(a, Plus(b, c)) && Plus(a, NOTHING) == a
  {
  }

  lemma {:induction false} AddDayOnDate(days: seq<Day>, day: Day, date: string)
    ensures OnDate(AddDay(days, day), date) == Plus(OnDate(days, date), OfDay(day, date))
  {
    if days != [] && days[0].date != day.date {
      AddDayOnDate(days[1..], day, date);
      PlusReorders(OfDay(days[0], date), OnDate(days[1..], date), OfDay(day, date));
    }
  }

  lemma {:induction false} OnDateConcat(a: seq<Day>, b: seq<Day>, date: string)
    ensures OnDate(a + b, date) == Plus(OnDate(a, date), OnDate(b, date))
  {
    if a == [] {
      assert a + b == b;
      PlusReorders(OnDate(b, date), NOTHING, NOTHING);
    } else {
      assert (a + b)[1..] == a[1..] + b;
      hide OfDay, Plus;
      OnDateConcat(a[1..], b, date);
      PlusReorders(OfDay(a[0], date), OnDate(a[1..], date), OnDate(b, date));
    }
  }

  lemma OnDateSnoc(days: seq<Day>, day: Day, date: string)
    ensures OnDate(days + [day], date) == Plus(OnDate(days, date), OfDay(day, date))
  {
    hide OfDay, Plus;
    OnDateConcat(days, [day], date);
    PlusReorders(OfDay(day, date), NOTHING, NOTHING);
    assert [day][1..] == [];
  }

  lemma {:induction false} AddDaysOnDate(days: seq<Day>, more: seq<Day>, date: string)
    ensures OnDate(AddDays(days, more), date) == Plus(OnDate(days, date), OnDate(more, date))
  {
    hide OnDate, OfDay, Plus, AddDay;
    if more == [] {
      NoDays(date);
      PlusReorders(OnDate(days, date), NOTHING, NOTHING);
    } else {
      AddDaysOnDate(days, Init(more), date);
      AddDayOnDate(AddDays(days, Init(more)), Last(more), date);
      assert more == Init(more) + [Last(more)];
      OnDateSnoc(Init(more), Last(more), date);
      PlusReorders(OnDate(days, date), OnDate(Init(more), date), OfDay(Last(more), date));
    }
  }

  lemma NoDays(date: string)
    ensures OnDate([], date) == NOTHING
  {
  }

  lemma {:induction false} InsertOnDate(days: seq<Day>, day: Day, date: string)
    ensures OnDate(Insert(days, day, DateBelow), date) == Plus(OnDate(days, date), OfDay(day, date))
  {
    hide OnDate, OfDay, Plus, DateBelow;
    if days == [] || !DateBelow(day, Last(days)) {
      OnDateSnoc(days, day, date);
    } else {
      var rest, last := Init(days), Last(days);
      InsertOnDate(rest, day, date);
      OnDateSnoc(Insert(rest, day, DateBelow), last, date);
      assert days == rest + [last];
      OnDateSnoc(rest, last, date);
      PlusReorders(OnDate(rest, date), OfDay(day, date), OfDay(last, date));
      PlusReorders(OnDate(rest, date), OfDay(last, date), OfDay(day, date));
      PlusReorders(OfDay(day, date), OfDay(last, date), NOTHING);
    }
  }

  lemma {:induction false} SortOnDate(days: seq<Day>, date: string)
    ensures OnDate(Sort(days, DateBelow), date) == OnDate(days, date)
  {
    hide OnDate, OfDay, Plus, DateBelow, Insert;
    if days != [] {
      SortOnDate(Init(days), date);
      InsertOnDate(Sort(Init(days), DateBelow), Last(days), date);
      OnDateSnoc(Init(days), Last(days), date);
      assert days == Init(days) + [Last(days)];
    }
  }

  lemma AccountedOne(categories: seq<Category>, c: Category, date: string)
    ensures Accounted(categories + [c], date) == Plus(Accounted(categories, date), Own(c, date))
  {
    assert Init(categories + [c]) == categories;
  }

  lemma {:induction false} AccountedConcat(a: seq<Category>, b: seq<Category>, date: string)
    ensures Accounted(a + b, date) == Plus(Accounted(a, date), Accounted(b, date))
  {
    hide Own, Plus;
    if b == [] {
      assert a + b == a;
      PlusReorders(Accounted(a, date), NOTHING, NOTHING);
    } else {
      AccountedConcat(a, Init(b), date);
      assert Init(a + b) == a + Init(b);
      PlusReorders(Accounted(a, date), Accounted(Init(b), date), Own(Last(b), date));
    }
  }

  lemma GatherOwn(h: Category, c: Category, date: string)
    ensures Own(Category("history", h.bytes + c.bytes, h.files + c.files, h.undatedBytes + c.undatedBytes,
                         h.undatedFiles + c.undatedFiles, AddDays(h.days, c.days)), date)
      == Plus(Own(h, date), Own(c, date))
  {
    hide OnDate, AddDays;
    AddDaysOnDate(h.days, c.days, date);
  }

  /** Where a fourth amount is added among three does not matter. */
  lemma PlusAnywhere(a: Amount, b: Amount, c: Amount, x: Amount)
    ensures Plus(Plus(Plus(a, x), b), c) == Plus(Plus(Plus(a, b), c), x)
    ensures Plus(Plus(a, Plus(b, x)), c) == Plus(Plus(Plus(a, b), c), x)
    ensures Plus(Plus(a, b), Plus(c, x)) == Plus(Plus(Plus(a, b), c), x)
  {
  }

  lemma NothingGathered(date: string)
    ensures Plus(Plus(Accounted([], date), Own(Gather([]), date)), Accounted([], date)) == NOTHING
  {
    NoDays(date);
  }

  /** What one more category adds to the three groups. */
  lemma GroupsSnoc(categories: seq<Category>)
    requires categories != []
    ensures var rest, c := Init(categories), Last(categories);
      && Filter(categories, IsLeading) == Filter(rest, IsLeading) + (if IsLeading(c) then [c] else [])
      && Filter(categories, IsTrailing) == Filter(rest, IsTrailing) + (if IsTrailing(c) then [c] else [])
      && (!IsHistory(c) ==> Gather(categories) == Gather(rest))
      && !(IsHistory(c) && IsLeading(c))
  {
    assert forall id :: !(id in HISTORY_IDS && id in LEADING_IDS);
  }

  /** The three groups of some categories, added up. */
  function GroupSum(categories: seq<Category>, date: string): Amount {
    Plus(Plus(Accounted(Filter(categories, IsLeading), date), Own(Gather(categories), date)),
         Accounted(Filter(categories, IsTrailing), date))
  }

  lemma GroupSumSnoc(categories: seq<Category>, date: string)
    requires categories != []
    ensures GroupSum(categories, date) == Plus(GroupSum(Init(categories), date), Own(Last(categories), date))
  {
    var rest, c := Init(categories), Last(categories);
    var leading, trailing, h := Filter(rest, IsLeading), Filter(rest, IsTrailing), Gather(rest);
    GroupsSnoc(categories);
    assert leading + [] == leading && trailing + [] == trailing;
    GatherOwn(h, c, date);
    AccountedOne(leading, c, date);
    AccountedOne(trailing, c, date);
    hide Own, Plus, Accounted, OnDate, AddDays, Filter;
    PlusAnywhere(Accounted(leading, date), Own(h, date), Accounted(trailing, date), Own(c, date));
  }

  lemma {:induction false} GatherAccounts(categories: seq<Category>, date: string)
    ensures GroupSum(categories, date) == Accounted(categories, date)
  {
    if categories == [] {
      NothingGathered(date);
    } else {
      GatherAccounts(Init(categories), date);
      GroupSumSnoc(categories, date);
    }
  }

  /** Grouping conserves bytes, files and what has no date, and on every date the bytes and files of that
      date. */
  lemma GroupingConserves(categories: seq<Category>, date: string)
    ensures Accounted(Grouped(categories), date) == Accounted(categories, date)
  {
    hide Accounted, OnDate, Gather, Filter, Sort, Insert;
    var h := Gather(categories);
    var sorted := h.(days := Sort(h.days, DateBelow));
    var leading, trailing := Filter(categories, IsLeading), Filter(categories, IsTrailing);
    SortOnDate(h.days, date);
    AccountedOne(leading, sorted, date);
    AccountedConcat(leading + [sorted], trailing, date);
    GatherAccounts(categories, date);
  }

  lemma SortedDatesAscend(days: seq<Day>)
    requires Distinct(days, DateOf)
    ensures var sorted := Sort(days, DateBelow);
      && (forall i, j :: 0 <= i < j < |sorted| ==> Below(sorted[i].date, sorted[j].date))
      && (forall d :: d in sorted <==> d in days)
  {
    var sorted := Sort(days, DateBelow);
    BelowIsOrder();
    SortSorted(days, DateBelow);
    PermutedDistinct(days, sorted, DateOf);
    MultisetMembers(sorted, days);
    forall i, j | 0 <= i < j < |sorted| ensures Below(sorted[i].date, sorted[j].date) {
      assert DateOf(sorted[i]) != DateOf(sorted[j]);
      assert !DateBelow(sorted[j], sorted[i]);
    }
  }

  // ----- what the grouped categories are

  predicate IsFailedAttempt(c: Category) {
    c.id == "failed_capture" || c.id == "failed_build" || c.id == "superseded" || c.id == "failed_publish"
  }

  predicate IsFirst(c: Category) {
    c.id == "recordings" || c.id == "current"
  }

  ghost predicate HasDate(days: seq<Day>, date: string) {
    exists d :: d in days && d.date == date
  }

  /** The history that stands for some categories: it accounts for exactly what they do, in all, without a
      date and on each date; it lists each of their dates once, in ascending order, and no others. */
  ghost predicate StandsFor(h: Category, categories: seq<Category>) {
    && h.id == "history"
    && (forall date :: Own(h, date) == Accounted(categories, date))
    && (forall date :: HasDate(h.days, date) <==> exists c :: c in categories && HasDate(c.days, date))
    && (forall i, j :: 0 <= i < j < |h.days| ==> Below(h.days[i].date, h.days[j].date))
  }

  /** Three groups in a row: the first, one history, and the rest. */
  ghost predicate ShownAs(categories: seq<Category>, shown: seq<Category>, h: Category) {
    && StandsFor(h, Filter(categories, IsFailedAttempt))
    && shown == Filter(categories, IsFirst) + [h]
                + Filter(categories, (c: Category) => !IsFirst(c) && !IsFailedAttempt(c))
  }

  /** Grouped, the recordings and the current state come first, then one history that stands for the failed
      attempts, then all the others; each of those given stays as it is, in the given order, and no failed
      attempt is shown. */
  lemma GroupingMeans(categories: seq<Category>)
    ensures exists h :: ShownAs(categories, Grouped(categories), h)
    ensures forall c :: c in Grouped(categories) ==> !IsFailedAttempt(c)
  {
    hide Sort, StandsFor, Gather, Filter, IsFailedAttempt, IsFirst;
    GroupsAre(categories);
    HistoryStandsFor(categories);
    var h := Gather(categories);
    var sorted := h.(days := Sort(h.days, DateBelow));
    assert ShownAs(categories, Grouped(categories), sorted);
    GatherId(categories);
    NoAttempt(sorted);
  }

  lemma NoAttempt(h: Category)
    requires h.id == "history"
    ensures !IsFailedAttempt(h)
  {
  }

  lemma GroupsAre(categories: seq<Category>)
    ensures Filter(categories, IsLeading) == Filter(categories, IsFirst)
    ensures Filter(categories, IsTrailing) == Filter(categories, (c: Category) => !IsFirst(c) && !IsFailedAttempt(c))
    ensures forall c :: c in Filter(categories, IsLeading) ==> !IsFailedAttempt(c)
    ensures forall c :: c in Filter(categories, IsTrailing) ==> !IsFailedAttempt(c)
  {
    IdsAre();
    FilterSame(categories, IsFirst, IsLeading);
    FilterSame(categories, (c: Category) => !IsFirst(c) && !IsFailedAttempt(c), IsTrailing);
    FilterMembers(categories, IsLeading);
    FilterMembers(categories, IsTrailing);
  }

  lemma HistoryStandsFor(categories: seq<Category>)
    ensures var h := Gather(categories);
      StandsFor(h.(days := Sort(h.days, DateBelow)), Filter(categories, IsFailedAttempt))
  {
    hide Sort, Gather, Filter, OnDate, HasDate, IsFailedAttempt;
    var h := Gather(categories);
    var sorted := h.(days := Sort(h.days, DateBelow));
    GatherDistinct(categories);
    SortedDatesAscend(h.days);
    GatherId(categories);
    forall date ensures Own(sorted, date) == Accounted(Filter(categories, IsFailedAttempt), date) {
      GatherStandsFor(categories, date);
      SortOnDate(h.days, date);
    }
    forall date
      ensures HasDate(sorted.days, date) <==>
        exists c :: c in Filter(categories, IsFailedAttempt) && HasDate(c.days, date)
    {
      GatherDates(categories, date);
      SameDatesHeld(h.days, sorted.days, date);
    }
  }

  lemma SameDatesHeld(days: seq<Day>, days': seq<Day>, date: string)
    requires forall d :: d in days' <==> d in days
    ensures HasDate(days', date) <==> HasDate(days, date)
  {
  }

  lemma GatherId(categories: seq<Category>)
    ensures Gather(categories).id == "history"
  {
  }

  /** The constants that name the groups. */
  lemma IdsAre()
    ensures forall c :: IsHistory(c) <==> IsFailedAttempt(c)
    ensures forall c :: IsLeading(c) <==> IsFirst(c)
    ensures forall c :: IsTrailing(c) <==> !IsFirst(c) && !IsFailedAttempt(c)
    ensures forall c :: IsFirst(c) ==> !IsFailedAttempt(c)
  {
  }

  /** What the last category adds to the history and to the failed attempts. */
  lemma GatherSnoc(categories: seq<Category>)
    requires categories != []
    ensures var rest, c := Init(categories), Last(categories);
      var h := Gather(rest);
      if IsFailedAttempt(c) then
        && Gather(categories) == Category("history", h.bytes + c.bytes, h.files + c.files,
                                          h.undatedBytes + c.undatedBytes, h.undatedFiles + c.undatedFiles,
                                          AddDays(h.days, c.days))
        && Filter(categories, IsFailedAttempt) == Filter(rest, IsFailedAttempt) + [c]
      else Gather(categories) == h && Filter(categories, IsFailedAttempt) == Filter(rest, IsFailedAttempt)
  {
    hide AddDays;
    IdsAre();
  }

  lemma NoneStandsFor(date: string)
    ensures Own(Gather([]), date) == Accounted(Filter([], IsFailedAttempt), date)
  {
    assert Filter<Category>([], IsFailedAttempt) == [];
    hide OnDate, Filter, IsFailedAttempt;
    NoDays(date);
  }

  lemma {:induction false} GatherStandsFor(categories: seq<Category>, date: string)
    ensures Own(Gather(categories), date) == Accounted(Filter(categories, IsFailedAttempt), date)
  {
    hide Own, AddDays, Plus, Gather, Filter, IsFailedAttempt, Accounted;
    if categories == [] {
      NoneStandsFor(date);
    } else {
      var rest, c := Init(categories), Last(categories);
      GatherStandsFor(rest, date);
      GatherSnoc(categories);
      if IsFailedAttempt(c) {
        GatherOwn(Gather(rest), c, date);
        AccountedOne(Filter(rest, IsFailedAttempt), c, date);
      }
    }
  }

  lemma AddDayDates(days: seq<Day>, day: Day, date: string)
    ensures HasDate(AddDay(days, day), date) <==> HasDate(days, date) || day.date == date
  {
    if days == [] {
      assert day in AddDay(days, day);
    } else {
      var first, rest := days[0], days[1..];
      assert days == [first] + rest;
      HasDateCons(first, rest, date);
      if first.date == day.date {
        HasDateCons(AddDay(days, day)[0], rest, date);
      } else {
        AddDayDates(rest, day, date);
        HasDateCons(first, AddDay(rest, day), date);
      }
    }
  }

  lemma HasDateCons(first: Day, rest: seq<Day>, date: string)
    ensures HasDate([first] + rest, date) <==> first.date == date || HasDate(rest, date)
  {
    assert forall d :: d in [first] + rest <==> d == first || d in rest;
  }

  lemma {:induction false} AddDaysDates(days: seq<Day>, more: seq<Day>, date: string)
    ensures HasDate(AddDays(days, more), date) <==> HasDate(days, date) || HasDate(more, date)
  {
    if more != [] {
      AddDaysDates(days, Init(more), date);
      AddDayDates(AddDays(days, Init(more)), Last(more), date);
      assert more == Init(more) + [Last(more)];
      assert forall d :: d in more <==> d in Init(more) || d == Last(more);
    }
  }

  lemma {:induction false} GatherDates(categories: seq<Category>, date: string)
    ensures HasDate(Gather(categories).days, date) <==>
      exists c :: c in Filter(categories, IsFailedAttempt) && HasDate(c.days, date)
  {
    if categories != [] {
      hide AddDays, Gather, Filter, IsFailedAttempt, HasDate;
      var rest, c := Init(categories), Last(categories);
      GatherDates(rest, date);
      GatherSnoc(categories);
      if IsFailedAttempt(c) {
        AddDaysDates(Gather(rest).days, c.days, date);
        var attempts := Filter(rest, IsFailedAttempt);
        assert forall x :: x in attempts + [c] <==> x in attempts || x == c;
      }
    }
  }

  function DateOf(d: Day): string { d.date }

  lemma {:induction false} AddDayDistinct(days: seq<Day>, day: Day)
    requires Distinct(days, DateOf)
    ensures Distinct(AddDay(days, day), DateOf)
    ensures forall d :: d in AddDay(days, day) ==> d.date == day.date || exists e :: e in days && e.date == d.date
  {
    if days == [] {
    } else {
      assert days == [days[0]] + days[1..];
      DistinctCons(days[0], days[1..], DateOf);
      if days[0].date == day.date {
        DistinctCons(AddDay(days, day)[0], days[1..], DateOf);
      } else {
        AddDayDistinct(days[1..], day);
        DistinctCons(days[0], AddDay(days[1..], day), DateOf);
      }
    }
  }

  lemma {:induction false} AddDaysDistinct(days: seq<Day>, more: seq<Day>)
    requires Distinct(days, DateOf)
    ensures Distinct(AddDays(days, more), DateOf)
  {
    if more != [] {
      AddDaysDistinct(days, Init(more));
      AddDayDistinct(AddDays(days, Init(more)), Last(more));
    }
  }

  lemma {:induction false} GatherDistinct(categories: seq<Category>)
    ensures Distinct(Gather(categories).days, DateOf)
  {
    if categories != [] {
      GatherDistinct(Init(categories));
      if IsHistory(Last(categories)) {
        AddDaysDistinct(Gather(Init(categories)).days, Last(categories).days);
      }
    }
  }
}
