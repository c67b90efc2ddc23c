/** Unbounded packet indices from 16-bit RTP sequence numbers (section 5.1 and appendix A.1 of RFC 3550),
    the loss account one tool keeps of them and the order another puts them in. */
module RtpSequence {
  import opened Sequences
  import opened Sorting

  const CYCLE := 0x1_0000
  const MAX_GAPS := 2000

  type Number = x: int | 0 <= x < CYCLE

  /** The difference of two sequence numbers as a signed 16-bit number. */
  function Delta(number: Number, highest: Number): int {
    var d := (number - highest) % CYCLE;
    if d < CYCLE / 2 then d else d - CYCLE
  }

  /** The highest index so far. */
  function Top(packets: seq<Number>): int
    requires packets != []
  {
    if |packets| == 1 then packets[0]
    else
      var top, ext := Top(Init(packets)), Ext(packets);
      if ext > top then ext else top
  }

  /** The index of the last packet, from the highest before it. */
  function Ext(packets: seq<Number>): int
    requires packets != []
    decreases packets, 0
  {
    if |packets| == 1 then packets[0]
    else
      var top := Top(Init(packets));
      top + Delta(Last(packets), top % CYCLE)
  }

  function Exts(packets: seq<Number>): (exts: seq<int>)
    ensures |exts| == |packets|
  {
    if packets == [] then [] else Exts(Init(packets)) + [Ext(packets)]
  }

  function Indices(packets: seq<Number>): set<int> {
    set e | e in Exts(packets)
  }

  lemma IndicesSnoc(packets: seq<Number>)
    requires packets != []
    ensures Indices(packets) == Indices(Init(packets)) + {Ext(packets)}
  {
    assert Exts(packets) == Exts(Init(packets)) + [Ext(packets)];
  }

  /** Every index lies between half a cycle below the first and the highest. */
  lemma {:induction false} IndexRange(packets: seq<Number>)
    requires packets != []
    ensures packets[0] <= Top(packets) && Top(packets) in Indices(packets)
    ensures forall e :: e in Exts(packets) ==> packets[0] - CYCLE / 2 <= e <= Top(packets)
  {
    IndicesSnoc(packets);
    if |packets| == 1 {
      assert Exts(Init(packets)) == [];
    } else {
      IndexRange(Init(packets));
    }
  }

  // ----- the loss account

  datatype Account = Account(total: nat, lost: int, reordered: nat, dupes: nat, gaps: nat)

  /** Packets that move the highest index on, and those among them that jump. */
  function Advances(packets: seq<Number>): nat {
    if |packets| <= 1 then 0
    else Advances(Init(packets)) + if Ext(packets) > Top(Init(packets)) then 1 else 0
  }

  function Jumps(packets: seq<Number>): nat {
    if |packets| <= 1 then 0
    else Jumps(Init(packets)) + if Ext(packets) > Top(Init(packets)) + 1 then 1 else 0
  }

  /** The index here is more than `step` above every one before. */
  predicate IsRecord(exts: seq<int>, step: nat, k: nat) {
    1 <= k < |exts| && forall j :: 0 <= j < k ==> exts[j] + step < exts[k]
  }

  ghost function Records(exts: seq<int>, step: nat): set<nat> {
    set k: nat | k < |exts| && IsRecord(exts, step, k)
  }

  lemma {:induction false} TopIsHighest(packets: seq<Number>, x: int)
    requires packets != []
    ensures Top(packets) < x <==> forall j :: 0 <= j < |packets| ==> Exts(packets)[j] < x
  {
    if |packets| == 1 {
      SingleNumber(packets);
    } else {
      var before := Init(packets);
      TopIsHighest(before, x);
      assert Exts(packets) == Exts(before) + [Ext(packets)];
      assert forall j :: 0 <= j < |before| ==> Exts(packets)[j] == Exts(before)[j];
      assert Exts(packets)[|packets| - 1] == Ext(packets);
    }
  }

  lemma RecordsSnoc(exts: seq<int>, ext: int, step: nat)
    requires exts != []
    ensures |Records(exts + [ext], step)| ==
      |Records(exts, step)| + if forall j :: 0 <= j < |exts| ==> exts[j] < ext - step then 1 else 0
  {
    var more, n := exts + [ext], |exts|;
    forall k: nat | k < n ensures IsRecord(more, step, k) <==> IsRecord(exts, step, k) {
      assert forall j :: 0 <= j <= k ==> more[j] == exts[j];
    }
    assert IsRecord(more, step, n) <==> forall j :: 0 <= j < n ==> exts[j] < ext - step by {
      assert forall j :: 0 <= j < n ==> more[j] == exts[j];
    }
    hide IsRecord;
    assert Records(more, step) == Records(exts, step) + if IsRecord(more, step, n) then {n} else {};
  }

  lemma NoRecords(exts: seq<int>, step: nat)
    requires |exts| <= 1
    ensures Records(exts, step) == {}
  {
  }

  /** What the account counts: packets that set a new highest index, and those that leave a gap doing so. */
  lemma {:induction false} AdvancesAreRecords(packets: seq<Number>)
    ensures Advances(packets) == |Records(Exts(packets), 0)| && Jumps(packets) == |Records(Exts(packets), 1)|
  {
    if |packets| <= 1 {
      NoRecords(Exts(packets), 0);
      NoRecords(Exts(packets), 1);
    } else {
      var before := Init(packets);
      AdvancesAreRecords(before);
      TopIsHighest(before, Ext(packets));
      TopIsHighest(before, Ext(packets) - 1);
      RecordsSnoc(Exts(before), Ext(packets), 0);
      RecordsSnoc(Exts(before), Ext(packets), 1);
    }
  }

  lemma SingleNumber(packets: seq<Number>)
    requires |packets| == 1
    ensures Exts(packets) == [packets[0]] && Indices(packets) == {packets[0]} && Top(packets) == packets[0]
    ensures Advances(packets) == 0 && Jumps(packets) == 0
  {
    assert Init(packets) == [];
    assert Exts(Init(packets)) == [];
  }

  /** The sequence number the highest index came with. */
  predicate IsNumberOf(highest: Number, top: int) {
    top % CYCLE == highest
  }

  lemma FirstNumber(number: Number)
    ensures IsNumberOf(number, number)
  {
  }

  /** How one more packet moves everything the scan accounts for. */
  lemma OneMorePacket(packets: seq<Number>, n: nat, highest: Number)
    requires 1 <= n < |packets| && IsNumberOf(highest, Top(packets[..n]))
    ensures var before, after := packets[..n], packets[..n + 1];
      var top := Top(before);
      var ext := top + Delta(packets[n], highest);
      && ext == Ext(after) && Top(after) == (if ext > top then ext else top) && IsNumberOf(packets[n], ext)
      && Exts(after) == Exts(before) + [ext]
      && Indices(after) == Indices(before) + {ext} && (ext > top ==> ext !in Indices(before))
      && Advances(after) == Advances(before) + (if ext > top then 1 else 0)
      && Jumps(after) == Jumps(before) + (if ext > top + 1 then 1 else 0)
  {
    hide Delta, Indices;
    var after := packets[..n + 1];
    assert Init(after) == packets[..n] && Last(after) == packets[n];
    IndicesSnoc(after);
    IndexRange(packets[..n]);
    NewIndex(packets[..n], Ext(after));
    NumberOfExt(packets[n], highest, Top(packets[..n]));
  }

  lemma NewIndex(packets: seq<Number>, ext: int)
    requires packets != [] && forall e :: e in Exts(packets) ==> e <= Top(packets)
    ensures ext > Top(packets) ==> ext !in Indices(packets)
  {
  }

  lemma NumberOfExt(number: Number, highest: Number, top: int)
    requires IsNumberOf(highest, top)
    ensures IsNumberOf(number, top + Delta(number, highest))
  {
  }

  lemma SetGrows(seen: set<int>, x: int)
    ensures |seen + {x}| == |seen| + if x in seen then 0 else 1
  {
    assert x in seen ==> seen + {x} == seen;
  }

  /** The switch of the scan: on by one, a jump, a duplicate, or a late arrival that fills a gap. */
  function Count(a: Account, delta: int, known: bool): Account {
    var counted := a.(total := a.total + 1);
    if delta == 1 then counted
    else if delta > 1 then
      counted.(lost := a.lost + (delta - 1), gaps := if a.gaps < MAX_GAPS then a.gaps + 1 else a.gaps)
    else if known then counted.(dupes := a.dupes + 1)
    else counted.(reordered := a.reordered + 1, lost := a.lost - 1)
  }

  /** What the account says of the packets scanned so far, given how many different indices they have. */
  ghost predicate AccountIs(a: Account, packets: seq<Number>, distinct: int)
    requires packets != []
  {
    && a.total == |packets| == distinct + a.dupes
    && a.lost == Top(packets) - packets[0] + 1 - distinct
    && a.reordered == distinct - 1 - Advances(packets)
    && a.gaps == if Jumps(packets) < 2000 then Jumps(packets) else 2000
  }

  lemma FirstAccount(packets: seq<Number>)
    requires |packets| == 1
    ensures AccountIs(Account(1, 0, 0, 0, 0), packets, 1)
  {
    SingleNumber(packets);
  }

  lemma CountIs(a: Account, packets: seq<Number>, n: nat, delta: int, distinct: int, top: int, known: bool)
    requires 1 <= n < |packets| && AccountIs(a, packets[..n], distinct) && top == Top(packets[..n])
    requires Top(packets[..n + 1]) == (if delta > 0 then top + delta else top)
    requires delta > 0 ==> !known
    requires Advances(packets[..n + 1]) == Advances(packets[..n]) + (if delta > 0 then 1 else 0)
    requires Jumps(packets[..n + 1]) == Jumps(packets[..n]) + (if delta > 1 then 1 else 0)
    ensures AccountIs(Count(a, delta, known), packets[..n + 1], distinct + if known then 0 else 1)
  {
  }

  /** What the scan's variables are after the first n packets. */
  ghost predicate Scanned(packets: seq<Number>, n: nat, highest: Number, highestExt: int, seen: set<int>, a: Account)
    requires 1 <= n <= |packets|
  {
    && highestExt == Top(packets[..n]) && IsNumberOf(highest, highestExt)
    && seen == Indices(packets[..n]) && AccountIs(a, packets[..n], |seen|)
  }

  lemma ScanNext(packets: seq<Number>, n: nat, highest: Number, highestExt: int, seen: set<int>, a: Account)
    requires 1 <= n < |packets| && Scanned(packets, n, highest, highestExt, seen, a)
    ensures var delta := Delta(packets[n], highest);
      var ext := highestExt + delta;
      Scanned(packets, n + 1, if delta > 0 then packets[n] else highest, if delta > 0 then ext else highestExt,
              seen + {ext}, Count(a, delta, ext in seen))
  {
    hide Ext, Top, Exts, Indices, Advances, Jumps, Delta, IsNumberOf, AccountIs, Count;
    OneMorePacket(packets, n, highest);
    var delta := Delta(packets[n], highest);
    var ext := highestExt + delta;
    CountIs(a, packets, n, delta, |seen|, highestExt, ext in seen);
    SetGrows(seen, ext);
  }

  lemma ScanStarts(packets: seq<Number>)
    requires packets != []
    ensures Scanned(packets, 1, packets[0], packets[0], {packets[0] as int}, Account(1, 0, 0, 0, 0))
  {
    FirstNumber(packets[0]);
    SingleNumber(packets[..1]);
    FirstAccount(packets[..1]);
  }

  /** The scan: one loop over the sequence numbers in order of arrival. */
  method Scan(packets: seq<Number>) returns (a: Account)
    ensures packets == [] ==> a == Account(0, 0, 0, 0, 0)
    ensures packets != [] ==> AccountIs(a, packets, |Indices(packets)|)
  {
    if packets == [] {
      return Account(0, 0, 0, 0, 0);
    }
    var highest, highestExt: int := packets[0], packets[0];
    var seen: set<int> := {highestExt};
    a := Account(1, 0, 0, 0, 0);
    ScanStarts(packets);
    for n := 1 to |packets|
      invariant Scanned(packets, n, highest, highestExt, seen, a)
    {
      hide *;
      ScanNext(packets, n, highest, highestExt, seen, a);
      var delta := Delta(packets[n], highest);
      var ext := highestExt + delta;
      a := Count(a, delta, ext in seen);
      if delta > 0 {
        highest, highestExt := packets[n], ext;
      }
      seen := seen + {ext};
    }
    assert packets[..|packets|] == packets;
  }

  function Span(low: int, high: int): (span: set<int>)
    requires low <= high + 1
    ensures forall i :: i in span <==> low <= i <= high
    ensures |span| == high - low + 1
    decreases high - low
  {
    if low > high then {} else Span(low, high - 1) + {high}
  }

  lemma SizesDiffer<T>(x: set<T>, y: set<T>)
    ensures |x| - |y| == |x - y| - |y - x|
  {
    assert x == (x - y) + (x * y) && y == (y - x) + (x * y);
  }

  predicate NothingEarly(seen: set<int>, low: int) {
    forall e :: e in seen ==> e >= low
  }

  lemma NoneBelow(seen: set<int>, low: int, high: int)
    requires low <= high && forall e :: e in seen ==> e <= high
    ensures |seen - Span(low, high)| == 0 <==> NothingEarly(seen, low)
  {
    var early := seen - Span(low, high);
    if early == {} {
      forall e | e in seen ensures e >= low {
        assert e !in early;
      }
    } else {
      var e :| e in early;
      assert e < low;
    }
  }

  lemma LostBetween(seen: set<int>, low: int, high: int, lost: int)
    requires low <= high && lost == high - low + 1 - |seen| && forall e :: e in seen ==> e <= high
    ensures lost == |Span(low, high) - seen| - |seen - Span(low, high)|
    ensures lost == |Span(low, high) - seen| <==> NothingEarly(seen, low)
  {
    SizesDiffer(Span(low, high), seen);
    NoneBelow(seen, low, high);
  }

  lemma IndicesBelowTop(packets: seq<Number>)
    requires packets != []
    ensures packets[0] <= Top(packets) && forall e :: e in Indices(packets) ==> e <= Top(packets)
  {
    IndexRange(packets);
    forall e | e in Indices(packets) ensures e <= Top(packets) {
      assert e in Exts(packets);
    }
  }

  /** The account's lost packets are those never seen between the first and the highest, less the
      packets from before the first; so the figure is the number never recovered exactly when no packet
      from before the first one arrived. */
  lemma LostAreMissing(packets: seq<Number>)
    requires packets != []
    ensures packets[0] <= Top(packets)
    ensures var seen, span := Indices(packets), Span(packets[0], Top(packets));
      var lost := Top(packets) - packets[0] + 1 - |seen|;
      && lost == |span - seen| - |seen - span|
      && (lost == |span - seen| <==> NothingEarly(seen, packets[0]))
  {
    hide Indices, Top, Span;
    IndicesBelowTop(packets);
    LostBetween(Indices(packets), packets[0], Top(packets), Top(packets) - packets[0] + 1 - |Indices(packets)|);
  }

  lemma OneMoreIndex(packets: seq<Number>, number: Number)
    requires packets != []
    ensures var ext := Top(packets) + Delta(number, Top(packets) % CYCLE);
      && Indices(packets + [number]) == Indices(packets) + {ext}
      && Top(packets + [number]) == if ext > Top(packets) then ext else Top(packets)
  {
    hide Indices, Delta;
    assert Init(packets + [number]) == packets;
    IndicesSnoc(packets + [number]);
  }

  lemma DeltaIs(number: Number, highest: Number, delta: int)
    requires number == highest + delta && -CYCLE / 2 <= delta < CYCLE / 2
    ensures Delta(number, highest) == delta
  {
  }

  /** A packet from before the first one hides a missing one: 11 never arrives and lost is 0. */
  lemma EarlyPacketHidesLoss()
    ensures var packets := [10, 12, 9];
      Top(packets) - packets[0] + 1 - |Indices(packets)| == 0 && 11 in Span(packets[0], Top(packets)) - Indices(packets)
  {
    hide Ext, Top, Indices, Delta;
    SingleNumber([10]);
    OneMoreIndex([10], 12);
    DeltaIs(12, 10, 2);
    OneMoreIndex([10, 12], 9);
    DeltaIs(9, 12, -3);
    assert [10] + [12] == [10, 12] && [10, 12] + [9] == [10, 12, 9];
    assert Indices([10, 12, 9]) == {10, 12, 9};
  }

  // ----- true indices

  function Highest(indices: seq<int>): int
    requires indices != []
  {
    if |indices| == 1 then indices[0]
    else if Last(indices) > Highest(Init(indices)) then Last(indices) else Highest(Init(indices))
  }

  /** Each packet is less than half a cycle ahead of the highest before it and at most half behind. */
  ghost predicate Orderly(indices: seq<int>) {
    forall k :: 1 <= k < |indices| ==> -CYCLE / 2 <= indices[k] - Highest(indices[..k]) < CYCLE / 2
  }

  ghost predicate Numbers(packets: seq<Number>, indices: seq<int>) {
    |packets| == |indices| && forall k :: 0 <= k < |packets| ==> packets[k] == indices[k] % CYCLE
  }

  lemma DeltaIsDifference(index: int, highest: int)
    requires -CYCLE / 2 <= index - highest < CYCLE / 2
    ensures Delta(index % CYCLE, highest % CYCLE) == index - highest
  {
  }

  lemma SameCycle(top: int, first: int, highest: int, known: int)
    requires first == known % CYCLE && top - first == highest - known
    ensures top % CYCLE == highest % CYCLE
  {
  }

  ghost predicate SameDifferences(exts: seq<int>, indices: seq<int>)
    requires exts != [] && |exts| == |indices|
  {
    forall k :: 0 <= k < |exts| ==> exts[k] - exts[0] == indices[k] - indices[0]
  }

  lemma SameDifferencesSnoc(exts: seq<int>, indices: seq<int>, ext: int, index: int)
    requires exts != [] && |exts| == |indices|
    ensures SameDifferences(exts + [ext], indices + [index]) <==>
      SameDifferences(exts, indices) && ext - exts[0] == index - indices[0]
  {
    var e, x := exts + [ext], indices + [index];
    assert e[|exts|] == ext && x[|exts|] == index;
    if SameDifferences(e, x) {
      forall k | 0 <= k < |exts| ensures exts[k] - exts[0] == indices[k] - indices[0] {
        assert e[k] == exts[k] && x[k] == indices[k];
      }
    }
  }

  lemma OrderlySnoc(indices: seq<int>)
    requires |indices| > 1
    ensures Orderly(indices) <==>
      Orderly(Init(indices)) && -CYCLE / 2 <= Last(indices) - Highest(Init(indices)) < CYCLE / 2
  {
    var known, n := Init(indices), |indices| - 1;
    assert indices[..n] == known && indices[n] == Last(indices);
    assert forall k :: 1 <= k < n ==> known[..k] == indices[..k] && known[k] == indices[k];
  }

  lemma FirstExt(packets: seq<Number>)
    requires packets != []
    ensures |Exts(packets)| == |packets| && Exts(packets)[0] == packets[0]
  {
    if |packets| == 1 {
      SingleNumber(packets);
    } else {
      FirstExt(Init(packets));
    }
  }

  lemma DeltaInRange(number: Number, highest: Number)
    ensures -CYCLE / 2 <= Delta(number, highest) < CYCLE / 2
  {
  }

  lemma LastIndex(packets: seq<Number>)
    requires |packets| > 1
    ensures var top, ext := Top(Init(packets)), Ext(packets);
      && ext == top + Delta(Last(packets), top % CYCLE) && Top(packets) == (if ext > top then ext else top)
      && Exts(packets) == Exts(Init(packets)) + [ext]
  {
    hide Delta;
  }

  /** However often the numbers wrap, the indices differ as the true ones do exactly when each packet is
      less than half a cycle ahead of the highest before it and at most half behind. */
  lemma {:induction false} DifferencesAreTrue(packets: seq<Number>, indices: seq<int>)
    requires packets != [] && Numbers(packets, indices)
    ensures SameDifferences(Exts(packets), indices) <==> Orderly(indices)
    ensures Orderly(indices) ==> Top(packets) - packets[0] == Highest(indices) - indices[0]
  {
    if |packets| == 1 {
      SingleNumber(packets);
    } else {
      LastIndex(packets);
      hide Delta, SameDifferences, Orderly, Top, Ext, Exts;
      var before, known := Init(packets), Init(indices);
      DifferencesAreTrue(before, known);
      FirstExt(before);
      OrderlySnoc(indices);
      assert indices == known + [Last(indices)];
      SameDifferencesSnoc(Exts(before), known, Ext(packets), Last(indices));
      if Orderly(known) {
        SameCycle(Top(before), packets[0], Highest(known), indices[0]);
        DeltaInRange(Last(packets), Top(before) % CYCLE);
        if -CYCLE / 2 <= Last(indices) - Highest(known) < CYCLE / 2 {
          DeltaIsDifference(Last(indices), Highest(known));
        }
      }
    }
  }

  // ----- putting packets in order

  /** A packet with its index; packets are told apart by when they arrived. */
  datatype Entry = Entry(ext: int, arrival: nat)

  predicate ExtBelow(a: Entry, b: Entry) {
    a.ext < b.ext
  }

  function Entries(packets: seq<Number>): (entries: seq<Entry>)
    ensures |entries| == |packets|
  {
    var exts := Exts(packets);
    seq(|packets|, n requires 0 <= n < |packets| => Entry(exts[n], n))
  }

  /** By index, and among equal indices by arrival. */
  ghost predicate InOrder(entries: seq<Entry>) {
    forall i, j :: 0 <= i < j < |entries| ==> Precedes(entries[i], entries[j])
  }

  predicate Precedes(a: Entry, b: Entry) {
    a.ext < b.ext || (a.ext == b.ext && a.arrival < b.arrival)
  }

  lemma InOrderSnoc(entries: seq<Entry>, x: Entry)
    requires InOrder(entries) && forall e :: e in entries ==> Precedes(e, x)
    ensures InOrder(entries + [x])
  {
    forall i | 0 <= i < |entries| ensures Precedes(entries[i], x) {
      assert entries[i] in entries;
    }
  }

  lemma LastSucceeds(entries: seq<Entry>, e: Entry)
    requires InOrder(entries) && entries != [] && e in entries
    ensures e == Last(entries) || Precedes(e, Last(entries))
  {
    var k :| 0 <= k < |entries| && entries[k] == e;
  }

  lemma {:induction false} InsertInOrder(entries: seq<Entry>, x: Entry)
    requires InOrder(entries) && forall e :: e in entries ==> e.arrival < x.arrival
    ensures InOrder(Insert(entries, x, ExtBelow))
  {
    if entries != [] && ExtBelow(x, Last(entries)) {
      var rest, last := Init(entries), Last(entries);
      assert entries == rest + [last];
      InsertInOrder(rest, x);
      var inserted := Insert(rest, x, ExtBelow);
      MultisetMembers(inserted, rest + [x]);
      forall e | e in inserted ensures Precedes(e, last) {
        if e in rest {
          var k :| 0 <= k < |rest| && rest[k] == e;
          assert entries[k] == e;
        }
      }
      InOrderSnoc(inserted, last);
    } else {
      forall e | e in entries ensures Precedes(e, x) {
        LastSucceeds(entries, e);
      }
      InOrderSnoc(entries, x);
    }
  }

  /** The stable sort keeps packets with the same index in order of arrival. */
  lemma {:induction false} SortIsStable(entries: seq<Entry>)
    requires forall i, j :: 0 <= i < j < |entries| ==> entries[i].arrival < entries[j].arrival
    ensures InOrder(Sort(entries, ExtBelow))
  {
    if entries != [] {
      SortIsStable(Init(entries));
      MultisetMembers(Sort(Init(entries), ExtBelow), Init(entries));
      forall e | e in Sort(Init(entries), ExtBelow) ensures e.arrival < Last(entries).arrival {
        var k :| 0 <= k < |entries| - 1 && Init(entries)[k] == e;
      }
      InsertInOrder(Sort(Init(entries), ExtBelow), Last(entries));
    }
  }

  /** The first entry of each index, in order. */
  function Firsts(entries: seq<Entry>): seq<Entry> {
    if entries == [] then []
    else if |entries| > 1 && Last(Init(entries)).ext == Last(entries).ext then Firsts(Init(entries))
    else Firsts(Init(entries)) + [Last(entries)]
  }

  const BEFORE_ALL := -0x4000_0000_0000_0000

  lemma FirstsSnoc(entries: seq<Entry>, n: nat)
    requires n < |entries|
    ensures Firsts(entries[..n + 1]) ==
      if n > 0 && entries[n - 1].ext == entries[n].ext then Firsts(entries[..n])
      else Firsts(entries[..n]) + [entries[n]]
  {
    assert Init(entries[..n + 1]) == entries[..n];
  }

  /** Drops repeated indices within the array; what is written never overtakes what is read. */
  method Compact(entries: array<Entry>) returns (kept: nat)
    requires forall n :: 0 <= n < entries.Length ==> entries[n].ext > BEFORE_ALL
    modifies entries
    ensures kept <= entries.Length && entries[..kept] == Firsts(old(entries[..]))
  {
    hide Firsts;
    ghost var was := entries[..];
    assert Firsts(was[..0]) == [] by { NoFirsts(); assert was[..0] == []; }
    kept := 0;
    var lastExt := BEFORE_ALL;
    for n := 0 to entries.Length
      invariant kept <= n && entries[n..] == was[n..]
      invariant entries[..kept] == Firsts(was[..n])
      invariant lastExt == if n == 0 then BEFORE_ALL else was[n - 1].ext
    {
      var e := entries[n];
      assert e == entries[n..][0] == was[n];
      FirstsSnoc(was, n);
      if e.ext == lastExt { continue; }
      lastExt := e.ext;
      entries[kept] := e;
      kept := kept + 1;
      assert entries[..kept] == entries[..kept - 1] + [e] && entries[..kept - 1] == Firsts(was[..n]);
      assert entries[n + 1..] == was[n + 1..];
    }
    assert was[..|was|] == was;
  }

  lemma NoFirsts()
    ensures Firsts([]) == []
  {
  }

  /** What a recovery writes: each index once, strictly increasing, as it first arrived. */
  ghost predicate Recovered(packets: seq<Number>, out: seq<Entry>) {
    && (forall i, j :: 0 <= i < j < |out| ==> out[i].ext < out[j].ext)
    && ExtSet(out) == Indices(packets)
    && forall e :: e in out ==> FirstArrival(packets, e)
  }

  ghost predicate FirstArrival(packets: seq<Number>, e: Entry) {
    && e.arrival < |packets| && Exts(packets)[e.arrival] == e.ext
    && forall n :: 0 <= n < e.arrival ==> Exts(packets)[n] != e.ext
  }

  lemma LastIsGreatest(entries: seq<Entry>, f: Entry)
    requires InOrder(entries) && entries != [] && f in Init(entries)
    ensures f.ext <= Last(Init(entries)).ext <= Last(entries).ext
    ensures f.ext == Last(entries).ext ==> f.arrival < Last(entries).arrival
  {
    var k :| 0 <= k < |entries| - 1 && entries[k] == f;
  }

  lemma {:induction false} FirstsIncrease(entries: seq<Entry>)
    requires InOrder(entries)
    ensures var firsts := Firsts(entries);
      && (forall i, j :: 0 <= i < j < |firsts| ==> firsts[i].ext < firsts[j].ext)
      && (entries != [] ==> firsts != [] && Last(firsts).ext == Last(entries).ext)
  {
    if entries != [] {
      FirstsIncrease(Init(entries));
      if |entries| > 1 {
        assert Last(Init(entries)) in Init(entries);
        LastIsGreatest(entries, Last(Init(entries)));
      }
    }
  }

  /** No entry with this index arrived earlier. */
  ghost predicate Earliest(entries: seq<Entry>, e: Entry) {
    e in entries && forall f :: f in entries && f.ext == e.ext ==> e.arrival <= f.arrival
  }

  lemma EarliestStays(entries: seq<Entry>, e: Entry)
    requires InOrder(entries) && entries != [] && Earliest(Init(entries), e)
    ensures Earliest(entries, e)
  {
    assert entries == Init(entries) + [Last(entries)];
    LastIsGreatest(entries, e);
  }

  lemma NewIsEarliest(entries: seq<Entry>)
    requires InOrder(entries) && entries != []
    requires |entries| == 1 || Last(Init(entries)).ext != Last(entries).ext
    ensures Earliest(entries, Last(entries))
  {
    assert entries == Init(entries) + [Last(entries)];
    forall f | f in Init(entries) ensures f.ext != Last(entries).ext {
      LastIsGreatest(entries, f);
    }
  }

  lemma {:induction false} FirstsEarliest(entries: seq<Entry>)
    requires InOrder(entries)
    ensures forall e :: e in Firsts(entries) ==> Earliest(entries, e)
  {
    if entries != [] {
      hide Earliest;
      FirstsEarliest(Init(entries));
      forall e | e in Firsts(entries) ensures Earliest(entries, e) {
        if e in Firsts(Init(entries)) {
          EarliestStays(entries, e);
        } else {
          NewIsEarliest(entries);
        }
      }
    }
  }

  /** Every index of the entries is the index of some first. */
  ghost predicate Represented(firsts: seq<Entry>, ext: int) {
    exists e :: e in firsts && e.ext == ext
  }

  lemma {:induction false} FirstsRepresent(entries: seq<Entry>)
    ensures forall f :: f in entries ==> Represented(Firsts(entries), f.ext)
  {
    if entries != [] {
      FirstsRepresent(Init(entries));
      assert entries == Init(entries) + [Last(entries)];
      forall f | f in entries ensures Represented(Firsts(entries), f.ext) {
        if f in Init(entries) {
          assert Represented(Firsts(Init(entries)), f.ext);
          var e :| e in Firsts(Init(entries)) && e.ext == f.ext;
          assert e in Firsts(entries);
        } else if |entries| > 1 && Last(Init(entries)).ext == f.ext {
          assert Last(Init(entries)) in Init(entries);
        } else {
          assert Last(entries) in Firsts(entries);
        }
      }
    }
  }

  function ExtSet(out: seq<Entry>): set<int> {
    set e | e in out :: e.ext
  }

  lemma ExtSetSnoc(out: seq<Entry>)
    requires out != []
    ensures ExtSet(out) == ExtSet(Init(out)) + {Last(out).ext}
  {
    assert out == Init(out) + [Last(out)];
  }

  lemma {:induction false} DistinctExtsCount(out: seq<Entry>)
    requires forall i, j :: 0 <= i < j < |out| ==> out[i].ext < out[j].ext
    ensures |ExtSet(out)| == |out|
  {
    if out != [] {
      DistinctExtsCount(Init(out));
      ExtSetSnoc(out);
      forall x | x in ExtSet(Init(out)) ensures x < Last(out).ext {
        var k :| 0 <= k < |out| - 1 && Init(out)[k].ext == x;
        assert out[k].ext == x;
      }
    }
  }

  lemma FirstsCover(packets: seq<Number>, sorted: seq<Entry>)
    requires multiset(sorted) == multiset(Entries(packets)) && InOrder(sorted)
    ensures ExtSet(Firsts(sorted)) == Indices(packets)
  {
    var entries, out := Entries(packets), Firsts(sorted);
    MultisetMembers(sorted, entries);
    FirstsEarliest(sorted);
    FirstsRepresent(sorted);
    forall x | x in Indices(packets) ensures x in ExtSet(out) {
      var n :| 0 <= n < |packets| && Exts(packets)[n] == x;
      assert entries[n] in sorted;
      assert Represented(out, entries[n].ext);
    }
    forall e | e in out ensures e.ext in Indices(packets) {
      assert Earliest(sorted, e);
      var n :| 0 <= n < |entries| && entries[n] == e;
      assert Exts(packets)[n] == e.ext;
    }
  }

  lemma EarliestArrivesFirst(packets: seq<Number>, sorted: seq<Entry>, e: Entry)
    requires multiset(sorted) == multiset(Entries(packets)) && Earliest(sorted, e)
    ensures FirstArrival(packets, e)
  {
    hide Exts;
    var entries := Entries(packets);
    MultisetMembers(sorted, entries);
    var k :| 0 <= k < |entries| && entries[k] == e;
    forall n | 0 <= n < e.arrival ensures Exts(packets)[n] != e.ext {
      assert entries[n] in sorted;
    }
  }

  lemma FirstsRecover(packets: seq<Number>, sorted: seq<Entry>)
    requires sorted == Sort(Entries(packets), ExtBelow)
    ensures Recovered(packets, Firsts(sorted)) && |Firsts(sorted)| == |Indices(packets)|
  {
    hide Firsts, Exts, Sort, Insert, FirstArrival, Earliest, Indices, ExtSet;
    SortIsStable(Entries(packets));
    FirstsIncrease(sorted);
    FirstsEarliest(sorted);
    FirstsCover(packets, sorted);
    DistinctExtsCount(Firsts(sorted));
    forall e | e in Firsts(sorted) ensures FirstArrival(packets, e) {
      EarliestArrivesFirst(packets, sorted, e);
    }
  }

  /** The packets with their indices, in order of arrival. */
  method ReadEntries(packets: seq<Number>) returns (entries: seq<Entry>)
    ensures entries == Entries(packets)
  {
    entries := [];
    if packets != [] {
      hide Ext, Top, Exts, Delta, IsNumberOf;
      var highest, highestExt: int := packets[0], packets[0];
      FirstNumber(packets[0]);
      entries := [Entry(highestExt, 0)];
      SingleNumber(packets[..1]);
      for n := 1 to |packets|
        invariant highestExt == Top(packets[..n]) && IsNumberOf(highest, highestExt)
        invariant entries == Entries(packets[..n])
      {
        OneMorePacket(packets, n, highest);
        var delta := Delta(packets[n], highest);
        var ext := highestExt + delta;
        if delta > 0 {
          highest, highestExt := packets[n], ext;
        }
        entries := entries + [Entry(ext, n)];
      }
      assert packets[..|packets|] == packets;
    }
  }

  /** The recovery: indices as in the scan, then the stable sort, then the compaction. It writes as many
      packets as the scan counts without its duplicates. */
  method Recover(packets: seq<Number>) returns (out: seq<Entry>)
    ensures Recovered(packets, out) && |out| == |Indices(packets)|
  {
    hide Entries, Exts, Indices, Firsts, Recovered, Sort;
    var entries := ReadEntries(packets);
    var sorted := Sort(entries, ExtBelow);
    SortedInRange(packets, sorted);
    var a := new Entry[|sorted|](n requires 0 <= n < |sorted| => sorted[n]);
    assert a[..] == sorted;
    var kept := Compact(a);
    FirstsRecover(packets, sorted);
    out := a[..kept];
  }

  lemma SortedInRange(packets: seq<Number>, sorted: seq<Entry>)
    requires multiset(sorted) == multiset(Entries(packets))
    ensures forall n :: 0 <= n < |sorted| ==> sorted[n].ext > BEFORE_ALL
  {
    var entries := Entries(packets);
    MultisetMembers(sorted, entries);
    if packets != [] {
      IndexRange(packets);
    }
    forall n | 0 <= n < |sorted| ensures sorted[n].ext > BEFORE_ALL {
      assert sorted[n] in entries;
      var k :| 0 <= k < |entries| && entries[k] == sorted[n];
      assert Exts(packets)[k] in Exts(packets);
    }
  }
}
