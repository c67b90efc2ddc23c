/** The annotations member of a published meeting: its tags, the marks made with them, the
    writer's check and the canonical order. Positions in time are int64 milliseconds. */
module AnnotationDocument {
  import opened Wrappers
  import opened Sequences
  import opened Sorting

  const MAX_INT64: int := 0x7fff_ffff_ffff_ffff
  const MIN_INT64: int := -0x8000_0000_0000_0000

  type Int64 = x: int | MIN_INT64 <= x <= MAX_INT64

  const FORMAT_V1 := "cassini.annotations.v1"
  const TARGET_MEETING := "meeting"
  const TARGET_TIME_RANGE := "time-range"
  const MAX_TAGS := 200
  const MAX_ITEMS := 2000
  const MAX_LABEL_RUNES := 64
  const MAX_TITLE_RUNES := 200
  const MAX_ACTOR_ID_LENGTH := 256

  const TAG_COLORS: set<string> := {
    "slate", "red", "orange", "amber", "green", "teal",
    "cyan", "blue", "indigo", "violet", "purple", "pink"
  }

  const TAG_ICONS: set<string> := {
    "", "star", "flag", "bolt", "bookmark", "check", "alert", "bug", "heart", "question",
    "lightbulb", "target", "users", "calendar", "money", "lock", "chat"
  }

  /** Library text functions the engine calls but does not define. `fold` picks one representative
      of each class of labels that `strings.EqualFold` identifies; `lower` is `strings.ToLower`. */
  datatype Text = Text(
    fold: string -> string,
    lower: string -> string,
    trim: string -> string,
    utf8: string -> bool,
    runes: string -> nat,
    bytes: string -> nat,
    control: string -> bool,
    isId: string -> bool,
    isDigest: string -> bool,
    isNamespace: string -> bool,
    isTime: string -> bool
  ) {
    predicate SameLabel(a: string, b: string) {
      fold(a) == fold(b)
    }
  }

  datatype Target = Target(kind: string, start: Option<Int64>, end: Option<Int64>)
  datatype Tag = Tag(id: string, name: string, color: Option<string>, icon: Option<string>)
  datatype Actor = Actor(kind: string, id: string)
  datatype Item = Item(id: string, tagId: string, target: Target, createdAt: string, actor: Actor, operationId: string)
  datatype Meeting = Meeting(title: string, setAt: string, actor: Actor)

  datatype Annotations = Annotations(
    format: string,
    revision: Int64,
    audio: string,
    namespace: string,
    tags: seq<Tag>,
    items: seq<Item>,
    meeting: Option<Meeting>
  )

  const EMPTY := Annotations("", 0, "", "", [], [], None)

  function TagKey(t: Tag): string { t.id }

  function ItemKey(i: Item): string { i.id }

  /** What a mark says: which tag covers which target. */
  function MarkKey(i: Item): (string, Target) { (i.tagId, i.target) }

  function TagIds(tags: seq<Tag>): set<string> {
    set t | t in tags :: t.id
  }

  function UsedIds(items: seq<Item>): set<string> {
    set i | i in items :: i.tagId
  }

  function ItemIds(items: seq<Item>): set<string> {
    set i | i in items :: i.id
  }

  lemma TagIdsSnoc(tags: seq<Tag>, t: Tag)
    ensures TagIds(tags + [t]) == TagIds(tags) + {t.id}
  {
    assert forall x :: x in tags + [t] <==> x in tags || x == t;
  }

  /** The lower-case, trimmed form a digest is compared in. */
  function Digest(tx: Text, audio: string): string {
    tx.lower(tx.trim(audio))
  }

  predicate Resolved(tx: Text, a: Annotations, audio: string) {
    a.audio != "" && a.audio == Digest(tx, audio)
  }

  // ----- the writer's check

  predicate LabelOk(tx: Text, name: string) {
    name == tx.trim(name) && tx.utf8(name) && 0 < tx.runes(name) <= MAX_LABEL_RUNES && !tx.control(name)
  }

  predicate TitleOk(tx: Text, title: string) {
    title == tx.trim(title) && tx.utf8(title) && 0 < tx.runes(title) <= MAX_TITLE_RUNES && !tx.control(title)
  }

  predicate TargetOk(t: Target, duration: Int64) {
    if t.kind == TARGET_MEETING then
      t.start.None? && t.end.None?
    else
      t.kind == TARGET_TIME_RANGE && t.start.Some? && t.end.Some?
      && 0 <= t.start.value < t.end.value && 0 < duration && t.end.value <= duration
  }

  predicate ActorOk(tx: Text, a: Actor) {
    tx.trim(a.kind) != "" && tx.trim(a.id) != "" && tx.bytes(a.id) <= MAX_ACTOR_ID_LENGTH
  }

  predicate StyleOk(tx: Text, style: Option<string>) {
    style.Some? ==> tx.utf8(style.value)
  }

  predicate TagOk(tx: Text, t: Tag) {
    tx.isId(t.id) && LabelOk(tx, t.name) && StyleOk(tx, t.color) && StyleOk(tx, t.icon)
  }

  predicate MeetingOk(tx: Text, m: Meeting) {
    TitleOk(tx, m.title) && tx.isTime(m.setAt) && ActorOk(tx, m.actor)
  }

  /** What the check asks of one mark by itself. */
  predicate ItemOk(tx: Text, i: Item, duration: Int64) {
    tx.isId(i.id) && TargetOk(i.target, duration) && tx.isTime(i.createdAt) && ActorOk(tx, i.actor)
    && tx.isId(i.operationId)
  }

  /** Ids are unique and every mark names a tag that is there. */
  ghost predicate WellLinked(tags: seq<Tag>, items: seq<Item>) {
    Distinct(tags, TagKey) && Distinct(items, ItemKey) && UsedIds(items) <= TagIds(tags)
  }

  ghost predicate ContentOk(tx: Text, tags: seq<Tag>, items: seq<Item>, meeting: Option<Meeting>, duration: Int64) {
    && WellLinked(tags, items)
    && (forall t :: t in tags ==> TagOk(tx, t))
    && (forall i :: i in items ==> ItemOk(tx, i, duration))
    && (meeting.Some? ==> MeetingOk(tx, meeting.value))
  }

  predicate HeadOk(tx: Text, a: Annotations) {
    && a.format == FORMAT_V1 && a.revision >= 1 && tx.isDigest(a.audio) && tx.isNamespace(a.namespace)
    && |a.tags| <= MAX_TAGS && |a.items| <= MAX_ITEMS
  }

  /** Everything a writer may store, said without the order in which it is checked. */
  ghost predicate Valid(tx: Text, a: Annotations, duration: Int64) {
    HeadOk(tx, a) && ContentOk(tx, a.tags, a.items, a.meeting, duration)
  }

  method CheckTags(tx: Text, tags: seq<Tag>) returns (ok: bool, ids: set<string>)
    ensures ok <==> Distinct(tags, TagKey) && forall t :: t in tags ==> TagOk(tx, t)
    ensures ok ==> ids == TagIds(tags)
  {
    ids := {};
    for n := 0 to |tags|
      invariant ids == TagIds(tags[..n])
      invariant Distinct(tags[..n], TagKey) && forall t :: t in tags[..n] ==> TagOk(tx, t)
    {
      var tag := tags[n];
      assert tag in tags;
      assert tags[..n + 1] == tags[..n] + [tag];
      DistinctSnoc(tags[..n], tag, TagKey);
      if !tx.isId(tag.id) { return false, ids; }
      if tag.id in ids {
        DistinctPrefix(tags, n + 1, TagKey);
        return false, ids;
      }
      ids := ids + {tag.id};
      if !LabelOk(tx, tag.name) || !StyleOk(tx, tag.color) || !StyleOk(tx, tag.icon) { return false, ids; }
    }
    assert tags[..|tags|] == tags;
    return true, ids;
  }

  method CheckItems(tx: Text, items: seq<Item>, tagIds: set<string>, duration: Int64) returns (ok: bool)
    ensures ok <==>
      Distinct(items, ItemKey) && UsedIds(items) <= tagIds && forall i :: i in items ==> ItemOk(tx, i, duration)
  {
    var ids: set<string> := {};
    for n := 0 to |items|
      invariant ids == set i | i in items[..n] :: i.id
      invariant Distinct(items[..n], ItemKey)
      invariant forall i :: i in items[..n] ==> ItemOk(tx, i, duration) && i.tagId in tagIds
    {
      var item := items[n];
      assert item in items;
      assert items[..n + 1] == items[..n] + [item];
      DistinctSnoc(items[..n], item, ItemKey);
      if !tx.isId(item.id) { return false; }
      if item.id in ids {
        DistinctPrefix(items, n + 1, ItemKey);
        return false;
      }
      ids := ids + {item.id};
      if item.tagId !in tagIds {
        assert item.tagId in UsedIds(items);
        return false;
      }
      if !TargetOk(item.target, duration) || !tx.isTime(item.createdAt) || !ActorOk(tx, item.actor)
         || !tx.isId(item.operationId)
      {
        return false;
      }
    }
    assert items[..|items|] == items;
    return true;
  }

  /** The check as it runs: one pass over the tags and one over the marks, collecting ids. */
  method ValidateAnnotations(tx: Text, a: Annotations, duration: Int64) returns (ok: bool)
    ensures ok <==> Valid(tx, a, duration)
  {
    if !HeadOk(tx, a) {
      return false;
    }
    var tagIds;
    ok, tagIds := CheckTags(tx, a.tags);
    if !ok || (a.meeting.Some? && !MeetingOk(tx, a.meeting.value)) {
      return false;
    }
    ok := CheckItems(tx, a.items, tagIds, duration);
  }

  // ----- canonical order

  /** Tags go by folded label, then id. */
  predicate TagBelow(tx: Text, a: Tag, b: Tag) {
    if tx.lower(a.name) != tx.lower(b.name) then Below(tx.lower(a.name), tx.lower(b.name))
    else Below(a.id, b.id)
  }

  function Time(t: Option<Int64>): Int64 {
    if t.None? then 0 else t.value
  }

  /** Whole-meeting marks first, then by start, end and id. */
  predicate ItemBelow(a: Item, b: Item) {
    var wholeA, wholeB := a.target.kind == TARGET_MEETING, b.target.kind == TARGET_MEETING;
    if wholeA != wholeB then wholeA
    else if Time(a.target.start) != Time(b.target.start) then Time(a.target.start) < Time(b.target.start)
    else if Time(a.target.end) != Time(b.target.end) then Time(a.target.end) < Time(b.target.end)
    else Below(a.id, b.id)
  }

  function SortTags(tx: Text, tags: seq<Tag>): (sorted: seq<Tag>)
    ensures multiset(sorted) == multiset(tags)
  {
    Sort(tags, (a: Tag, b: Tag) => TagBelow(tx, a, b))
  }

  function SortItems(items: seq<Item>): (sorted: seq<Item>)
    ensures multiset(sorted) == multiset(items)
  {
    Sort(items, ItemBelow)
  }

  function Canonical(tx: Text, a: Annotations): Annotations {
    a.(tags := SortTags(tx, a.tags), items := SortItems(a.items))
  }

  lemma TagOrder(tx: Text)
    ensures StrictWeak((a: Tag, b: Tag) => TagBelow(tx, a, b))
    ensures forall a, b :: !TagBelow(tx, a, b) && !TagBelow(tx, b, a) ==> a.id == b.id
  {
    BelowIsOrder();
  }

  lemma ItemOrder()
    ensures StrictWeak(ItemBelow)
    ensures forall a, b :: !ItemBelow(a, b) && !ItemBelow(b, a) ==> a.id == b.id
  {
    BelowIsOrder();
  }

  lemma SameKeySameElement<T, K>(xs: seq<T>, x: T, y: T, key: T -> K)
    requires Distinct(xs, key) && x in xs && y in xs && key(x) == key(y)
    ensures x == y
  {
    var i :| 0 <= i < |xs| && xs[i] == x;
    var j :| 0 <= j < |xs| && xs[j] == y;
    assert i == j;
  }

  /** With unique ids the canonical order of tags depends only on which tags there are: any list of
      the same tags that is in order is the same list. */
  lemma TagsCanonical(tx: Text, tags: seq<Tag>, sorted: seq<Tag>)
    requires Distinct(tags, TagKey) && multiset(sorted) == multiset(tags)
    requires Sorted(sorted, (a: Tag, b: Tag) => TagBelow(tx, a, b))
    ensures sorted == SortTags(tx, tags)
  {
    var less := (a: Tag, b: Tag) => TagBelow(tx, a, b);
    TagOrder(tx);
    SortSorted(tags, less);
    PermutedDistinct(tags, sorted, TagKey);
    forall x, y | x in sorted && y in sorted && !less(x, y) && !less(y, x) ensures x == y {
      SameKeySameElement(sorted, x, y, TagKey);
    }
    SortedUnique(sorted, SortTags(tx, tags), less);
  }

  lemma ItemsCanonical(items: seq<Item>, sorted: seq<Item>)
    requires Distinct(items, ItemKey) && multiset(sorted) == multiset(items)
    requires Sorted(sorted, ItemBelow)
    ensures sorted == SortItems(items)
  {
    ItemOrder();
    SortSorted(items, ItemBelow);
    PermutedDistinct(items, sorted, ItemKey);
    forall x, y | x in sorted && y in sorted && !ItemBelow(x, y) && !ItemBelow(y, x) ensures x == y {
      SameKeySameElement(sorted, x, y, ItemKey);
    }
    SortedUnique(sorted, SortItems(items), ItemBelow);
  }

  /** Two writers that produce the same tags and marks, in whatever order, produce the same
      document; documents with different tags or marks stay different. */
  lemma CanonicalIsUnique(tx: Text, a: Annotations, b: Annotations)
    requires Distinct(a.tags, TagKey) && Distinct(a.items, ItemKey)
    ensures SortTags(tx, a.tags) == SortTags(tx, b.tags) <==> multiset(a.tags) == multiset(b.tags)
    ensures SortItems(a.items) == SortItems(b.items) <==> multiset(a.items) == multiset(b.items)
  {
    if multiset(a.tags) == multiset(b.tags) {
      TagOrder(tx);
      SortSorted(b.tags, (x: Tag, y: Tag) => TagBelow(tx, x, y));
      TagsCanonical(tx, a.tags, SortTags(tx, b.tags));
    }
    if multiset(a.items) == multiset(b.items) {
      ItemOrder();
      SortSorted(b.items, ItemBelow);
      ItemsCanonical(a.items, SortItems(b.items));
    }
    assert multiset(SortTags(tx, a.tags)) == multiset(a.tags) && multiset(SortTags(tx, b.tags)) == multiset(b.tags);
    assert multiset(SortItems(a.items)) == multiset(a.items) && multiset(SortItems(b.items)) == multiset(b.items);
  }

  /** In canonical order tags go by the lower-case label in byte order, then by id. */
  lemma TagsInOrder(tx: Text, tags: seq<Tag>, i: nat, j: nat)
    requires Distinct(tags, TagKey) && i < j < |tags|
    ensures |SortTags(tx, tags)| == |tags|
    ensures var a, b := SortTags(tx, tags)[i], SortTags(tx, tags)[j];
      || Below(tx.lower(a.name), tx.lower(b.name))
      || (tx.lower(a.name) == tx.lower(b.name) && Below(a.id, b.id))
  {
    var sorted, less := SortTags(tx, tags), (a: Tag, b: Tag) => TagBelow(tx, a, b);
    TagOrder(tx);
    SortSorted(tags, less);
    MultisetMembers(sorted, tags);
    PermutedDistinct(tags, sorted, TagKey);
    assert !less(sorted[j], sorted[i]) && TagKey(sorted[i]) != TagKey(sorted[j]);
    BelowIsOrder();
  }

  /** In canonical order marks of the whole meeting come first; then marks go by where they start, where
      they end and their id. */
  lemma ItemsInOrder(items: seq<Item>, i: nat, j: nat)
    requires Distinct(items, ItemKey) && i < j < |items|
    ensures |SortItems(items)| == |items|
    ensures var a, b := SortItems(items)[i], SortItems(items)[j];
      var at := (t: Option<Int64>) => if t.Some? then t.value else 0;
      var start, start', end, end' := at(a.target.start), at(b.target.start), at(a.target.end), at(b.target.end);
      || (a.target.kind == "meeting" && b.target.kind != "meeting")
      || ((a.target.kind == "meeting" <==> b.target.kind == "meeting")
          && (start < start' || (start == start' && (end < end' || (end == end' && Below(a.id, b.id))))))
  {
    var sorted := SortItems(items);
    ItemOrder();
    SortSorted(items, ItemBelow);
    MultisetMembers(sorted, items);
    PermutedDistinct(items, sorted, ItemKey);
    assert !ItemBelow(sorted[j], sorted[i]) && ItemKey(sorted[i]) != ItemKey(sorted[j]);
    BelowIsOrder();
  }
}
