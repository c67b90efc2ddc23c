/** What a batch of operations makes of a document, as functions on values. The object that works a
    batch out in place is proved against these functions in AnnotationEngine. */
module AnnotationOps {
  import opened Wrappers
  import opened Sequences
  import opened AnnotationDocument

  const EXIT_INVALID := 4
  const EXIT_UNRESOLVED := 5

  /** `Refused` carries the exit code; `NoRandomness` is a failing random source. */
  datatype Failure = Refused(code: int) | NoRandomness

  datatype OpTag = OpTag(id: string, name: Option<string>)

  datatype Op =
    | Mark(tag: Option<OpTag>, target: Option<Target>)
    | Unmark(itemId: string)
    | UnmarkTag(tagId: string, target: Option<Target>)
    | UndoOperation(operationId: string)
    | Relabel(tagId: string, name: Option<string>)
    | MergeTag(tagId: string, into: Option<OpTag>)
    | Restyle(tagId: string, color: Option<string>, icon: Option<string>)
    | SetTitle(title: Option<string>)
    | Unknown

  /** The ids the random source would answer while one operation runs. */
  datatype Mint = Mint(tag: Option<string>, item: Option<string>)
  datatype Stamp = Stamp(actor: Actor, operationId: string, createdAt: string)
  datatype TagStyle = TagStyle(name: string, color: string, icon: Option<string>)
  datatype Batch = Batch(ops: seq<Op>, styles: seq<TagStyle>, initial: map<string, Tag>)

  /** A batch together with everything else its outcome depends on. */
  datatype Request = Request(tx: Text, batch: Batch, duration: Int64, stamp: Stamp, mints: nat -> Mint)

  /** The part of a document that operations change, and the ids they could not find. */
  datatype Work = Work(tags: seq<Tag>, items: seq<Item>, meeting: Option<Meeting>, notFound: seq<string>)

  datatype Outcome = Outcome(
    doc: Annotations,
    changed: bool,
    added: seq<string>,
    removed: seq<string>,
    notFound: seq<string>
  )

  // ----- looking things up

  function TagAt(tags: seq<Tag>, id: string): (index: Option<nat>)
    ensures index.Some? <==> id in TagIds(tags)
    ensures index.Some? ==> index.value < |tags| && tags[index.value].id == id
    ensures index.Some? ==> forall k :: 0 <= k < index.value ==> tags[k].id != id
  {
    if tags == [] then None
    else
      assert tags == Init(tags) + [Last(tags)];
      var earlier := TagAt(Init(tags), id);
      if earlier.Some? then earlier
      else if Last(tags).id == id then Some(|tags| - 1)
      else None
  }

  /** The first tag whose label matches, as an id; "" when there is none. */
  function LabelMatch(tx: Text, tags: seq<Tag>, name: string): (id: string)
    ensures id != "" ==> exists t :: t in tags && t.id == id && tx.SameLabel(t.name, name)
  {
    if tags == [] then ""
    else if tx.SameLabel(tags[0].name, name) then tags[0].id
    else LabelMatch(tx, tags[1..], name)
  }

  /** The id that an id, or else a label, stands for; "" when it stands for none. An id that is given and
      not there stands for none even when its label is. */
  function FindTag(tx: Text, tags: seq<Tag>, id: string, name: Option<string>): string {
    if id != "" then (if id in TagIds(tags) then id else "")
    else if name.Some? then LabelMatch(tx, tags, name.value)
    else ""
  }

  predicate Covered(items: seq<Item>, tagId: string, target: Target) {
    exists i :: i in items && i.tagId == tagId && i.target == target
  }

  /** A label carried by an operation, trimmed and checked; absent stays absent. */
  function OpLabel(tx: Text, raw: Option<string>): Result<Option<string>, Failure> {
    if raw.None? then Ok(None)
    else if LabelOk(tx, tx.trim(raw.value)) then Ok(Some(tx.trim(raw.value)))
    else Err(Refused(EXIT_INVALID))
  }

  // ----- the eight operations

  function AddMark(w: Work, tagId: string, target: Target, stamp: Stamp, id: Option<string>): Result<Work, Failure> {
    if Covered(w.items, tagId, target) then Ok(w)
    else if id.None? then Err(NoRandomness)
    else Ok(w.(items := w.items + [Item(id.value, tagId, target, stamp.createdAt, stamp.actor, stamp.operationId)]))
  }

  function ApplyMark(tx: Text, w: Work, op: Op, duration: Int64, stamp: Stamp, mint: Mint): Result<Work, Failure>
    requires op.Mark?
  {
    if op.tag.None? || op.target.None? then Err(Refused(EXIT_INVALID))
    else
      var name :- OpLabel(tx, op.tag.value.name);
      var id, target := op.tag.value.id, op.target.value;
      if (id == "" && name.None?) || !TargetOk(target, duration) then Err(Refused(EXIT_INVALID))
      else
        var found := FindTag(tx, w.tags, id, name);
        if found != "" then AddMark(w, found, target, stamp, mint.item)
        else if name.None? then Err(Refused(EXIT_INVALID))
        else if id == "" && mint.tag.None? then Err(NoRandomness)
        else
          var defined := if id != "" then id else mint.tag.value;
          AddMark(w.(tags := w.tags + [Tag(defined, name.value, None, None)]), defined, target, stamp, mint.item)
  }

  /** Drops the marks that match and reports the id that was asked for when there were none. */
  function Remove(w: Work, keep: Item -> bool, asked: string): Work {
    var kept := Filter(w.items, keep);
    w.(items := kept, notFound := if |kept| == |w.items| then w.notFound + [asked] else w.notFound)
  }

  function OtherThanItem(id: string): Item -> bool {
    (i: Item) => i.id != id
  }

  /** Keeps the marks of other tags, and those on other targets when one is given. */
  function OtherThanMark(tagId: string, target: Option<Target>): Item -> bool {
    (i: Item) => !(i.tagId == tagId && (target.None? || i.target == target.value))
  }

  function OtherThanOperation(id: string): Item -> bool {
    (i: Item) => i.operationId != id
  }

  function ApplyUnmark(w: Work, op: Op): Result<Work, Failure>
    requires op.Unmark?
  {
    if op.itemId == "" then Err(Refused(EXIT_INVALID))
    else Ok(Remove(w, OtherThanItem(op.itemId), op.itemId))
  }

  function ApplyUnmarkTag(w: Work, op: Op, duration: Int64): Result<Work, Failure>
    requires op.UnmarkTag?
  {
    if op.tagId == "" || (op.target.Some? && !TargetOk(op.target.value, duration)) then Err(Refused(EXIT_INVALID))
    else Ok(Remove(w, OtherThanMark(op.tagId, op.target), op.tagId))
  }

  function ApplyUndoOperation(w: Work, op: Op): Result<Work, Failure>
    requires op.UndoOperation?
  {
    if op.operationId == "" then Err(Refused(EXIT_INVALID))
    else Ok(Remove(w, OtherThanOperation(op.operationId), op.operationId))
  }

  /** Some other tag than `id` already has this label. */
  predicate LabelTaken(tx: Text, tags: seq<Tag>, id: string, name: string) {
    exists t :: t in tags && t.id != id && tx.SameLabel(t.name, name)
  }

  function ApplyRelabel(tx: Text, w: Work, op: Op): Result<Work, Failure>
    requires op.Relabel?
  {
    if op.tagId == "" || op.name.None? then Err(Refused(EXIT_INVALID))
    else
      var name :- OpLabel(tx, op.name);
      var at := TagAt(w.tags, op.tagId);
      if at.None? then Ok(w.(notFound := w.notFound + [op.tagId]))
      else if LabelTaken(tx, w.tags, op.tagId, name.value) then Err(Refused(EXIT_INVALID))
      else Ok(w.(tags := w.tags[at.value := w.tags[at.value].(name := name.value)]))
  }

  function ApplyRestyle(w: Work, op: Op): Result<Work, Failure>
    requires op.Restyle?
  {
    if op.tagId == "" || (op.color.None? && op.icon.None?)
       || (op.color.Some? && op.color.value !in TAG_COLORS) || (op.icon.Some? && op.icon.value !in TAG_ICONS)
    then Err(Refused(EXIT_INVALID))
    else
      var at := TagAt(w.tags, op.tagId);
      if at.None? then Ok(w.(notFound := w.notFound + [op.tagId]))
      else
        var tag := w.tags[at.value];
        Ok(w.(tags := w.tags[at.value := tag.(
          color := if op.color.Some? then op.color else tag.color,
          icon := if op.icon.Some? then op.icon else tag.icon)]))
  }

  /** Marks of `source` move to `into`; one whose target is covered already is dropped. */
  function MergeItems(items: seq<Item>, source: string, into: string, covered: set<Target>): seq<Item> {
    if items == [] then []
    else if items[0].tagId != source then [items[0]] + MergeItems(items[1..], source, into, covered)
    else if items[0].target in covered then MergeItems(items[1..], source, into, covered)
    else [items[0].(tagId := into)] + MergeItems(items[1..], source, into, covered + {items[0].target})
  }

  /** The targets marked with a tag. */
  function Targets(items: seq<Item>, tagId: string): set<Target> {
    if items == [] then {}
    else (if items[0].tagId == tagId then {items[0].target} else {}) + Targets(items[1..], tagId)
  }

  function ApplyMerge(tx: Text, w: Work, op: Op): Result<Work, Failure>
    requires op.MergeTag?
  {
    if op.tagId == "" || op.into.None? || op.into.value.id == "" then Err(Refused(EXIT_INVALID))
    else
      var name :- OpLabel(tx, op.into.value.name);
      var into := op.into.value.id;
      if name.None? || into == op.tagId then Err(Refused(EXIT_INVALID))
      else if op.tagId !in TagIds(w.tags) then Ok(w.(notFound := w.notFound + [op.tagId]))
      else if into !in TagIds(w.tags) && LabelTaken(tx, w.tags, op.tagId, name.value) then Err(Refused(EXIT_INVALID))
      else
        Ok(w.(
          tags := if into in TagIds(w.tags) then w.tags else w.tags + [Tag(into, name.value, None, None)],
          items := MergeItems(w.items, op.tagId, into, Targets(w.items, into))))
  }

  function ApplySetTitle(tx: Text, w: Work, op: Op, stamp: Stamp): Result<Work, Failure>
    requires op.SetTitle?
  {
    var title := if op.title.Some? then tx.trim(op.title.value) else "";
    if title == "" then Ok(w.(meeting := None))
    else if !TitleOk(tx, title) then Err(Refused(EXIT_INVALID))
    else if w.meeting.Some? && w.meeting.value.title == title then Ok(w)
    else Ok(w.(meeting := Some(Meeting(title, stamp.createdAt, stamp.actor))))
  }

  function ApplyOp(r: Request, w: Work, n: nat): Result<Work, Failure>
    requires n < |r.batch.ops|
  {
    var op := r.batch.ops[n];
    match op
    case Mark(_, _) => ApplyMark(r.tx, w, op, r.duration, r.stamp, r.mints(n))
    case Unmark(_) => ApplyUnmark(w, op)
    case UnmarkTag(_, _) => ApplyUnmarkTag(w, op, r.duration)
    case UndoOperation(_) => ApplyUndoOperation(w, op)
    case Relabel(_, _) => ApplyRelabel(r.tx, w, op)
    case MergeTag(_, _) => ApplyMerge(r.tx, w, op)
    case Restyle(_, _, _) => ApplyRestyle(w, op)
    case SetTitle(_) => ApplySetTitle(r.tx, w, op, r.stamp)
    case Unknown => Err(Refused(EXIT_INVALID))
  }

  // ----- appearance of tags a batch creates

  /** Gives each tag the batch created its trusted starting appearance, once. */
  function Initialize(tags: seq<Tag>, initial: map<string, Tag>, existing: set<string>,
                      seen: set<string>): (r: (seq<Tag>, set<string>))
    ensures |r.0| == |tags|
  {
    if tags == [] then ([], seen)
    else
      var (before, seen') := Initialize(Init(tags), initial, existing, seen);
      var t := Last(tags);
      if t.id in initial && t.id !in existing && t.id !in seen' then
        (before + [t.(color := initial[t.id].color, icon := initial[t.id].icon)], seen' + {t.id})
      else (before + [t], seen')
  }

  predicate StyleApplies(tx: Text, t: Tag, style: TagStyle, initial: map<string, Tag>, existing: set<string>) {
    t.id !in existing && t.id !in initial && tx.SameLabel(t.name, style.name)
  }

  /** The appearance the last matching style gives a tag; a style without an icon clears it. */
  function Styled(tx: Text, t: Tag, styles: seq<TagStyle>, initial: map<string, Tag>, existing: set<string>): (s: Tag)
    ensures s.id == t.id && s.name == t.name
  {
    if styles == [] then t
    else
      var s := Styled(tx, t, Init(styles), initial, existing);
      var style := Last(styles);
      if !StyleApplies(tx, t, style, initial, existing) then s
      else s.(color := Some(style.color), icon := Some(if style.icon.Some? then style.icon.value else ""))
  }

  function StyledTags(tx: Text, tags: seq<Tag>, styles: seq<TagStyle>, initial: map<string, Tag>,
                      existing: set<string>): seq<Tag> {
    seq(|tags|, n requires 0 <= n < |tags| => Styled(tx, tags[n], styles, initial, existing))
  }

  // ----- a whole batch

  /** Work in progress, and the tags whose starting appearance has been given. */
  datatype Progress = Progress(work: Work, seen: set<string>)

  /** One operation, then the starting appearance of any tag it created. */
  function Advance(r: Request, p: Progress, existing: set<string>, n: nat): Result<Progress, Failure>
    requires n < |r.batch.ops|
  {
    var w :- ApplyOp(r, p.work, n);
    var (tags, seen) := Initialize(w.tags, r.batch.initial, existing, p.seen);
    Ok(Progress(w.(tags := tags), seen))
  }

  /** The first n steps from a start; the first error ends it. */
  function Iterate<S, E>(start: S, step: (S, nat) -> Result<S, E>, n: nat): Result<S, E> {
    if n == 0 then Ok(start)
    else
      var s :- Iterate(start, step, n - 1);
      step(s, n - 1)
  }

  /** What every step keeps holds after any number of steps. */
  lemma {:induction false} IterateKeeps<S(!new), E>(start: S, step: (S, nat) -> Result<S, E>, n: nat,
                                                    keeps: (S, nat) -> bool)
    requires keeps(start, 0)
    requires forall s, k: nat :: k < n && keeps(s, k) && step(s, k).Ok? ==> keeps(step(s, k).value, k + 1)
    ensures Iterate(start, step, n).Ok? ==> keeps(Iterate(start, step, n).value, n)
  {
    if n > 0 {
      IterateKeeps(start, step, n - 1, keeps);
    }
  }

  /** Where no step fails, the whole iteration succeeds. */
  lemma {:induction false} IterateSucceeds<S(!new), E>(start: S, step: (S, nat) -> Result<S, E>, n: nat,
                                                       keeps: S -> bool)
    requires keeps(start)
    requires forall s, k: nat :: k < n && keeps(s) ==> step(s, k).Ok? && keeps(step(s, k).value)
    ensures Iterate(start, step, n).Ok? && keeps(Iterate(start, step, n).value)
  {
    if n > 0 {
      IterateSucceeds(start, step, n - 1, keeps);
    }
  }

  /** Operation after operation, as a step function. */
  function Steps(r: Request, existing: set<string>): (Progress, nat) -> Result<Progress, Failure> {
    (p: Progress, k: nat) => if k < |r.batch.ops| then Advance(r, p, existing, k) else Ok(p)
  }

  function RunOps(r: Request, start: Work, existing: set<string>, n: nat): Result<Progress, Failure> {
    Iterate(Progress(start, {}), Steps(r, existing), n)
  }

  function DropUnused(tags: seq<Tag>, items: seq<Item>): seq<Tag> {
    Filter(tags, IdIn(UsedIds(items)))
  }

  function IdIn(ids: set<string>): Tag -> bool {
    (t: Tag) => t.id in ids
  }

  /** The ids of `to` that `from` lacks, in the order of `to`. */
  function NewIds(from: seq<Item>, to: seq<Item>): seq<string> {
    if to == [] then []
    else NewIds(from, Init(to)) + if exists i :: i in from && i.id == Last(to).id then [] else [Last(to).id]
  }

  function Unique(xs: seq<string>): seq<string> {
    if xs == [] then []
    else Unique(Init(xs)) + if Last(xs) in Init(xs) then [] else [Last(xs)]
  }

  function Base(current: Option<Annotations>): Annotations {
    if current.None? then EMPTY else current.value
  }

  function Start(a: Annotations): Work {
    Work(a.tags, a.items, a.meeting, [])
  }

  /** The document a batch leaves: styled, without unused tags, in canonical order. */
  function Finish(r: Request, base: Annotations, w: Work): Annotations {
    var tags := StyledTags(r.tx, w.tags, r.batch.styles, r.batch.initial, TagIds(base.tags));
    Canonical(r.tx, base.(tags := DropUnused(tags, w.items), items := w.items, meeting := w.meeting))
  }

  function ApplyBatch(current: Option<Annotations>, r: Request): Result<Outcome, Failure> {
    var base := Base(current);
    var p :- RunOps(r, Start(base), TagIds(base.tags), |r.batch.ops|);
    var before, doc := Canonical(r.tx, base), Finish(r, base, p.work);
    Ok(Outcome(
      doc,
      before.tags != doc.tags || before.items != doc.items || before.meeting != doc.meeting,
      NewIds(before.items, doc.items),
      NewIds(doc.items, before.items),
      Unique(p.work.notFound)))
  }

  // ----- one batch as the next revision

  predicate Unresolved(tx: Text, current: Option<Annotations>, audio: string) {
    current.Some? && current.value.items != [] && !Resolved(tx, current.value, audio)
  }

  /** Two's complement increment. */
  function NextRevision(n: Int64): Int64 {
    if n == MAX_INT64 then MIN_INT64 else n + 1
  }

  /** The recording a batch is applied against: audio digest, its length, the namespace to use for a
      new document and the one a random source would answer. */
  datatype Recording = Recording(audio: string, duration: Int64, namespace: string, minted: Option<string>)

  /** The namespace of the next revision: a set one never changes, a missing one is minted. */
  function Namespace(current: Option<Annotations>, rec: Recording): Option<string> {
    var given := if current.Some? then current.value.namespace else rec.namespace;
    if given == "" then rec.minted else Some(given)
  }

  /** The next revision: bound to this audio unless it keeps marks made against another one. */
  function NextDocument(tx: Text, current: Option<Annotations>, doc: Annotations, rec: Recording,
                        namespace: string): Annotations {
    doc.(
      format := FORMAT_V1,
      revision := if current.Some? then NextRevision(current.value.revision) else 1,
      audio := if Unresolved(tx, current, rec.audio) && doc.items != [] then current.value.audio else rec.audio,
      namespace := namespace)
  }

  /** The length that bounds the time ranges of a batch. */
  function Bound(tx: Text, current: Option<Annotations>, rec: Recording): Int64 {
    if Unresolved(tx, current, rec.audio) then MAX_INT64 else rec.duration
  }

  predicate Marks(b: Batch) {
    exists op :: op in b.ops && op.Mark?
  }

  ghost function MutateBatch(current: Option<Annotations>, r: Request, rec: Recording): Result<Outcome, Failure> {
    if Unresolved(r.tx, current, rec.audio) && Marks(r.batch) then Err(Refused(EXIT_UNRESOLVED))
    else
      var bound := Bound(r.tx, current, rec);
      var outcome :- ApplyBatch(current, r.(duration := bound));
      if !outcome.changed then Ok(outcome)
      else if Namespace(current, rec).None? then Err(NoRandomness)
      else
        var doc := NextDocument(r.tx, current, outcome.doc, rec, Namespace(current, rec).value);
        if Valid(r.tx, doc, bound) then Ok(outcome.(doc := doc)) else Err(Refused(EXIT_INVALID))
  }
}
