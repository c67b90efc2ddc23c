/** One batch as the next revision: what it keeps well formed, and what the final check can still refuse. */
module AnnotationMutation {
  import opened Wrappers
  import opened Sequences
  import opened AnnotationDocument
  import opened AnnotationOps
  import opened AnnotationMerge
  import opened AnnotationInvariants

  // ----- what the caller supplies

  /** Facts about the library text functions: the palette is UTF-8, a digest is its own compared
      form and not empty, and the empty string is no namespace. */
  ghost predicate TextOk(tx: Text) {
    && (forall s :: s in TAG_COLORS || s in TAG_ICONS ==> tx.utf8(s))
    && (forall s :: tx.isDigest(s) ==> s != "" && Digest(tx, s) == s)
    && !tx.isNamespace("")
  }

  predicate StampOk(tx: Text, s: Stamp) {
    tx.isTime(s.createdAt) && ActorOk(tx, s.actor) && tx.isId(s.operationId)
  }

  ghost predicate MintOk(tx: Text, m: Mint) {
    (m.tag.Some? ==> tx.isId(m.tag.value)) && (m.item.Some? ==> tx.isId(m.item.value))
  }

  /** Ids, stamp and appearance values that a caller or the random source supplies are well formed. */
  ghost predicate InputsOk(r: Request) {
    && TextOk(r.tx) && StampOk(r.tx, r.stamp)
    && (forall op, id :: op in r.batch.ops && id in NamedBy(op) ==> id == "" || r.tx.isId(id))
    && (forall n :: 0 <= n < |r.batch.ops| ==> MintOk(r.tx, r.mints(n)))
    && (forall s :: s in r.batch.styles ==> r.tx.utf8(s.color) && StyleOk(r.tx, s.icon))
    && (forall id :: id in r.batch.initial ==>
      StyleOk(r.tx, r.batch.initial[id].color) && StyleOk(r.tx, r.batch.initial[id].icon))
  }

  // ----- the rest of the check, kept by every operation

  predicate ItemFormOk(tx: Text, i: Item) {
    tx.isId(i.id) && tx.isTime(i.createdAt) && ActorOk(tx, i.actor) && tx.isId(i.operationId)
  }

  ghost predicate WellFormed(tx: Text, tags: seq<Tag>, items: seq<Item>, meeting: Option<Meeting>) {
    && (forall t :: t in tags ==> TagOk(tx, t))
    && (forall i :: i in items ==> ItemFormOk(tx, i))
    && (meeting.Some? ==> MeetingOk(tx, meeting.value))
  }

  lemma ContentSplits(tx: Text, tags: seq<Tag>, items: seq<Item>, meeting: Option<Meeting>, duration: Int64)
    ensures ContentOk(tx, tags, items, meeting, duration)
      <==> Consistent(tags, items, duration) && WellFormed(tx, tags, items, meeting)
  {
  }

  lemma MarkWellFormed(r: Request, w: Work, n: nat)
    requires n < |r.batch.ops| && r.batch.ops[n].Mark? && ApplyOp(r, w, n).Ok? && InputsOk(r)
    requires WellFormed(r.tx, w.tags, w.items, w.meeting)
    ensures var w' := ApplyOp(r, w, n).value; WellFormed(r.tx, w'.tags, w'.items, w'.meeting)
  {
    var op := r.batch.ops[n];
    assert op in r.batch.ops && op.tag.value.id in NamedBy(op);
    assert MintOk(r.tx, r.mints(n));
  }

  lemma MergeWellFormed(tx: Text, w: Work, op: Op)
    requires op.MergeTag? && ApplyMerge(tx, w, op).Ok? && tx.isId(op.into.value.id)
    requires WellFormed(tx, w.tags, w.items, w.meeting)
    ensures var w' := ApplyMerge(tx, w, op).value; WellFormed(tx, w'.tags, w'.items, w'.meeting)
  {
    if op.tagId in TagIds(w.tags) {
      var source, into := op.tagId, op.into.value.id;
      MergeMembers(w.items, source, into, Targets(w.items, into));
      forall m | m in ApplyMerge(tx, w, op).value.items ensures ItemFormOk(tx, m) {
        assert FromItem(w.items, m, source, into);
      }
    }
  }

  lemma RemoveWellFormed(tx: Text, w: Work, keep: Item -> bool, asked: string)
    requires WellFormed(tx, w.tags, w.items, w.meeting)
    ensures WellFormed(tx, w.tags, Remove(w, keep, asked).items, w.meeting)
  {
    FilterMembers(w.items, keep);
  }

  lemma UpdateWellFormed(tx: Text, tags: seq<Tag>, k: nat, t: Tag)
    requires k < |tags| && TagOk(tx, t) && forall x :: x in tags ==> TagOk(tx, x)
    ensures forall x :: x in tags[k := t] ==> TagOk(tx, x)
  {
  }

  lemma OpWellFormed(r: Request, w: Work, n: nat)
    requires n < |r.batch.ops| && ApplyOp(r, w, n).Ok? && InputsOk(r)
    requires WellFormed(r.tx, w.tags, w.items, w.meeting)
    ensures var w' := ApplyOp(r, w, n).value; WellFormed(r.tx, w'.tags, w'.items, w'.meeting)
  {
    var op, w' := r.batch.ops[n], ApplyOp(r, w, n).value;
    assert op in r.batch.ops;
    match op
    case Mark(_, _) => MarkWellFormed(r, w, n);
    case Unmark(itemId) => RemoveWellFormed(r.tx, w, OtherThanItem(op.itemId), itemId);
    case UnmarkTag(tagId, target) =>
      RemoveWellFormed(r.tx, w, OtherThanMark(op.tagId, op.target), tagId);
    case UndoOperation(id) => RemoveWellFormed(r.tx, w, OtherThanOperation(op.operationId), id);
    case Relabel(tagId, _) =>
      if TagAt(w.tags, tagId).Some? {
        var k := TagAt(w.tags, tagId).value;
        assert w.tags[k] in w.tags;
        UpdateWellFormed(r.tx, w.tags, k, w'.tags[k]);
      }
    case MergeTag(_, into) =>
      assert into.value.id in NamedBy(op);
      MergeWellFormed(r.tx, w, op);
    case Restyle(tagId, _, _) =>
      if TagAt(w.tags, tagId).Some? {
        var k := TagAt(w.tags, tagId).value;
        assert w.tags[k] in w.tags;
        UpdateWellFormed(r.tx, w.tags, k, w'.tags[k]);
      }
    case SetTitle(_) =>
  }

  lemma {:induction false} InitializeWellFormed(r: Request, tags: seq<Tag>, existing: set<string>, seen: set<string>)
    requires InputsOk(r) && forall t :: t in tags ==> TagOk(r.tx, t)
    ensures forall t :: t in Initialize(tags, r.batch.initial, existing, seen).0 ==> TagOk(r.tx, t)
  {
    if tags != [] {
      assert Last(tags) in tags && forall t :: t in Init(tags) ==> t in tags;
      InitializeWellFormed(r, Init(tags), existing, seen);
    }
  }

  lemma {:induction false} StyledWellFormed(r: Request, t: Tag, styles: seq<TagStyle>, existing: set<string>)
    requires InputsOk(r) && TagOk(r.tx, t) && forall s :: s in styles ==> s in r.batch.styles
    ensures TagOk(r.tx, Styled(r.tx, t, styles, r.batch.initial, existing))
  {
    if styles != [] {
      assert Last(styles) in styles && forall s :: s in Init(styles) ==> s in styles;
      StyledWellFormed(r, t, Init(styles), existing);
      assert r.tx.utf8("") by { assert "" in TAG_ICONS; }
    }
  }

  lemma AdvanceWellFormed(r: Request, p: Progress, existing: set<string>, n: nat)
    requires n < |r.batch.ops| && InputsOk(r) && WellFormed(r.tx, p.work.tags, p.work.items, p.work.meeting)
    requires Advance(r, p, existing, n).Ok?
    ensures var w := Advance(r, p, existing, n).value.work; WellFormed(r.tx, w.tags, w.items, w.meeting)
  {
    OpWellFormed(r, p.work, n);
    InitializeWellFormed(r, ApplyOp(r, p.work, n).value.tags, existing, p.seen);
  }

  lemma RunWellFormed(base: Annotations, r: Request, n: nat)
    requires n <= |r.batch.ops| && InputsOk(r) && WellFormed(r.tx, base.tags, base.items, base.meeting)
    requires RunOps(r, Start(base), TagIds(base.tags), n).Ok?
    ensures var w := RunOps(r, Start(base), TagIds(base.tags), n).value.work;
      WellFormed(r.tx, w.tags, w.items, w.meeting)
  {
    var step := Steps(r, TagIds(base.tags));
    var keeps := (p: Progress, k: nat) => WellFormed(r.tx, p.work.tags, p.work.items, p.work.meeting);
    forall p, k: nat | k < n && keeps(p, k) && step(p, k).Ok? ensures keeps(step(p, k).value, k + 1) {
      AdvanceWellFormed(r, p, TagIds(base.tags), k);
    }
    IterateKeeps(Progress(Start(base), {}), step, n, keeps);
  }

  lemma BatchWellFormed(current: Option<Annotations>, r: Request)
    requires ApplyBatch(current, r).Ok? && InputsOk(r)
    requires WellFormed(r.tx, Base(current).tags, Base(current).items, Base(current).meeting)
    ensures var doc := ApplyBatch(current, r).value.doc;
      WellFormed(r.tx, doc.tags, doc.items, doc.meeting)
  {
    var base := Base(current);
    RunWellFormed(base, r, |r.batch.ops|);
    var w := RunOps(r, Start(base), TagIds(base.tags), |r.batch.ops|).value.work;
    var tags := StyledTags(r.tx, w.tags, r.batch.styles, r.batch.initial, TagIds(base.tags));
    forall t | t in tags ensures TagOk(r.tx, t) {
      var k :| 0 <= k < |tags| && tags[k] == t;
      assert w.tags[k] in w.tags;
      StyledWellFormed(r, w.tags[k], r.batch.styles, TagIds(base.tags));
    }
    FilterMembers(tags, IdIn(UsedIds(w.items)));
    MultisetMembers(SortTags(r.tx, DropUnused(tags, w.items)), DropUnused(tags, w.items));
    MultisetMembers(SortItems(w.items), w.items);
  }

  // ----- the final check

  ghost predicate RecordingOk(tx: Text, current: Option<Annotations>, rec: Recording) {
    && tx.isDigest(rec.audio)
    && (rec.minted.Some? ==> tx.isNamespace(rec.minted.value))
    && (current.None? ==> (if rec.namespace == "" then rec.minted.Some? else tx.isNamespace(rec.namespace)))
  }

  lemma BoundedRequest(base: Annotations, r: Request, duration: Int64)
    requires InputsOk(r) && FreshMints(base, r)
    ensures InputsOk(r.(duration := duration)) && FreshMints(base, r.(duration := duration))
  {
    var bounded := r.(duration := duration);
    forall n | 0 <= n < |r.batch.ops|
      ensures MintOk(r.tx, bounded.mints(n)) && FreshTag(base, bounded, n) && FreshItem(base, bounded, n)
    {
      assert MintOk(r.tx, r.mints(n)) && FreshTag(base, r, n) && FreshItem(base, r, n);
    }
  }

  lemma HeadFollows(tx: Text, current: Option<Annotations>, doc: Annotations, rec: Recording)
    requires TextOk(tx) && RecordingOk(tx, current, rec)
    requires current.Some? ==> HeadOk(tx, current.value)
    ensures Namespace(current, rec).Some?
    ensures HeadOk(tx, NextDocument(tx, current, doc, rec, Namespace(current, rec).value)) <==>
      |doc.tags| <= 200 && |doc.items| <= 2000 && (current.Some? ==> current.value.revision < MAX_INT64)
  {
  }

  /** From a valid document, with well-formed input, a batch that changes something is refused by the
      final check exactly when it has too many tags or marks, or the revision runs out of 64 bits. */
  lemma FinalCheck(current: Option<Annotations>, r: Request, rec: Recording)
    requires current.Some? ==> Valid(r.tx, current.value, Bound(r.tx, current, rec))
    requires InputsOk(r) && RecordingOk(r.tx, current, rec) && FreshMints(Base(current), r)
    requires !(Unresolved(r.tx, current, rec.audio) && Marks(r.batch))
    requires var o := ApplyBatch(current, r.(duration := Bound(r.tx, current, rec))); o.Ok? && o.value.changed
    ensures var doc := ApplyBatch(current, r.(duration := Bound(r.tx, current, rec))).value.doc;
      MutateBatch(current, r, rec).Ok? <==>
        |doc.tags| <= 200 && |doc.items| <= 2000 && (current.Some? ==> current.value.revision < MAX_INT64)
  {
    var bounded := r.(duration := Bound(r.tx, current, rec));
    var base := Base(current);
    ContentSplits(r.tx, base.tags, base.items, base.meeting, bounded.duration);
    BoundedRequest(base, r, bounded.duration);
    BatchKeepsConsistent(current, bounded);
    BatchWellFormed(current, bounded);
    var doc := ApplyBatch(current, bounded).value.doc;
    ContentSplits(r.tx, doc.tags, doc.items, doc.meeting, bounded.duration);
    HeadFollows(r.tx, current, doc, rec);
  }
}
