/** What every successful batch keeps: unique ids, marks that name tags of the document, targets
    inside the recording, and no two marks that say the same thing. */
module AnnotationInvariants {
  import opened Wrappers
  import opened Sequences
  import opened AnnotationDocument
  import opened AnnotationOps
  import opened AnnotationMerge

  ghost predicate Consistent(tags: seq<Tag>, items: seq<Item>, duration: Int64) {
    WellLinked(tags, items) && forall i :: i in items ==> TargetOk(i.target, duration)
  }

  /** No two marks say the same thing. */
  ghost predicate NoRepeats(items: seq<Item>) {
    Distinct(items, MarkKey)
  }

  // ----- fresh ids

  /** The tag id an operation brings in by name. */
  function NamedBy(op: Op): set<string> {
    match op
    case Mark(Some(tag), _) => {tag.id}
    case MergeTag(_, Some(into)) => {into.id}
    case _ => {}
  }

  ghost predicate MintedTag(r: Request, n: nat, id: string) {
    exists m :: 0 <= m < n && r.mints(m).tag == Some(id)
  }

  ghost predicate MintedItem(r: Request, n: nat, id: string) {
    exists m :: 0 <= m < n && r.mints(m).item == Some(id)
  }

  ghost predicate FreshTag(base: Annotations, r: Request, n: nat) {
    r.mints(n).tag.Some? ==>
      var id := r.mints(n).tag.value;
      && id != "" && id !in TagIds(base.tags) && id !in UsedIds(base.items) && !MintedTag(r, n, id)
      && forall op :: op in r.batch.ops ==> id !in NamedBy(op)
  }

  ghost predicate FreshItem(base: Annotations, r: Request, n: nat) {
    r.mints(n).item.Some? ==>
      var id := r.mints(n).item.value;
      id !in ItemIds(base.items) && !MintedItem(r, n, id)
  }

  /** What 128 random bits stand for: ids nobody has used, here or in the request. */
  ghost predicate FreshMints(base: Annotations, r: Request) {
    forall n :: 0 <= n < |r.batch.ops| ==> FreshTag(base, r, n) && FreshItem(base, r, n)
  }

  // ----- tags that keep their identity

  /** The same tags up to label and appearance. */
  ghost predicate SameIds(tags: seq<Tag>, tags': seq<Tag>) {
    |tags| == |tags'| && forall k :: 0 <= k < |tags| ==> tags[k].id == tags'[k].id
  }

  lemma SameIdsKeeps(tags: seq<Tag>, tags': seq<Tag>)
    requires SameIds(tags, tags')
    ensures TagIds(tags') == TagIds(tags)
    ensures Distinct(tags, TagKey) ==> Distinct(tags', TagKey)
  {
    forall id ensures id in TagIds(tags') <==> id in TagIds(tags) {
      if id in TagIds(tags') {
        var k :| 0 <= k < |tags'| && tags'[k].id == id;
        assert tags[k] in tags;
      }
      if id in TagIds(tags) {
        var k :| 0 <= k < |tags| && tags[k].id == id;
        assert tags'[k] in tags';
      }
    }
    if Distinct(tags, TagKey) {
      forall i, j | 0 <= i < j < |tags'| ensures TagKey(tags'[i]) != TagKey(tags'[j]) {
        assert TagKey(tags[i]) != TagKey(tags[j]);
      }
    }
  }

  lemma {:induction false} InitializeKeeps(tags: seq<Tag>, initial: map<string, Tag>, existing: set<string>,
                                           seen: set<string>)
    ensures SameIds(tags, Initialize(tags, initial, existing, seen).0)
  {
    if tags != [] {
      InitializeKeeps(Init(tags), initial, existing, seen);
    }
  }

  // ----- each operation

  lemma RemoveKeeps(w: Work, keep: Item -> bool, asked: string, duration: Int64)
    requires Consistent(w.tags, w.items, duration)
    ensures var w' := Remove(w, keep, asked);
      && Consistent(w'.tags, w'.items, duration) && ItemIds(w'.items) <= ItemIds(w.items)
      && (NoRepeats(w.items) ==> NoRepeats(w'.items))
  {
    FilterMembers(w.items, keep);
    FilterDistinct(w.items, keep, ItemKey);
    if NoRepeats(w.items) {
      FilterDistinct(w.items, keep, MarkKey);
    }
  }

  lemma AddMarkKeeps(w: Work, tagId: string, target: Target, stamp: Stamp, id: Option<string>, duration: Int64)
    requires Consistent(w.tags, w.items, duration) && tagId in TagIds(w.tags) && TargetOk(target, duration)
    requires AddMark(w, tagId, target, stamp, id).Ok?
    requires id.Some? ==> id.value !in ItemIds(w.items)
    ensures var w' := AddMark(w, tagId, target, stamp, id).value;
      && Consistent(w'.tags, w'.items, duration)
        && (forall x :: x in ItemIds(w'.items) ==> x in ItemIds(w.items) || Some(x) == id)
      && (NoRepeats(w.items) ==> NoRepeats(w'.items))
  {
    if !Covered(w.items, tagId, target) {
      var item := Item(id.value, tagId, target, stamp.createdAt, stamp.actor, stamp.operationId);
      DistinctSnoc(w.items, item, ItemKey);
      DistinctSnoc(w.items, item, MarkKey);
    }
  }

  lemma DefineKeeps(w: Work, t: Tag, duration: Int64)
    requires Consistent(w.tags, w.items, duration) && t.id !in TagIds(w.tags)
    ensures Consistent(w.tags + [t], w.items, duration)
  {
    DistinctSnoc(w.tags, t, TagKey);
    TagIdsSnoc(w.tags, t);
  }

  lemma MarkKeeps(tx: Text, w: Work, op: Op, duration: Int64, stamp: Stamp, mint: Mint)
    requires op.Mark? && Consistent(w.tags, w.items, duration) && ApplyMark(tx, w, op, duration, stamp, mint).Ok?
    requires mint.tag.Some? ==> mint.tag.value !in TagIds(w.tags)
    requires mint.item.Some? ==> mint.item.value !in ItemIds(w.items)
    ensures var w' := ApplyMark(tx, w, op, duration, stamp, mint).value;
      && Consistent(w'.tags, w'.items, duration)
      && (forall x :: x in TagIds(w'.tags) ==> x in TagIds(w.tags) || x in NamedBy(op) || Some(x) == mint.tag)
      && (forall x :: x in ItemIds(w'.items) ==> x in ItemIds(w.items) || Some(x) == mint.item)
      && (NoRepeats(w.items) ==> NoRepeats(w'.items))
  {
    var name := OpLabel(tx, op.tag.value.name).value;
    var id, target := op.tag.value.id, op.target.value;
    var found := FindTag(tx, w.tags, id, name);
    if found != "" {
      AddMarkKeeps(w, found, target, stamp, mint.item, duration);
    } else {
      var t := Tag(if id != "" then id else mint.tag.value, name.value, None, None);
      DefineKeeps(w, t, duration);
      TagIdsSnoc(w.tags, t);
      AddMarkKeeps(w.(tags := w.tags + [t]), t.id, target, stamp, mint.item, duration);
    }
  }

  lemma MergeKeeps(tx: Text, w: Work, op: Op, duration: Int64)
    requires op.MergeTag? && Consistent(w.tags, w.items, duration) && ApplyMerge(tx, w, op).Ok?
    ensures var w' := ApplyMerge(tx, w, op).value;
      && Consistent(w'.tags, w'.items, duration)
      && TagIds(w'.tags) <= TagIds(w.tags) + NamedBy(op)
      && ItemIds(w'.items) <= ItemIds(w.items)
      && (NoRepeats(w.items) ==> NoRepeats(w'.items))
  {
    if op.tagId in TagIds(w.tags) {
      var source, into := op.tagId, op.into.value.id;
      var covered := Targets(w.items, into);
      var t := Tag(into, OpLabel(tx, op.into.value.name).value.value, None, None);
      if into !in TagIds(w.tags) {
        DefineKeeps(w, t, duration);
        TagIdsSnoc(w.tags, t);
      }
      MergeDistinctIds(w.items, source, into, covered);
      if NoRepeats(w.items) {
        MergeDistinctMarks(w.items, source, into, covered);
      }
      MergeMembers(w.items, source, into, covered);
      var w' := ApplyMerge(tx, w, op).value;
      forall m | m in w'.items
        ensures m.tagId in TagIds(w'.tags) && TargetOk(m.target, duration) && m.id in ItemIds(w.items)
      {
        assert FromItem(w.items, m, source, into);
      }
    }
  }

  lemma RetagKeeps(w: Work, w': Work, duration: Int64)
    requires Consistent(w.tags, w.items, duration) && SameIds(w.tags, w'.tags) && w'.items == w.items
    ensures Consistent(w'.tags, w'.items, duration) && TagIds(w'.tags) == TagIds(w.tags)
  {
    SameIdsKeeps(w.tags, w'.tags);
  }

  /** Each of the eight operations keeps a consistent document consistent. */
  lemma OpKeeps(r: Request, w: Work, n: nat)
    requires n < |r.batch.ops| && ApplyOp(r, w, n).Ok? && Consistent(w.tags, w.items, r.duration)
    requires r.mints(n).tag.Some? ==> r.mints(n).tag.value !in TagIds(w.tags)
    requires r.mints(n).item.Some? ==> r.mints(n).item.value !in ItemIds(w.items)
    ensures var w' := ApplyOp(r, w, n).value;
      && Consistent(w'.tags, w'.items, r.duration)
      && (forall x :: x in TagIds(w'.tags) ==>
        x in TagIds(w.tags) || x in NamedBy(r.batch.ops[n]) || Some(x) == r.mints(n).tag)
      && (forall x :: x in ItemIds(w'.items) ==> x in ItemIds(w.items) || Some(x) == r.mints(n).item)
      && (NoRepeats(w.items) ==> NoRepeats(w'.items))
  {
    hide ApplyMark, ApplyMerge, Filter, LabelOk, LabelTaken, TitleOk;
    var op := r.batch.ops[n];
    match op
    case Mark(_, _) => MarkKeeps(r.tx, w, op, r.duration, r.stamp, r.mints(n));
    case Unmark(itemId) => RemoveKeeps(w, OtherThanItem(op.itemId), itemId, r.duration);
    case UnmarkTag(tagId, target) =>
      RemoveKeeps(w, OtherThanMark(op.tagId, op.target), tagId, r.duration);
    case UndoOperation(id) => RemoveKeeps(w, OtherThanOperation(op.operationId), id, r.duration);
    case Relabel(_, _) => RetagKeeps(w, ApplyOp(r, w, n).value, r.duration);
    case MergeTag(_, _) => MergeKeeps(r.tx, w, op, r.duration);
    case Restyle(_, _, _) => RetagKeeps(w, ApplyOp(r, w, n).value, r.duration);
    case SetTitle(_) =>
  }

  // ----- a whole batch

  /** Tags present after n operations: those of the document, those the batch names, those minted. */
  ghost predicate KnownTags(base: Annotations, r: Request, tags: seq<Tag>, n: nat)
    requires n <= |r.batch.ops|
  {
    forall x :: x in TagIds(tags) ==>
      x in TagIds(base.tags) || (exists op :: op in r.batch.ops && x in NamedBy(op)) || MintedTag(r, n, x)
  }

  ghost predicate KnownItems(base: Annotations, r: Request, items: seq<Item>, n: nat) {
    forall x :: x in ItemIds(items) ==> x in ItemIds(base.items) || MintedItem(r, n, x)
  }

  lemma KnownTagsFresh(base: Annotations, r: Request, tags: seq<Tag>, n: nat)
    requires n < |r.batch.ops| && KnownTags(base, r, tags, n) && FreshMints(base, r)
    ensures r.mints(n).tag.Some? ==> r.mints(n).tag.value !in TagIds(tags)
  {
    assert FreshTag(base, r, n);
  }

  lemma KnownItemsFresh(base: Annotations, r: Request, items: seq<Item>, n: nat)
    requires n < |r.batch.ops| && KnownItems(base, r, items, n) && FreshMints(base, r)
    ensures r.mints(n).item.Some? ==> r.mints(n).item.value !in ItemIds(items)
  {
    assert FreshItem(base, r, n);
  }

  lemma KnownTagsStep(base: Annotations, r: Request, tags: seq<Tag>, tags': seq<Tag>, n: nat)
    requires n < |r.batch.ops| && KnownTags(base, r, tags, n)
    requires forall x :: x in TagIds(tags') ==>
      x in TagIds(tags) || x in NamedBy(r.batch.ops[n]) || Some(x) == r.mints(n).tag
    ensures KnownTags(base, r, tags', n + 1)
  {
    forall x | x in TagIds(tags')
      ensures x in TagIds(base.tags) || (exists op :: op in r.batch.ops && x in NamedBy(op)) || MintedTag(r, n + 1, x)
    {
      if x in TagIds(tags) && MintedTag(r, n, x) {
        var m :| 0 <= m < n && r.mints(m).tag == Some(x);
      } else if x in NamedBy(r.batch.ops[n]) {
        assert r.batch.ops[n] in r.batch.ops;
      }
    }
  }

  lemma KnownItemsStep(base: Annotations, r: Request, items: seq<Item>, items': seq<Item>, n: nat)
    requires KnownItems(base, r, items, n)
    requires forall x :: x in ItemIds(items') ==> x in ItemIds(items) || Some(x) == r.mints(n).item
    ensures KnownItems(base, r, items', n + 1)
  {
    forall x | x in ItemIds(items') ensures x in ItemIds(base.items) || MintedItem(r, n + 1, x) {
      if x in ItemIds(items) && MintedItem(r, n, x) {
        var m :| 0 <= m < n && r.mints(m).item == Some(x);
      }
    }
  }

  // ----- unique tag ids by themselves

  /** The tags from before are there still, and what is new was named or minted. */
  ghost predicate TagsKept(tags: seq<Tag>, tags': seq<Tag>, op: Op, mint: Mint) {
    && Distinct(tags', TagKey) && TagIds(tags) <= TagIds(tags')
    && (forall x :: x in TagIds(tags') ==> x in TagIds(tags) || x in NamedBy(op) || Some(x) == mint.tag)
  }

  lemma MarkKeepsTags(tx: Text, w: Work, op: Op, duration: Int64, stamp: Stamp, mint: Mint)
    requires op.Mark? && ApplyMark(tx, w, op, duration, stamp, mint).Ok? && Distinct(w.tags, TagKey)
    requires mint.tag.Some? ==> mint.tag.value !in TagIds(w.tags)
    ensures TagsKept(w.tags, ApplyMark(tx, w, op, duration, stamp, mint).value.tags, op, mint)
  {
    hide LabelOk, TargetOk, LabelMatch, Covered, Distinct;
    var tag, name := op.tag.value, OpLabel(tx, op.tag.value.name).value;
    if FindTag(tx, w.tags, tag.id, name) == "" {
      var id := if tag.id != "" then tag.id else mint.tag.value;
      DefineTag(w.tags, Tag(id, name.value, None, None));
    }
  }

  lemma MergeKeepsTags(tx: Text, w: Work, op: Op, mint: Mint)
    requires op.MergeTag? && ApplyMerge(tx, w, op).Ok? && Distinct(w.tags, TagKey)
    ensures TagsKept(w.tags, ApplyMerge(tx, w, op).value.tags, op, mint)
  {
    hide MergeItems, LabelTaken, Targets, LabelOk, Distinct;
    if op.tagId in TagIds(w.tags) && op.into.value.id !in TagIds(w.tags) {
      DefineTag(w.tags, Tag(op.into.value.id, OpLabel(tx, op.into.value.name).value.value, None, None));
    }
  }

  lemma OpKeepsTags(r: Request, w: Work, n: nat)
    requires n < |r.batch.ops| && ApplyOp(r, w, n).Ok? && Distinct(w.tags, TagKey)
    requires r.mints(n).tag.Some? ==> r.mints(n).tag.value !in TagIds(w.tags)
    ensures TagsKept(w.tags, ApplyOp(r, w, n).value.tags, r.batch.ops[n], r.mints(n))
  {
    hide ApplyMark, ApplyMerge, LabelTaken, Filter, LabelOk, TargetOk, TitleOk;
    var op, tags := r.batch.ops[n], ApplyOp(r, w, n).value.tags;
    match op
    case Mark(_, _) => MarkKeepsTags(r.tx, w, op, r.duration, r.stamp, r.mints(n));
    case MergeTag(_, _) => MergeKeepsTags(r.tx, w, op, r.mints(n));
    case Relabel(_, _) => SameIdsKeeps(w.tags, tags);
    case Restyle(_, _, _) => SameIdsKeeps(w.tags, tags);
    case _ =>
  }

  lemma DefineTag(tags: seq<Tag>, t: Tag)
    requires Distinct(tags, TagKey) && t.id !in TagIds(tags)
    ensures Distinct(tags + [t], TagKey) && TagIds(tags + [t]) == TagIds(tags) + {t.id}
  {
    DistinctSnoc(tags, t, TagKey);
    TagIdsSnoc(tags, t);
  }

  lemma AdvanceKeepsTags(base: Annotations, r: Request, p: Progress, n: nat)
    requires n < |r.batch.ops| && FreshMints(base, r) && Distinct(p.work.tags, TagKey)
    requires KnownTags(base, r, p.work.tags, n) && Advance(r, p, TagIds(base.tags), n).Ok?
    ensures var tags := Advance(r, p, TagIds(base.tags), n).value.work.tags;
      Distinct(tags, TagKey) && KnownTags(base, r, tags, n + 1)
  {
    KnownTagsFresh(base, r, p.work.tags, n);
    OpKeepsTags(r, p.work, n);
    var w := ApplyOp(r, p.work, n).value;
    KnownTagsStep(base, r, p.work.tags, w.tags, n);
    InitializeKeeps(w.tags, r.batch.initial, TagIds(base.tags), p.seen);
    SameIdsKeeps(w.tags, Initialize(w.tags, r.batch.initial, TagIds(base.tags), p.seen).0);
  }

  /** What holds of the work after n operations. */
  ghost predicate Kept(base: Annotations, r: Request, w: Work, n: nat)
    requires n <= |r.batch.ops|
  {
    && Consistent(w.tags, w.items, r.duration) && (NoRepeats(base.items) ==> NoRepeats(w.items))
    && KnownTags(base, r, w.tags, n) && KnownItems(base, r, w.items, n)
  }

  lemma AdvanceKeeps(base: Annotations, r: Request, p: Progress, n: nat)
    requires n < |r.batch.ops| && FreshMints(base, r) && Kept(base, r, p.work, n)
    requires Advance(r, p, TagIds(base.tags), n).Ok?
    ensures Kept(base, r, Advance(r, p, TagIds(base.tags), n).value.work, n + 1)
  {
    KnownTagsFresh(base, r, p.work.tags, n);
    KnownItemsFresh(base, r, p.work.items, n);
    OpKeeps(r, p.work, n);
    AdvanceKeepsTags(base, r, p, n);
    var w := ApplyOp(r, p.work, n).value;
    KnownItemsStep(base, r, p.work.items, w.items, n);
    InitializeKeeps(w.tags, r.batch.initial, TagIds(base.tags), p.seen);
    RetagKeeps(w, w.(tags := Initialize(w.tags, r.batch.initial, TagIds(base.tags), p.seen).0), r.duration);
  }

  lemma RunKeeps(base: Annotations, r: Request, n: nat)
    requires n <= |r.batch.ops| && FreshMints(base, r) && Consistent(base.tags, base.items, r.duration)
    requires RunOps(r, Start(base), TagIds(base.tags), n).Ok?
    ensures Kept(base, r, RunOps(r, Start(base), TagIds(base.tags), n).value.work, n)
  {
    hide Advance;
    var step := Steps(r, TagIds(base.tags));
    var keeps := (p: Progress, k: nat) => k <= n && Kept(base, r, p.work, k);
    forall p, k: nat | k < n && keeps(p, k) && step(p, k).Ok? ensures keeps(step(p, k).value, k + 1) {
      AdvanceKeeps(base, r, p, k);
    }
    IterateKeeps(Progress(Start(base), {}), step, n, keeps);
  }

  lemma DropUnusedKeeps(tags: seq<Tag>, items: seq<Item>, duration: Int64)
    requires Consistent(tags, items, duration)
    ensures Consistent(DropUnused(tags, items), items, duration)
    ensures TagIds(DropUnused(tags, items)) == UsedIds(items)
  {
    var keep := IdIn(UsedIds(items));
    FilterMembers(tags, keep);
    FilterDistinct(tags, keep, TagKey);
    forall id | id in UsedIds(items) ensures id in TagIds(DropUnused(tags, items)) {
      assert id in TagIds(tags);
      var t :| t in tags && t.id == id;
      assert t in DropUnused(tags, items);
    }
  }

  lemma CanonicalKeeps(tx: Text, tags: seq<Tag>, items: seq<Item>, duration: Int64)
    requires Consistent(tags, items, duration)
    ensures Consistent(SortTags(tx, tags), SortItems(items), duration)
    ensures TagIds(SortTags(tx, tags)) == TagIds(tags) && UsedIds(SortItems(items)) == UsedIds(items)
    ensures NoRepeats(items) ==> NoRepeats(SortItems(items))
  {
    var tags', items' := SortTags(tx, tags), SortItems(items);
    MultisetMembers(tags, tags');
    MultisetMembers(items, items');
    PermutedDistinct(tags, tags', TagKey);
    PermutedDistinct(items, items', ItemKey);
    if NoRepeats(items) {
      PermutedDistinct(items, items', MarkKey);
    }
  }

  lemma FinishKeeps(r: Request, base: Annotations, w: Work)
    requires Consistent(w.tags, w.items, r.duration)
    ensures var doc := Finish(r, base, w);
      && Consistent(doc.tags, doc.items, r.duration) && TagIds(doc.tags) == UsedIds(doc.items)
      && (NoRepeats(w.items) ==> NoRepeats(doc.items))
  {
    var tags := StyledTags(r.tx, w.tags, r.batch.styles, r.batch.initial, TagIds(base.tags));
    RetagKeeps(w, w.(tags := tags), r.duration);
    DropUnusedKeeps(tags, w.items, r.duration);
    CanonicalKeeps(r.tx, DropUnused(tags, w.items), w.items, r.duration);
  }

  /** Every successful batch leaves unique ids, marks that name present tags, targets inside the
      recording, no tag without a mark, and no two marks alike where there were none. */
  lemma BatchKeepsConsistent(current: Option<Annotations>, r: Request)
    requires ApplyBatch(current, r).Ok? && FreshMints(Base(current), r)
    requires Consistent(Base(current).tags, Base(current).items, r.duration)
    ensures var doc := ApplyBatch(current, r).value.doc;
      && Consistent(doc.tags, doc.items, r.duration) && TagIds(doc.tags) == UsedIds(doc.items)
      && (NoRepeats(Base(current).items) ==> NoRepeats(doc.items))
  {
    var base := Base(current);
    RunKeeps(base, r, |r.batch.ops|);
    FinishKeeps(r, base, RunOps(r, Start(base), TagIds(base.tags), |r.batch.ops|).value.work);
  }
}
