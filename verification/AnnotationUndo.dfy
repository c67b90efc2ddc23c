/** What the outcome of a batch reports, and `undo-operation` as the inverse of a batch of marks. */
module AnnotationUndo {
  import opened Wrappers
  import opened Sequences
  import opened AnnotationDocument
  import opened AnnotationOps
  import opened AnnotationInvariants

  // ----- what an outcome reports

  lemma {:induction false} NewIdsAreDifference(from: seq<Item>, to: seq<Item>)
    ensures forall id :: id in NewIds(from, to) <==> id in ItemIds(to) && id !in ItemIds(from)
  {
    if to != [] {
      NewIdsAreDifference(from, Init(to));
      assert to == Init(to) + [Last(to)];
      assert ItemIds(to) == ItemIds(Init(to)) + {Last(to).id};
    }
  }

  /** `changed` is false exactly when the tags, the marks and the title are those the document had,
      in whatever order they are held; `added` and `removed` are the differences of the id sets. */
  lemma OutcomeReportsDifference(current: Option<Annotations>, r: Request)
    requires ApplyBatch(current, r).Ok?
    requires Distinct(Base(current).tags, TagKey) && Distinct(Base(current).items, ItemKey)
    ensures var o, base := ApplyBatch(current, r).value, Base(current);
      && (!o.changed <==> multiset(o.doc.tags) == multiset(base.tags) && multiset(o.doc.items) == multiset(base.items)
                          && o.doc.meeting == base.meeting)
      && (forall id :: id in o.added <==> id in ItemIds(o.doc.items) && id !in ItemIds(base.items))
      && (forall id :: id in o.removed <==> id in ItemIds(base.items) && id !in ItemIds(o.doc.items))
  {
    hide RunOps, StyledTags, DropUnused, SortTags, SortItems, NewIds, Unique;
    var o, base := ApplyBatch(current, r).value, Base(current);
    var before := Canonical(r.tx, base);
    var w := RunOps(r, Start(base), TagIds(base.tags), |r.batch.ops|).value.work;
    var tags := StyledTags(r.tx, w.tags, r.batch.styles, r.batch.initial, TagIds(base.tags));
    CanonicalIsUnique(r.tx, base, base.(tags := DropUnused(tags, w.items), items := w.items));
    assert multiset(o.doc.tags) == multiset(DropUnused(tags, w.items)) && multiset(o.doc.items) == multiset(w.items);
    MultisetMembers(before.items, base.items);
    assert ItemIds(before.items) == ItemIds(base.items);
    NewIdsAreDifference(before.items, o.doc.items);
    NewIdsAreDifference(o.doc.items, before.items);
  }

  // ----- a batch of marks only adds

  ghost predicate OnlyMarks(b: Batch) {
    forall op :: op in b.ops ==> op.Mark?
  }

  /** A mark of the batch asks for this tag id. */
  ghost predicate Names(b: Batch, id: string) {
    id != "" && exists n :: 0 <= n < |b.ops| && NamesAt(b, n, id)
  }

  predicate NamesAt(b: Batch, n: nat, id: string)
    requires n < |b.ops|
  {
    b.ops[n].Mark? && b.ops[n].tag.Some? && b.ops[n].tag.value.id == id
  }

  lemma {:induction false} InitializeExisting(tags: seq<Tag>, initial: map<string, Tag>, existing: set<string>,
                                              seen: set<string>)
    ensures var out := Initialize(tags, initial, existing, seen).0;
      forall k :: 0 <= k < |tags| && tags[k].id in existing ==> out[k] == tags[k]
  {
    if tags != [] {
      InitializeExisting(Init(tags), initial, existing, seen);
    }
  }

  lemma {:induction false} StyledExisting(tx: Text, t: Tag, styles: seq<TagStyle>, initial: map<string, Tag>,
                                          existing: set<string>)
    requires t.id in existing
    ensures Styled(tx, t, styles, initial, existing) == t
  {
    if styles != [] {
      StyledExisting(tx, t, Init(styles), initial, existing);
    }
  }

  /** The marks of the document as it was, followed by marks that carry the stamp. */
  ghost predicate ItemsGrown(base: Annotations, items: seq<Item>, operationId: string) {
    && |base.items| <= |items| && items[..|base.items|] == base.items
    && forall k :: |base.items| <= k < |items| ==> items[k].operationId == operationId
  }

  /** The tags of the document as they were, followed by tags with new ids that the batch names or
      that were minted. */
  ghost predicate TagsGrown(base: Annotations, tags: seq<Tag>, r: Request, n: nat) {
    && |base.tags| <= |tags| && tags[..|base.tags|] == base.tags
    && forall k :: |base.tags| <= k < |tags| ==>
         tags[k].id !in TagIds(base.tags) && (Names(r.batch, tags[k].id) || MintedTag(r, n, tags[k].id))
  }

  ghost predicate NamedPresent(tags: seq<Tag>, r: Request, n: nat)
    requires n <= |r.batch.ops|
  {
    forall m, id :: 0 <= m < n && NamesAt(r.batch, m, id) && id != "" ==> id in TagIds(tags)
  }

  lemma PrefixTags(base: seq<Tag>, tags: seq<Tag>)
    requires |base| <= |tags| && tags[..|base|] == base
    ensures TagIds(base) <= TagIds(tags)
  {
    forall t | t in base ensures t in tags {
      var k :| 0 <= k < |base| && base[k] == t;
      assert tags[..|base|][k] == tags[k];
    }
  }

  lemma AddMarkGrows(base: Annotations, w: Work, tagId: string, target: Target, stamp: Stamp, id: Option<string>)
    requires ItemsGrown(base, w.items, stamp.operationId) && AddMark(w, tagId, target, stamp, id).Ok?
    ensures var w' := AddMark(w, tagId, target, stamp, id).value;
      w'.tags == w.tags && w'.meeting == w.meeting && ItemsGrown(base, w'.items, stamp.operationId)
  {
  }

  lemma GrowsOneMore(base: Annotations, tags: seq<Tag>, r: Request, n: nat)
    requires n < |r.batch.ops| && TagsGrown(base, tags, r, n)
    ensures TagsGrown(base, tags, r, n + 1)
  {
    forall k | |base.tags| <= k < |tags| && MintedTag(r, n, tags[k].id) ensures MintedTag(r, n + 1, tags[k].id) {
      var m :| 0 <= m < n && r.mints(m).tag == Some(tags[k].id);
    }
  }

  lemma MarkGrows(base: Annotations, r: Request, w: Work, n: nat)
    requires n < |r.batch.ops| && r.batch.ops[n].Mark? && ApplyOp(r, w, n).Ok? && FreshTag(base, r, n)
    requires ItemsGrown(base, w.items, r.stamp.operationId) && TagsGrown(base, w.tags, r, n)
      && NamedPresent(w.tags, r, n)
    ensures var w' := ApplyOp(r, w, n).value;
      && w'.meeting == w.meeting && ItemsGrown(base, w'.items, r.stamp.operationId)
      && TagsGrown(base, w'.tags, r, n + 1) && NamedPresent(w'.tags, r, n + 1)
  {
    hide AddMark, ItemsGrown, LabelOk, TargetOk, LabelMatch;
    var op := r.batch.ops[n];
    var name := OpLabel(r.tx, op.tag.value.name).value;
    var id, target := op.tag.value.id, op.target.value;
    var found := FindTag(r.tx, w.tags, id, name);
    GrowsOneMore(base, w.tags, r, n);
    if found != "" {
      AddMarkGrows(base, w, found, target, r.stamp, r.mints(n).item);
    } else {
      var t := Tag(if id != "" then id else r.mints(n).tag.value, name.value, None, None);
      PrefixTags(base.tags, w.tags);
      TagIdsSnoc(w.tags, t);
      if id != "" {
        assert NamesAt(r.batch, n, id);
      }
      AddMarkGrows(base, w.(tags := w.tags + [t]), t.id, target, r.stamp, r.mints(n).item);
    }
  }

  lemma RestyleGrows(base: Annotations, tags: seq<Tag>, tags': seq<Tag>, r: Request, n: nat)
    requires n <= |r.batch.ops| && TagsGrown(base, tags, r, n) && NamedPresent(tags, r, n)
    requires SameIds(tags, tags')
    requires forall k :: 0 <= k < |tags| && tags[k].id in TagIds(base.tags) ==> tags'[k] == tags[k]
    ensures TagsGrown(base, tags', r, n) && NamedPresent(tags', r, n)
  {
    SameIdsKeeps(tags, tags');
    forall k | 0 <= k < |base.tags| ensures tags'[k] == base.tags[k] {
      assert tags[..|base.tags|][k] == tags[k] && base.tags[k] in base.tags;
    }
    assert tags'[..|base.tags|] == base.tags;
  }

  /** What a document looks like after n marks of a batch. */
  ghost predicate Grown(base: Annotations, r: Request, w: Work, n: nat)
    requires n <= |r.batch.ops|
  {
    && w.meeting == base.meeting && ItemsGrown(base, w.items, r.stamp.operationId)
    && TagsGrown(base, w.tags, r, n) && NamedPresent(w.tags, r, n)
  }

  lemma AdvanceGrows(base: Annotations, r: Request, p: Progress, n: nat)
    requires n < |r.batch.ops| && r.batch.ops[n].Mark? && FreshTag(base, r, n)
    requires Grown(base, r, p.work, n) && Advance(r, p, TagIds(base.tags), n).Ok?
    ensures Grown(base, r, Advance(r, p, TagIds(base.tags), n).value.work, n + 1)
  {
    MarkGrows(base, r, p.work, n);
    var w := ApplyOp(r, p.work, n).value;
    InitializeKeeps(w.tags, r.batch.initial, TagIds(base.tags), p.seen);
    InitializeExisting(w.tags, r.batch.initial, TagIds(base.tags), p.seen);
    RestyleGrows(base, w.tags, Initialize(w.tags, r.batch.initial, TagIds(base.tags), p.seen).0, r, n + 1);
  }

  lemma MarksGrow(base: Annotations, r: Request, n: nat)
    requires n <= |r.batch.ops| && OnlyMarks(r.batch) && FreshMints(base, r)
    requires RunOps(r, Start(base), TagIds(base.tags), n).Ok?
    ensures Grown(base, r, RunOps(r, Start(base), TagIds(base.tags), n).value.work, n)
  {
    hide Advance;
    var step := Steps(r, TagIds(base.tags));
    var keeps := (p: Progress, k: nat) => k <= n && Grown(base, r, p.work, k);
    forall p, k: nat | k < n && keeps(p, k) && step(p, k).Ok? ensures keeps(step(p, k).value, k + 1) {
      assert r.batch.ops[k] in r.batch.ops && FreshTag(base, r, k);
      AdvanceGrows(base, r, p, k);
    }
    IterateKeeps(Progress(Start(base), {}), step, n, keeps);
  }

  // ----- taking them back

  lemma UndoneItems(base: Annotations, items: seq<Item>, sorted: seq<Item>, operationId: string)
    requires ItemsGrown(base, items, operationId) && multiset(sorted) == multiset(items)
    requires forall i :: i in base.items ==> i.operationId != operationId
    ensures multiset(Filter(sorted, OtherThanOperation(operationId))) == multiset(base.items)
  {
    var keep := OtherThanOperation(operationId);
    var added := items[|base.items|..];
    assert items == base.items + added;
    FilterPermuted(sorted, items, keep);
    FilterAppend(base.items, added, keep);
    FilterAll(base.items, keep);
    FilterNone(added, keep);
  }

  lemma SameUsedIds(items: seq<Item>, items': seq<Item>)
    requires multiset(items) == multiset(items')
    ensures UsedIds(items) == UsedIds(items')
  {
    MultisetMembers(items, items');
  }

  /** Dropping tags twice leaves the original ones and those new ones that original marks already named. */
  lemma UndoneTags(original: seq<Tag>, added: seq<Tag>, sorted: seq<Tag>, used: set<string>, before: set<string>)
    requires TagIds(original) <= before <= used
    requires multiset(sorted) == multiset(Filter(original + added, IdIn(used)))
    ensures multiset(Filter(sorted, IdIn(before))) == multiset(original) + multiset(Filter(added, IdIn(before)))
  {
    var tags := original + added;
    FilterPermuted(sorted, Filter(tags, IdIn(used)), IdIn(before));
    FilterTwice(tags, IdIn(used), IdIn(before));
    FilterAppend(original, added, IdIn(before));
    FilterAll(original, IdIn(before));
  }

  lemma NothingLeft(added: seq<Tag>, before: set<string>)
    ensures Filter(added, IdIn(before)) == [] <==> TagIds(added) !! before
  {
    FilterMembers(added, IdIn(before));
    var extra := Filter(added, IdIn(before));
    if extra != [] {
      assert extra[0] in extra;
    } else {
      forall t | t in added ensures t.id !in before {
        assert !IdIn(before)(t);
      }
    }
  }

  lemma ExistingUntouched(r: Request, tags: seq<Tag>, existing: set<string>, seen: set<string>)
    requires TagIds(tags) <= existing
    ensures Initialize(tags, r.batch.initial, existing, seen).0 == tags
    ensures StyledTags(r.tx, tags, r.batch.styles, r.batch.initial, existing) == tags
  {
    InitializeExisting(tags, r.batch.initial, existing, seen);
    forall k | 0 <= k < |tags| ensures Styled(r.tx, tags[k], r.batch.styles, r.batch.initial, existing) == tags[k] {
      assert tags[k] in tags;
      StyledExisting(r.tx, tags[k], r.batch.styles, r.batch.initial, existing);
    }
  }

  /** What an undo of an operation makes of a document, whatever styles come with it. */
  lemma UndoOutcome(doc: Annotations, u: Request, operationId: string)
    requires u.batch.ops == [UndoOperation(operationId)] && operationId != ""
    ensures var kept := Filter(doc.items, OtherThanOperation(operationId));
      && ApplyBatch(Some(doc), u).Ok?
      && ApplyBatch(Some(doc), u).value.doc
         == Canonical(u.tx, doc.(tags := DropUnused(doc.tags, kept), items := kept))
  {
    hide Initialize, StyledTags, SortTags, SortItems, Filter, NewIds, Unique;
    var existing := TagIds(doc.tags);
    var op := u.batch.ops[0];
    ExistingUntouched(u, doc.tags, existing, {});
    assert RunOps(u, Start(doc), existing, 0) == Ok(Progress(Start(doc), {}));
  }

  /** A new tag that old marks name is one the batch asked for by that id. */
  lemma LeftoverTags(base: Annotations, tags: seq<Tag>, r: Request)
    requires OnlyMarks(r.batch) && FreshMints(base, r)
    requires TagsGrown(base, tags, r, |r.batch.ops|) && NamedPresent(tags, r, |r.batch.ops|)
    ensures TagIds(tags[|base.tags|..]) !! UsedIds(base.items)
      <==> forall id :: Names(r.batch, id) ==> id in TagIds(base.tags) || id !in UsedIds(base.items)
  {
    var added := tags[|base.tags|..];
    forall id | id in TagIds(added) && id in UsedIds(base.items)
      ensures Names(r.batch, id) && id !in TagIds(base.tags)
    {
      var k :| 0 <= k < |added| && added[k].id == id;
      assert tags[|base.tags| + k] == added[k];
      MintedUnused(base, r, id);
    }
    forall id | Names(r.batch, id) && id !in TagIds(base.tags)
      ensures id in TagIds(added)
    {
      var n :| 0 <= n < |r.batch.ops| && NamesAt(r.batch, n, id);
      assert id in TagIds(tags);
      assert tags == base.tags + added;
      var t :| t in tags && t.id == id;
      assert t in base.tags || t in added;
    }
  }

  lemma MintedUnused(base: Annotations, r: Request, id: string)
    requires FreshMints(base, r) && id in UsedIds(base.items)
    ensures !MintedTag(r, |r.batch.ops|, id)
  {
    forall m | 0 <= m < |r.batch.ops| ensures r.mints(m).tag != Some(id) {
      assert FreshTag(base, r, m);
    }
  }

  /** The same before and after styling and dropping: what the first batch leaves. */
  lemma MarkedOutcome(current: Option<Annotations>, r: Request) returns (items: seq<Item>, tags: seq<Tag>)
    requires OnlyMarks(r.batch) && ApplyBatch(current, r).Ok? && FreshMints(Base(current), r)
    ensures var base, doc := Base(current), ApplyBatch(current, r).value.doc;
      && ItemsGrown(base, items, r.stamp.operationId) && TagsGrown(base, tags, r, |r.batch.ops|)
      && NamedPresent(tags, r, |r.batch.ops|)
      && doc == Canonical(r.tx, base.(tags := DropUnused(tags, items), items := items))
  {
    var base := Base(current);
    var existing := TagIds(base.tags);
    MarksGrow(base, r, |r.batch.ops|);
    var w := RunOps(r, Start(base), existing, |r.batch.ops|).value.work;
    items, tags := w.items, StyledTags(r.tx, w.tags, r.batch.styles, r.batch.initial, existing);
    forall k | 0 <= k < |tags| && w.tags[k].id in existing ensures tags[k] == w.tags[k] {
      StyledExisting(r.tx, w.tags[k], r.batch.styles, r.batch.initial, existing);
    }
    RestyleGrows(base, w.tags, tags, r, |r.batch.ops|);
  }

  lemma GrownUses(base: Annotations, items: seq<Item>, operationId: string)
    requires ItemsGrown(base, items, operationId)
    ensures UsedIds(base.items) <= UsedIds(items)
  {
    forall i | i in base.items ensures i in items {
      var k :| 0 <= k < |base.items| && base.items[k] == i;
      assert items[..|base.items|][k] == items[k];
    }
  }

  /** Undoing what was added to a document, at the level of lists. */
  lemma UndoneContent(tx: Text, base: Annotations, items: seq<Item>, tags: seq<Tag>, doc: Annotations,
                      operationId: string)
    requires Distinct(base.tags, TagKey) && Distinct(base.items, ItemKey) && TagIds(base.tags) <= UsedIds(base.items)
    requires forall i :: i in base.items ==> i.operationId != operationId
    requires ItemsGrown(base, items, operationId)
    requires |base.tags| <= |tags| && tags[..|base.tags|] == base.tags
    requires multiset(doc.items) == multiset(items) && multiset(doc.tags) == multiset(DropUnused(tags, items))
    ensures var kept := Filter(doc.items, OtherThanOperation(operationId));
      && SortItems(kept) == SortItems(base.items)
      && (SortTags(tx, DropUnused(doc.tags, kept)) == SortTags(tx, base.tags)
          <==> TagIds(tags[|base.tags|..]) !! UsedIds(base.items))
  {
    var kept := Filter(doc.items, OtherThanOperation(operationId));
    UndoneItems(base, items, doc.items, operationId);
    SameUsedIds(kept, base.items);
    GrownUses(base, items, operationId);
    var added := tags[|base.tags|..];
    assert tags == base.tags + added;
    UndoneTags(base.tags, added, doc.tags, UsedIds(items), UsedIds(base.items));
    NothingLeft(added, UsedIds(base.items));
    CanonicalIsUnique(tx, base, base.(tags := DropUnused(doc.tags, kept), items := kept));
  }

  /** A document whose tags are all used and none of whose marks carries the stamp's operation id:
      any batch of marks followed by the undo of that id gives back its title, its marks and, unless
      the batch defined a tag that marks already named without its being there, its tags. */
  lemma UndoInverse(current: Option<Annotations>, r: Request, u: Request)
    requires OnlyMarks(r.batch) && ApplyBatch(current, r).Ok? && FreshMints(Base(current), r)
    requires Distinct(Base(current).tags, TagKey) && Distinct(Base(current).items, ItemKey)
    requires TagIds(Base(current).tags) <= UsedIds(Base(current).items)
    requires r.stamp.operationId != "" && forall i :: i in Base(current).items ==> i.operationId != r.stamp.operationId
    requires u.batch.ops == [UndoOperation(r.stamp.operationId)] && u.tx == r.tx
    ensures var base, undone := Base(current), ApplyBatch(Some(ApplyBatch(current, r).value.doc), u);
      && undone.Ok?
      && undone.value.doc.items == SortItems(base.items)
      && undone.value.doc.meeting == base.meeting
      && (undone.value.doc.tags == SortTags(r.tx, base.tags)
          <==> forall id :: Names(r.batch, id) ==> id in TagIds(base.tags) || id !in UsedIds(base.items))
  {
    var doc := ApplyBatch(current, r).value.doc;
    var items, tags := MarkedOutcome(current, r);
    UndoOutcome(doc, u, r.stamp.operationId);
    UndoneContent(r.tx, Base(current), items, tags, doc, r.stamp.operationId);
    LeftoverTags(Base(current), tags, r);
  }

  /** Where every mark names a tag that is there, the undo always gives the document back. */
  lemma UndoRestores(current: Option<Annotations>, r: Request, u: Request)
    requires OnlyMarks(r.batch) && ApplyBatch(current, r).Ok? && FreshMints(Base(current), r)
    requires WellLinked(Base(current).tags, Base(current).items)
    requires TagIds(Base(current).tags) <= UsedIds(Base(current).items)
    requires r.stamp.operationId != "" && forall i :: i in Base(current).items ==> i.operationId != r.stamp.operationId
    requires u.batch.ops == [UndoOperation(r.stamp.operationId)] && u.tx == r.tx
    ensures var undone := ApplyBatch(Some(ApplyBatch(current, r).value.doc), u);
      undone.Ok? && undone.value.doc == Canonical(r.tx, Base(current))
  {
    UndoInverse(current, r, u);
  }
}
