/** Applying a batch of marks a second time, as a caller does that lost the first response. */
module AnnotationRetry {
  import opened Wrappers
  import opened Sequences
  import opened Sorting
  import opened AnnotationDocument
  import opened AnnotationOps
  import opened AnnotationInvariants
  import opened AnnotationUndo

  function MarkLabel(tx: Text, op: Op): Option<string>
    requires op.Mark? && op.tag.Some? && OpLabel(tx, op.tag.value.name).Ok?
  {
    OpLabel(tx, op.tag.value.name).value
  }

  /** The mark passes every check that does not depend on the document. */
  predicate Proper(tx: Text, op: Op, duration: Int64) {
    && op.Mark? && op.tag.Some? && op.target.Some? && OpLabel(tx, op.tag.value.name).Ok?
    && (op.tag.value.id == "" ==> MarkLabel(tx, op).Some?) && TargetOk(op.target.value, duration)
  }

  /** The tag the mark would apply to is there and marks the target already. */
  predicate Settled(tx: Text, tags: seq<Tag>, items: seq<Item>, op: Op, duration: Int64) {
    && Proper(tx, op, duration)
    && var found := FindTag(tx, tags, op.tag.value.id, MarkLabel(tx, op));
       found != "" && Covered(items, found, op.target.value)
  }

  // ----- what the first application leaves

  /** The mark has been made, with the tag it names or with some tag that has its label. */
  ghost predicate Made(tx: Text, tags: seq<Tag>, items: seq<Item>, op: Op, duration: Int64) {
    && Proper(tx, op, duration)
    && exists t :: t in tags && MadeWith(tx, t, items, op, duration)
  }

  predicate MadeWith(tx: Text, t: Tag, items: seq<Item>, op: Op, duration: Int64)
    requires Proper(tx, op, duration)
  {
    && t.id != "" && Covered(items, t.id, op.target.value)
    && if op.tag.value.id != "" then t.id == op.tag.value.id else tx.SameLabel(t.name, MarkLabel(tx, op).value)
  }

  ghost predicate AllMade(r: Request, tags: seq<Tag>, items: seq<Item>, n: nat)
    requires n <= |r.batch.ops|
  {
    forall m :: 0 <= m < n ==> Made(r.tx, tags, items, r.batch.ops[m], r.duration)
  }

  ghost predicate SameNames(tags: seq<Tag>, tags': seq<Tag>) {
    |tags| == |tags'| && forall k :: 0 <= k < |tags| ==> tags[k].id == tags'[k].id && tags[k].name == tags'[k].name
  }

  ghost predicate NameIn(tags: seq<Tag>, t: Tag) {
    exists t' :: t' in tags && t'.id == t.id && t'.name == t.name
  }

  /** Every used tag keeps its id and label, and every mark stays. */
  ghost predicate CarriedOver(tags: seq<Tag>, items: seq<Item>, tags': seq<Tag>, items': seq<Item>) {
    && (forall t :: t in tags && t.id in UsedIds(items) ==> NameIn(tags', t))
    && (forall i :: i in items ==> i in items')
  }

  /** Marks stay made while marks are added, unused tags dropped and tags given another appearance. */
  lemma MadeStays(tx: Text, tags: seq<Tag>, items: seq<Item>, tags': seq<Tag>, items': seq<Item>, op: Op,
                  duration: Int64)
    requires Made(tx, tags, items, op, duration)
    requires CarriedOver(tags, items, tags', items')
    ensures Made(tx, tags', items', op, duration)
  {
    var t :| t in tags && MadeWith(tx, t, items, op, duration);
    var i :| i in items && i.tagId == t.id && i.target == op.target.value;
    assert t.id in UsedIds(items);
    assert NameIn(tags', t);
    var t' :| t' in tags' && t'.id == t.id && t'.name == t.name;
    assert MadeWith(tx, t', items', op, duration);
  }

  lemma {:induction false} InitializeNames(tags: seq<Tag>, initial: map<string, Tag>, existing: set<string>,
                                           seen: set<string>)
    ensures SameNames(tags, Initialize(tags, initial, existing, seen).0)
  {
    if tags != [] {
      InitializeNames(Init(tags), initial, existing, seen);
    }
  }

  lemma NamesCarryOver(tags: seq<Tag>, tags': seq<Tag>)
    requires SameNames(tags, tags')
    ensures forall t :: t in tags ==> NameIn(tags', t)
  {
    forall t | t in tags ensures NameIn(tags', t) {
      var k :| 0 <= k < |tags| && tags[k] == t;
      assert tags'[k] in tags';
    }
  }

  lemma AddMarkCovers(w: Work, tagId: string, target: Target, stamp: Stamp, id: Option<string>)
    requires AddMark(w, tagId, target, stamp, id).Ok?
    ensures var w' := AddMark(w, tagId, target, stamp, id).value;
      && w'.tags == w.tags && w.items <= w'.items && Covered(w'.items, tagId, target)
      && (!Covered(w.items, tagId, target) ==> |w'.items| == |w.items| + 1)
  {
    var w' := AddMark(w, tagId, target, stamp, id).value;
    if !Covered(w.items, tagId, target) {
      assert Last(w'.items) in w'.items;
    }
  }

  /** A mark adds its own, keeps every tag and every mark there is. */
  lemma MarkMakes(tx: Text, w: Work, op: Op, duration: Int64, stamp: Stamp, mint: Mint)
    requires op.Mark? && ApplyMark(tx, w, op, duration, stamp, mint).Ok?
    requires mint.tag.Some? ==> mint.tag.value != ""
    ensures var w' := ApplyMark(tx, w, op, duration, stamp, mint).value;
      && w.tags <= w'.tags && w.items <= w'.items && Made(tx, w'.tags, w'.items, op, duration)
      && (Settled(tx, w.tags, w.items, op, duration) ==> w' == w)
      && (!Settled(tx, w.tags, w.items, op, duration) ==> |w'.items| > |w.items| || w'.tags != w.tags)
  {
    var name := OpLabel(tx, op.tag.value.name).value;
    var id, target := op.tag.value.id, op.target.value;
    var found := FindTag(tx, w.tags, id, name);
    var w' := ApplyMark(tx, w, op, duration, stamp, mint).value;
    if found != "" {
      AddMarkCovers(w, found, target, stamp, mint.item);
      var t :| t in w.tags && t.id == found && (id == "" ==> tx.SameLabel(t.name, name.value));
      assert MadeWith(tx, t, w'.items, op, duration);
    } else {
      var t := Tag(if id != "" then id else mint.tag.value, name.value, None, None);
      AddMarkCovers(w.(tags := w.tags + [t]), t.id, target, stamp, mint.item);
      assert Last(w'.tags) == t && MadeWith(tx, t, w'.items, op, duration);
    }
  }

  lemma AllMadeGrows(r: Request, tags: seq<Tag>, items: seq<Item>, tags': seq<Tag>, items': seq<Item>, n: nat)
    requires n <= |r.batch.ops| && AllMade(r, tags, items, n)
    requires CarriedOver(tags, items, tags', items')
    ensures AllMade(r, tags', items', n)
  {
    forall m | 0 <= m < n ensures Made(r.tx, tags', items', r.batch.ops[m], r.duration) {
      MadeStays(r.tx, tags, items, tags', items', r.batch.ops[m], r.duration);
    }
  }

  lemma PrefixMembers<T(!new)>(xs: seq<T>, ys: seq<T>)
    requires xs <= ys
    ensures forall x :: x in xs ==> x in ys
  {
    forall x | x in xs ensures x in ys {
      var k :| 0 <= k < |xs| && xs[k] == x;
      assert ys[k] == x;
    }
  }

  lemma AdvanceMakes(r: Request, p: Progress, existing: set<string>, n: nat)
    requires n < |r.batch.ops| && r.batch.ops[n].Mark? && Advance(r, p, existing, n).Ok?
    requires r.mints(n).tag.Some? ==> r.mints(n).tag.value != ""
    requires AllMade(r, p.work.tags, p.work.items, n)
    ensures var w := Advance(r, p, existing, n).value.work; AllMade(r, w.tags, w.items, n + 1)
  {
    var w, w' := p.work, ApplyOp(r, p.work, n).value;
    MarkMakes(r.tx, w, r.batch.ops[n], r.duration, r.stamp, r.mints(n));
    PrefixMembers(w.tags, w'.tags);
    PrefixMembers(w.items, w'.items);
    AllMadeGrows(r, w.tags, w.items, w'.tags, w'.items, n);
    var tags := Initialize(w'.tags, r.batch.initial, existing, p.seen).0;
    InitializeNames(w'.tags, r.batch.initial, existing, p.seen);
    NamesCarryOver(w'.tags, tags);
    AllMadeGrows(r, w'.tags, w'.items, tags, w'.items, n + 1);
  }

  lemma RunMakes(base: Annotations, r: Request, n: nat)
    requires n <= |r.batch.ops| && OnlyMarks(r.batch) && FreshMints(base, r)
    requires RunOps(r, Start(base), TagIds(base.tags), n).Ok?
    ensures var w := RunOps(r, Start(base), TagIds(base.tags), n).value.work; AllMade(r, w.tags, w.items, n)
  {
    var step := Steps(r, TagIds(base.tags));
    var keeps := (p: Progress, k: nat) => k <= n && AllMade(r, p.work.tags, p.work.items, k);
    forall p, k: nat | k < n && keeps(p, k) && step(p, k).Ok? ensures keeps(step(p, k).value, k + 1) {
      assert r.batch.ops[k] in r.batch.ops && FreshTag(base, r, k);
      AdvanceMakes(r, p, TagIds(base.tags), k);
    }
    IterateKeeps(Progress(Start(base), {}), step, n, keeps);
  }

  lemma DroppedCarries(tx: Text, tags: seq<Tag>, items: seq<Item>)
    ensures CarriedOver(tags, items, SortTags(tx, DropUnused(tags, items)), SortItems(items))
    ensures TagIds(SortTags(tx, DropUnused(tags, items))) <= UsedIds(SortItems(items))
  {
    FilterMembers(tags, IdIn(UsedIds(items)));
    MultisetMembers(SortTags(tx, DropUnused(tags, items)), DropUnused(tags, items));
    MultisetMembers(SortItems(items), items);
    forall t | t in tags && t.id in UsedIds(items) ensures NameIn(SortTags(tx, DropUnused(tags, items)), t) {
      assert IdIn(UsedIds(items))(t);
    }
  }

  lemma FinishMakes(r: Request, base: Annotations, w: Work)
    requires AllMade(r, w.tags, w.items, |r.batch.ops|)
    ensures var doc := Finish(r, base, w);
      AllMade(r, doc.tags, doc.items, |r.batch.ops|) && TagIds(doc.tags) <= UsedIds(doc.items)
  {
    var tags := StyledTags(r.tx, w.tags, r.batch.styles, r.batch.initial, TagIds(base.tags));
    NamesCarryOver(w.tags, tags);
    AllMadeGrows(r, w.tags, w.items, tags, w.items, |r.batch.ops|);
    DroppedCarries(r.tx, tags, w.items);
    AllMadeGrows(r, tags, w.items, SortTags(r.tx, DropUnused(tags, w.items)), SortItems(w.items), |r.batch.ops|);
  }

  /** After a successful batch of marks every one of them is there, and every tag is used. */
  lemma FirstMakesAll(current: Option<Annotations>, r: Request)
    requires OnlyMarks(r.batch) && ApplyBatch(current, r).Ok? && FreshMints(Base(current), r)
    ensures var doc := ApplyBatch(current, r).value.doc;
      AllMade(r, doc.tags, doc.items, |r.batch.ops|) && TagIds(doc.tags) <= UsedIds(doc.items)
  {
    RunMakes(Base(current), r, |r.batch.ops|);
    FinishMakes(r, Base(current),
      RunOps(r, Start(Base(current)), TagIds(Base(current).tags), |r.batch.ops|).value.work);
  }

  // ----- the second application

  ghost predicate AllSettled(r: Request, doc: Annotations, n: nat)
    requires n <= |r.batch.ops|
  {
    forall m :: 0 <= m < n ==> Settled(r.tx, doc.tags, doc.items, r.batch.ops[m], r.duration)
  }

  /** Nothing has changed while every mark was settled; from the first that was not, something was added. */
  ghost predicate Idle(r: Request, doc: Annotations, p: Progress, n: nat)
    requires n <= |r.batch.ops|
  {
    if AllSettled(r, doc, n) then p.work == Start(doc)
    else |p.work.items| > |doc.items|
  }

  /** A retried mark that is not settled adds a mark: a tag it has to define is one nobody used. */
  lemma UnsettledAdds(tx: Text, w: Work, op: Op, duration: Int64, stamp: Stamp, mint: Mint)
    requires op.Mark? && ApplyMark(tx, w, op, duration, stamp, mint).Ok? && !Settled(tx, w.tags, w.items, op, duration)
    requires op.tag.value.id != "" ==> op.tag.value.id in TagIds(w.tags)
    requires mint.tag.Some? ==> mint.tag.value !in UsedIds(w.items)
    ensures |ApplyMark(tx, w, op, duration, stamp, mint).value.items| > |w.items|
  {
    var name := OpLabel(tx, op.tag.value.name).value;
    var id, target := op.tag.value.id, op.target.value;
    if FindTag(tx, w.tags, id, name) == "" {
      assert !Covered(w.items, mint.tag.value, target);
    }
  }

  ghost predicate NamesThere(r: Request, doc: Annotations) {
    forall id :: Names(r.batch, id) ==> id in TagIds(doc.tags)
  }

  lemma SettledNext(r: Request, doc: Annotations, n: nat)
    requires n < |r.batch.ops|
    ensures AllSettled(r, doc, n + 1) <==>
      AllSettled(r, doc, n) && Settled(r.tx, doc.tags, doc.items, r.batch.ops[n], r.duration)
  {
    hide Settled;
  }

  lemma FreshUnused(r: Request, doc: Annotations, n: nat)
    requires FreshTag(doc, r, n)
    ensures r.mints(n).tag.Some? ==> r.mints(n).tag.value !in UsedIds(doc.items)
  {
  }

  lemma AdvanceIdle(r: Request, doc: Annotations, p: Progress, n: nat)
    requires n < |r.batch.ops| && r.batch.ops[n].Mark? && NamesThere(r, doc) && FreshTag(doc, r, n)
    requires Idle(r, doc, p, n) && Advance(r, p, TagIds(doc.tags), n).Ok?
    ensures Idle(r, doc, Advance(r, p, TagIds(doc.tags), n).value, n + 1)
  {
    FreshUnused(r, doc, n);
    SettledNext(r, doc, n);
    hide AllSettled, Settled, Made, LabelMatch, Covered, FreshTag, Initialize, TagIds;
    var op := r.batch.ops[n];
    MarkMakes(r.tx, p.work, op, r.duration, r.stamp, r.mints(n));
    if AllSettled(r, doc, n) {
      ExistingUntouched(r, doc.tags, TagIds(doc.tags), p.seen);
      if !Settled(r.tx, doc.tags, doc.items, op, r.duration) {
        assert NamesAt(r.batch, n, op.tag.value.id);
        UnsettledAdds(r.tx, p.work, op, r.duration, r.stamp, r.mints(n));
      }
    }
  }

  lemma SettledStep(r: Request, doc: Annotations, p: Progress, n: nat)
    requires n < |r.batch.ops| && p.work == Start(doc)
    requires Settled(r.tx, doc.tags, doc.items, r.batch.ops[n], r.duration)
    ensures Advance(r, p, TagIds(doc.tags), n).Ok? && Advance(r, p, TagIds(doc.tags), n).value.work == Start(doc)
  {
    ExistingUntouched(r, doc.tags, TagIds(doc.tags), p.seen);
  }

  lemma {:induction false} NoNewIds(items: seq<Item>, some: seq<Item>)
    requires forall i :: i in some ==> i in items
    ensures NewIds(items, some) == []
  {
    if some != [] {
      assert Last(some) in some;
      NoNewIds(items, Init(some));
    }
  }

  /** A batch whose marks are all settled leaves the document as it is and reports nothing. */
  lemma SettledBatch(doc: Annotations, r: Request)
    requires TagIds(doc.tags) <= UsedIds(doc.items) && AllSettled(r, doc, |r.batch.ops|)
    ensures var again := ApplyBatch(Some(doc), r);
      && again.Ok? && !again.value.changed
      && again.value.added == [] && again.value.removed == [] && again.value.notFound == []
  {
    SettledRun(doc, r);
    ExistingUntouched(r, doc.tags, TagIds(doc.tags), {});
    FilterAll(doc.tags, IdIn(UsedIds(doc.items)));
    NoNewIds(SortItems(doc.items), SortItems(doc.items));
  }

  lemma SettledRun(doc: Annotations, r: Request)
    requires AllSettled(r, doc, |r.batch.ops|)
    ensures var run := RunOps(r, Start(doc), TagIds(doc.tags), |r.batch.ops|); run.Ok? && run.value.work == Start(doc)
  {
    hide Advance, Settled;
    var n, step := |r.batch.ops|, Steps(r, TagIds(doc.tags));
    var keeps := (p: Progress) => p.work == Start(doc);
    forall p, k: nat | k < n && keeps(p) ensures step(p, k).Ok? && keeps(step(p, k).value) {
      assert Settled(r.tx, doc.tags, doc.items, r.batch.ops[k], r.duration);
      SettledStep(r, doc, p, k);
    }
    IterateSucceeds(Progress(Start(doc), {}), step, n, keeps);
  }

  lemma UnsettledRun(doc: Annotations, r: Request)
    requires OnlyMarks(r.batch) && FreshMints(doc, r) && NamesThere(r, doc)
    requires RunOps(r, Start(doc), TagIds(doc.tags), |r.batch.ops|).Ok?
    ensures Idle(r, doc, RunOps(r, Start(doc), TagIds(doc.tags), |r.batch.ops|).value, |r.batch.ops|)
  {
    var n, step := |r.batch.ops|, Steps(r, TagIds(doc.tags));
    var keeps := (p: Progress, k: nat) => k <= n && Idle(r, doc, p, k);
    forall p, k: nat | k < n && keeps(p, k) && step(p, k).Ok? ensures keeps(step(p, k).value, k + 1) {
      assert r.batch.ops[k] in r.batch.ops && FreshTag(doc, r, k);
      AdvanceIdle(r, doc, p, k);
    }
    IterateKeeps(Progress(Start(doc), {}), step, n, keeps);
  }

  lemma UnsettledBatch(doc: Annotations, r: Request)
    requires OnlyMarks(r.batch) && FreshMints(doc, r) && NamesThere(r, doc)
    requires !AllSettled(r, doc, |r.batch.ops|) && ApplyBatch(Some(doc), r).Ok?
    ensures ApplyBatch(Some(doc), r).value.changed
  {
    UnsettledRun(doc, r);
    var items := RunOps(r, Start(doc), TagIds(doc.tags), |r.batch.ops|).value.work.items;
    MultisetMembers(SortItems(items), items);
    MultisetMembers(SortItems(doc.items), doc.items);
  }

  lemma {:induction false} LabelMatchUnique(tx: Text, tags: seq<Tag>, t: Tag, name: string)
    requires t in tags && tx.SameLabel(t.name, name)
    requires forall i, j :: 0 <= i < j < |tags| ==> !tx.SameLabel(tags[i].name, tags[j].name)
    ensures LabelMatch(tx, tags, name) == t.id
  {
    if tx.SameLabel(tags[0].name, name) {
      var k :| 0 <= k < |tags| && tags[k] == t;
      assert k == 0;
    } else {
      assert tags == [tags[0]] + tags[1..];
      LabelMatchUnique(tx, tags[1..], t, name);
    }
  }

  /** A retry names the same operations against the same length; stamp, styles and ids may differ. */
  ghost predicate IsRetry(r: Request, again: Request) {
    again.tx == r.tx && again.batch.ops == r.batch.ops && again.duration == r.duration
  }

  lemma RetryNames(r: Request, again: Request, doc: Annotations)
    requires IsRetry(r, again) && AllMade(r, doc.tags, doc.items, |r.batch.ops|)
    ensures NamesThere(again, doc)
  {
    forall id | Names(again.batch, id) ensures id in TagIds(doc.tags) {
      var n :| 0 <= n < |r.batch.ops| && NamesAt(again.batch, n, id);
      assert Made(r.tx, doc.tags, doc.items, r.batch.ops[n], r.duration);
    }
  }

  /** A mark by id is settled once made. One by label is settled when the first tag with that label,
      in the order the document is kept in, marks the target: another tag with the same label may
      come first. */
  ghost predicate LabelSettled(r: Request, doc: Annotations, n: nat)
    requires n < |r.batch.ops|
  {
    var op := r.batch.ops[n];
    Proper(r.tx, op, r.duration) && op.tag.value.id == "" ==>
      var found := LabelMatch(r.tx, doc.tags, MarkLabel(r.tx, op).value);
      found != "" && Covered(doc.items, found, op.target.value)
  }

  lemma SettledAgain(r: Request, again: Request, doc: Annotations)
    requires IsRetry(r, again) && AllMade(r, doc.tags, doc.items, |r.batch.ops|)
    ensures (forall n :: 0 <= n < |r.batch.ops| ==> LabelSettled(r, doc, n)) <==> AllSettled(again, doc, |r.batch.ops|)
  {
    forall n | 0 <= n < |r.batch.ops|
      ensures LabelSettled(r, doc, n) <==> Settled(again.tx, doc.tags, doc.items, again.batch.ops[n], again.duration)
    {
      assert Made(r.tx, doc.tags, doc.items, r.batch.ops[n], r.duration);
    }
  }

  /** A batch of marks applied to its own result changes nothing exactly when each mark by label finds
      a tag there that marks its target already; then it also reports nothing. */
  lemma RetryIff(current: Option<Annotations>, r: Request, again: Request)
    requires OnlyMarks(r.batch) && ApplyBatch(current, r).Ok? && FreshMints(Base(current), r)
    requires IsRetry(r, again) && FreshMints(ApplyBatch(current, r).value.doc, again)
    ensures var doc := ApplyBatch(current, r).value.doc;
      var second := ApplyBatch(Some(doc), again);
      && ((forall n :: 0 <= n < |r.batch.ops| ==> LabelSettled(r, doc, n)) <==> second.Ok? && !second.value.changed)
      && (second.Ok? && !second.value.changed ==> second.value.added == [] && second.value.removed == [])
  {
    var doc := ApplyBatch(current, r).value.doc;
    FirstMakesAll(current, r);
    RetryNames(r, again, doc);
    SettledAgain(r, again, doc);
    if AllSettled(again, doc, |r.batch.ops|) {
      SettledBatch(doc, again);
    } else if ApplyBatch(Some(doc), again).Ok? {
      UnsettledBatch(doc, again);
    }
  }

  /** Where no two labels of the first result fold together, a retry is always safe. */
  lemma RetrySafe(current: Option<Annotations>, r: Request, again: Request)
    requires OnlyMarks(r.batch) && ApplyBatch(current, r).Ok? && FreshMints(Base(current), r)
    requires IsRetry(r, again) && FreshMints(ApplyBatch(current, r).value.doc, again)
    requires var tags := ApplyBatch(current, r).value.doc.tags;
      forall i, j :: 0 <= i < j < |tags| ==> !r.tx.SameLabel(tags[i].name, tags[j].name)
    ensures var second := ApplyBatch(Some(ApplyBatch(current, r).value.doc), again);
      second.Ok? && !second.value.changed && second.value.added == []
  {
    var doc := ApplyBatch(current, r).value.doc;
    FirstMakesAll(current, r);
    forall n | 0 <= n < |r.batch.ops| ensures LabelSettled(r, doc, n) {
      var op := r.batch.ops[n];
      assert Made(r.tx, doc.tags, doc.items, op, r.duration);
      if op.tag.value.id == "" {
        var t :| t in doc.tags && MadeWith(r.tx, t, doc.items, op, r.duration);
        LabelMatchUnique(r.tx, doc.tags, t, MarkLabel(r.tx, op).value);
      }
    }
    RetryIff(current, r, again);
  }

  /** Where every mark names its tag by id, a retry is safe whatever the labels are. */
  lemma RetryByIdSafe(current: Option<Annotations>, r: Request, again: Request)
    requires OnlyMarks(r.batch) && ApplyBatch(current, r).Ok? && FreshMints(Base(current), r)
    requires IsRetry(r, again) && FreshMints(ApplyBatch(current, r).value.doc, again)
    requires forall op :: op in r.batch.ops ==> op.tag.Some? ==> op.tag.value.id != ""
    ensures var second := ApplyBatch(Some(ApplyBatch(current, r).value.doc), again);
      second.Ok? && !second.value.changed && second.value.added == []
  {
    var doc := ApplyBatch(current, r).value.doc;
    forall n | 0 <= n < |r.batch.ops| ensures LabelSettled(r, doc, n) {
      assert r.batch.ops[n] in r.batch.ops;
    }
    RetryIff(current, r, again);
  }

  // ----- retries that are not safe

  /** Two tags with one label, the later id first, each with a mark of its own; a batch that makes one
      mark by that label on a target neither of them covers. */
  ghost predicate Twins(base: Annotations, r: Request, a: Tag, b: Tag, target: Target) {
    && base.tags == [b, a] && a.name == b.name && a.id != "" && b.id != "" && Below(a.id, b.id)
    && |base.items| == 2 && base.items[0].tagId == b.id && base.items[1].tagId == a.id
    && base.items[0].target != target && base.items[1].target != target
    && r.batch == Batch([Op.Mark(Some(OpTag("", Some(a.name))), Some(target))], [], map[])
    && r.tx.trim(a.name) == a.name && LabelOk(r.tx, a.name) && TargetOk(target, r.duration)
    && r.mints(0).item.Some? && FreshMints(base, r)
  }

  lemma TwinStep(base: Annotations, r: Request, a: Tag, b: Tag, target: Target) returns (w: Work)
    requires Twins(base, r, a, b, target)
    ensures ApplyOp(r, Start(base), 0) == Ok(w)
    ensures w.tags == base.tags && |w.items| == 3 && w.items[..2] == base.items && w.items[2].tagId == b.id
  {
    assert base.tags[0] == b && LabelMatch(r.tx, base.tags, a.name) == b.id;
    assert !Covered(base.items, b.id, target);
    w := ApplyOp(r, Start(base), 0).value;
  }

  lemma BatchOfOne(base: Annotations, r: Request, w: Work)
    requires |r.batch.ops| == 1 && ApplyOp(r, Start(base), 0) == Ok(w) && w.tags == base.tags
    ensures ApplyBatch(Some(base), r).Ok? && ApplyBatch(Some(base), r).value.doc == Finish(r, base, w)
  {
    ExistingUntouched(r, base.tags, TagIds(base.tags), {});
    assert RunOps(r, Start(base), TagIds(base.tags), 0) == Ok(Progress(Start(base), {}));
  }

  lemma TwinsUsed(a: Tag, b: Tag, items: seq<Item>)
    requires a.id in UsedIds(items) && b.id in UsedIds(items)
    ensures DropUnused([b, a], items) == [b, a]
  {
    hide UsedIds;
    FilterAll([b, a], IdIn(UsedIds(items)));
  }

  lemma TwinsInOrder(tx: Text, a: Tag, b: Tag)
    requires a.name == b.name && Below(a.id, b.id)
    ensures Sorted([a, b], (x: Tag, y: Tag) => TagBelow(tx, x, y)) && a.id != b.id
  {
    hide Below;
    BelowIsOrder();
  }

  /** Of two tags with one label the one with the lower id is listed first. */
  lemma TwinsSorted(tx: Text, a: Tag, b: Tag, items: seq<Item>)
    requires a.name == b.name && Below(a.id, b.id) && a.id in UsedIds(items) && b.id in UsedIds(items)
    ensures SortTags(tx, DropUnused([b, a], items)) == [a, b]
  {
    TwinsUsed(a, b, items);
    TwinsInOrder(tx, a, b);
    hide Below, TagBelow, Sorted, DropUnused, SortTags;
    TagsCanonical(tx, [b, a], [a, b]);
  }

  lemma TwinFinish(base: Annotations, r: Request, a: Tag, b: Tag, target: Target, w: Work)
    requires Twins(base, r, a, b, target)
    requires w.tags == base.tags && |w.items| == 3 && w.items[..2] == base.items
    ensures Finish(r, base, w).tags == [a, b] && multiset(Finish(r, base, w).items) == multiset(w.items)
  {
    hide Below, StyledTags, DropUnused, SortTags, SortItems;
    ExistingUntouched(r, base.tags, TagIds(base.tags), {});
    assert w.items[0] == base.items[0] && w.items[1] == base.items[1];
    assert w.items[0] in w.items && w.items[1] in w.items;
    TwinsSorted(r.tx, a, b, w.items);
  }

  lemma OtherTwinUnmarked(doc: Annotations, base: Annotations, r: Request, a: Tag, b: Tag, target: Target, w: Work)
    requires Twins(base, r, a, b, target)
    requires |w.items| == 3 && w.items[..2] == base.items && w.items[2].tagId == b.id
    requires doc.tags == [a, b] && multiset(doc.items) == multiset(w.items)
    ensures !LabelSettled(r, doc, 0)
  {
    MultisetMembers(doc.items, w.items);
    assert w.items[0] == base.items[0] && w.items[1] == base.items[1];
    assert doc.tags[0] == a && LabelMatch(r.tx, doc.tags, a.name) == a.id;
    BelowIsOrder();
    assert a.id != b.id;
    forall i | i in doc.items && i.tagId == a.id ensures i.target != target {
      var k :| 0 <= k < 3 && w.items[k] == i;
    }
  }

  lemma UnsettledRetry(current: Option<Annotations>, r: Request, again: Request, doc: Annotations, n: nat)
    requires OnlyMarks(r.batch) && ApplyBatch(current, r).Ok? && ApplyBatch(current, r).value.doc == doc
    requires FreshMints(Base(current), r) && IsRetry(r, again) && FreshMints(doc, again)
    requires n < |r.batch.ops| && !LabelSettled(r, doc, n)
    ensures !(ApplyBatch(Some(doc), again).Ok? && !ApplyBatch(Some(doc), again).value.changed)
  {
    RetryIff(current, r, again);
  }

  lemma TwinFirst(base: Annotations, r: Request, a: Tag, b: Tag, target: Target) returns (doc: Annotations)
    requires Twins(base, r, a, b, target)
    ensures ApplyBatch(Some(base), r).Ok? && doc == ApplyBatch(Some(base), r).value.doc
    ensures OnlyMarks(r.batch) && |r.batch.ops| == 1 && !LabelSettled(r, doc, 0)
  {
    var w := TwinStep(base, r, a, b, target);
    BatchOfOne(base, r, w);
    doc := Finish(r, base, w);
    TwinFinish(base, r, a, b, target, w);
    OtherTwinUnmarked(doc, base, r, a, b, target, w);
  }

  /** The first mark goes to the tag that is listed first; sorting then lists its twin first, so no
      retry leaves the document as it is: it marks the twin as well, or fails. */
  lemma RetryCanAdd(base: Annotations, r: Request, a: Tag, b: Tag, target: Target, doc: Annotations, again: Request)
    requires Twins(base, r, a, b, target) && IsRetry(r, again) && FreshMints(doc, again)
    requires ApplyBatch(Some(base), r).Ok? ==> doc == ApplyBatch(Some(base), r).value.doc
    ensures ApplyBatch(Some(base), r).Ok?
    ensures !(ApplyBatch(Some(doc), again).Ok? && !ApplyBatch(Some(doc), again).value.changed)
  {
    var first := TwinFirst(base, r, a, b, target);
    UnsettledRetry(Some(base), r, again, doc, 0);
  }
}
