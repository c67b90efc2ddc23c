/** What a whole batch does: its operations one after the other, starting looks for tags as they are
    created, styles at the end, and the report. */
module AnnotationBatches {
  import opened Wrappers
  import opened Sequences
  import opened AnnotationDocument
  import opened AnnotationOps
  import opened AnnotationInvariants
  import opened AnnotationEffects

  // ----- looks of new tags

  /** A tag created by this operation gets its trusted starting look; every other tag is left alone. */
  ghost predicate Dressed(r: Request, existing: set<string>, before: Work, after: Work, next: Work) {
    && next == after.(tags := next.tags) && |next.tags| == |after.tags|
    && forall j :: 0 <= j < |next.tags| ==>
         var t := after.tags[j];
         next.tags[j] ==
           if t.id in r.batch.initial && t.id !in TagIds(before.tags) && t.id !in existing then
             Tag(t.id, t.name, r.batch.initial[t.id].color, r.batch.initial[t.id].icon)
           else t
  }

  /** An operation appends at most one tag and leaves the ids of the others. */
  ghost predicate Appends(tags: seq<Tag>, tags': seq<Tag>) {
    && |tags| <= |tags'| <= |tags| + 1
    && forall k :: 0 <= k < |tags| ==> tags'[k].id == tags[k].id
  }

  lemma OpAppends(r: Request, w: Work, n: nat)
    requires n < |r.batch.ops| && ApplyOp(r, w, n).Ok?
    ensures Appends(w.tags, ApplyOp(r, w, n).value.tags)
  {
    hide LabelOk, TargetOk, TitleOk, LabelMatch, LabelTaken, MergeItems, Targets, Filter, Covered, TagIds;
  }

  lemma {:induction false} InitializeIdle(tags: seq<Tag>, initial: map<string, Tag>, existing: set<string>,
                                          seen: set<string>)
    requires forall t :: t in tags && t.id in initial && t.id !in existing ==> t.id in seen
    ensures Initialize(tags, initial, existing, seen) == (tags, seen)
  {
    if tags != [] {
      InitializeIdle(Init(tags), initial, existing, seen);
      assert tags == Init(tags) + [Last(tags)];
    }
  }

  /** Starting looks given so far: exactly to the tags that are there and have one. */
  ghost predicate Given(r: Request, existing: set<string>, p: Progress) {
    forall id :: id in r.batch.initial && id !in existing ==> (id in p.seen <==> id in TagIds(p.work.tags))
  }

  lemma InitializeDresses(r: Request, existing: set<string>, p: Progress, after: Work)
    requires Given(r, existing, p) && Appends(p.work.tags, after.tags)
    ensures var (tags, seen) := Initialize(after.tags, r.batch.initial, existing, p.seen);
      && Dressed(r, existing, p.work, after, after.(tags := tags))
      && Given(r, existing, Progress(after.(tags := tags), seen))
  {
    var n := |p.work.tags|;
    var same := after.tags[..n];
    SameIdsKeeps(p.work.tags, same);
    forall t | t in same ensures t.id in TagIds(p.work.tags) {
      assert t.id in TagIds(same);
    }
    InitializeIdle(same, r.batch.initial, existing, p.seen);
    if |after.tags| == n {
      assert after.tags == same;
      forall j | 0 <= j < n ensures after.tags[j].id in TagIds(p.work.tags) {
        assert same[j] in same;
      }
    } else {
      assert Init(after.tags) == same;
      DressedLast(r, existing, p, after, same);
    }
  }

  /** What `Initialize` makes of one more tag after tags it leaves alone. */
  lemma InitializeOneMore(same: seq<Tag>, t: Tag, initial: map<string, Tag>, existing: set<string>, seen: set<string>)
    requires Initialize(same, initial, existing, seen) == (same, seen)
    ensures Initialize(same + [t], initial, existing, seen) ==
      if t.id in initial && t.id !in existing && t.id !in seen then
        (same + [Tag(t.id, t.name, initial[t.id].color, initial[t.id].icon)], seen + {t.id})
      else (same + [t], seen)
  {
    assert Init(same + [t]) == same;
  }

  lemma DressedLast(r: Request, existing: set<string>, p: Progress, after: Work, same: seq<Tag>)
    requires Given(r, existing, p) && after.tags != [] && same == Init(after.tags)
    requires TagIds(same) == TagIds(p.work.tags)
    requires Initialize(same, r.batch.initial, existing, p.seen) == (same, p.seen)
    ensures var (tags, seen) := Initialize(after.tags, r.batch.initial, existing, p.seen);
      && Dressed(r, existing, p.work, after, after.(tags := tags))
      && Given(r, existing, Progress(after.(tags := tags), seen))
  {
    var t := Last(after.tags);
    assert after.tags == same + [t];
    InitializeOneMore(same, t, r.batch.initial, existing, p.seen);
    SameAreKnown(same, p.work.tags);
    hide Initialize, TagIds;
    var (tags, seen) := Initialize(after.tags, r.batch.initial, existing, p.seen);
    LastIsDressed(r, existing, p, after, same, t, tags);
    TagIdsSnoc(same, Last(tags));
    GivenOneMore(r, existing, p, same, t, tags, seen, after.(tags := tags));
  }

  lemma SameAreKnown(same: seq<Tag>, tags: seq<Tag>)
    requires TagIds(same) == TagIds(tags)
    ensures forall j :: 0 <= j < |same| ==> same[j].id in TagIds(tags)
  {
    forall j | 0 <= j < |same| ensures same[j].id in TagIds(tags) {
      assert same[j] in same;
    }
  }

  ghost predicate GetsLook(r: Request, existing: set<string>, t: Tag, seen: set<string>) {
    t.id in r.batch.initial && t.id !in existing && t.id !in seen
  }

  lemma LastIsDressed(r: Request, existing: set<string>, p: Progress, after: Work, same: seq<Tag>, t: Tag,
                      tags: seq<Tag>)
    requires Given(r, existing, p) && after.tags == same + [t]
    requires forall j :: 0 <= j < |same| ==> same[j].id in TagIds(p.work.tags)
    requires tags == same + [if GetsLook(r, existing, t, p.seen) then
                               Tag(t.id, t.name, r.batch.initial[t.id].color, r.batch.initial[t.id].icon) else t]
    ensures Dressed(r, existing, p.work, after, after.(tags := tags))
  {
    hide TagIds;
    forall j | 0 <= j < |same| ensures after.tags[j] == same[j] && tags[j] == same[j] {
    }
  }

  lemma GivenOneMore(r: Request, existing: set<string>, p: Progress, same: seq<Tag>, t: Tag, tags: seq<Tag>,
                     seen: set<string>, next: Work)
    requires Given(r, existing, p) && TagIds(same) == TagIds(p.work.tags) && next.tags == tags
    requires TagIds(tags) == TagIds(same) + {t.id}
    requires seen == if GetsLook(r, existing, t, p.seen) then p.seen + {t.id} else p.seen
    ensures Given(r, existing, Progress(next, seen))
  {
    hide TagIds;
  }

  // ----- the operations one after the other

  /** What the operations leave one by one, as far as they succeed. */
  ghost predicate IsTrace(r: Request, base: Annotations, works: seq<Work>) {
    && 1 <= |works| <= |r.batch.ops| + 1 && works[0] == Work(base.tags, base.items, base.meeting, [])
    && forall k :: 0 <= k < |works| - 1 ==>
         && ApplyOp(r, works[k], k).Ok?
         && Dressed(r, TagIds(base.tags), works[k], ApplyOp(r, works[k], k).value, works[k + 1])
  }

  lemma TraceSnoc(r: Request, base: Annotations, works: seq<Work>, next: Work)
    requires IsTrace(r, base, works) && |works| <= |r.batch.ops|
    requires ApplyOp(r, Last(works), |works| - 1).Ok?
    requires Dressed(r, TagIds(base.tags), Last(works), ApplyOp(r, Last(works), |works| - 1).value, next)
    ensures IsTrace(r, base, works + [next])
  {
    hide ApplyOp, Dressed;
    var more := works + [next];
    forall k | 0 <= k < |more| - 1
      ensures ApplyOp(r, more[k], k).Ok?
      ensures Dressed(r, TagIds(base.tags), more[k], ApplyOp(r, more[k], k).value, more[k + 1])
    {
      assert more[k] == works[k];
      if k < |works| - 1 {
        assert more[k + 1] == works[k + 1];
      }
    }
  }

  lemma {:induction false} TraceTo(r: Request, base: Annotations, n: nat) returns (works: seq<Work>)
    requires n <= |r.batch.ops|
    ensures IsTrace(r, base, works)
    ensures match RunOps(r, Start(base), TagIds(base.tags), n)
      case Ok(p) => |works| == n + 1 && Last(works) == p.work && Given(r, TagIds(base.tags), p)
      case Err(e) => |works| <= n && ApplyOp(r, Last(works), |works| - 1) == Err(e)
  {
    hide ApplyOp, Dressed, Initialize, TagIds;
    var existing := TagIds(base.tags);
    if n == 0 {
      works := [Start(base)];
      StartGiven(r, base);
    } else {
      works := TraceTo(r, base, n - 1);
      var before := RunOps(r, Start(base), existing, n - 1);
      if before.Ok? && ApplyOp(r, before.value.work, n - 1).Ok? {
        var after := ApplyOp(r, before.value.work, n - 1).value;
        OpAppends(r, before.value.work, n - 1);
        InitializeDresses(r, existing, before.value, after);
        var next := after.(tags := Initialize(after.tags, r.batch.initial, existing, before.value.seen).0);
        TraceSnoc(r, base, works, next);
        works := works + [next];
      }
    }
  }

  lemma StartGiven(r: Request, base: Annotations)
    ensures Given(r, TagIds(base.tags), Progress(Start(base), {}))
  {
  }

  // ----- styles

  /** The last style of the batch for a label. */
  ghost predicate LastStyle(tx: Text, styles: seq<TagStyle>, name: string, k: nat) {
    && k < |styles| && tx.SameLabel(name, styles[k].name)
    && forall j :: k < j < |styles| ==> !tx.SameLabel(name, styles[j].name)
  }

  /** How a tag comes out: styled only if the batch created it without a starting look, and then with the
      colour and the icon of the last style for its label, or no icon if that has none. */
  ghost predicate StyledBy(tx: Text, styles: seq<TagStyle>, initial: map<string, Tag>, existing: set<string>,
                           t: Tag, out: Tag)
  {
    var given := t.id in existing || t.id in initial;
    && (given || (forall k: nat :: !LastStyle(tx, styles, t.name, k)) ==> out == t)
    && (!given ==>
          forall k: nat :: LastStyle(tx, styles, t.name, k) ==>
            var icon := if styles[k].icon.Some? then styles[k].icon else Some("");
            out == Tag(t.id, t.name, Some(styles[k].color), icon))
  }

  ghost predicate StyledTo(r: Request, existing: set<string>, t: Tag, out: Tag) {
    StyledBy(r.tx, r.batch.styles, r.batch.initial, existing, t, out)
  }

  lemma LastStyleSnoc(tx: Text, styles: seq<TagStyle>, name: string)
    requires styles != []
    ensures forall k: nat :: LastStyle(tx, styles, name, k) <==>
      if tx.SameLabel(name, Last(styles).name) then k == |styles| - 1 else LastStyle(tx, Init(styles), name, k)
  {
    forall k: nat
      ensures LastStyle(tx, styles, name, k) <==>
        if tx.SameLabel(name, Last(styles).name) then k == |styles| - 1 else LastStyle(tx, Init(styles), name, k)
    {
      assert k < |styles| - 1 ==> (forall j :: k < j < |styles| - 1 ==> Init(styles)[j] == styles[j]);
      assert Last(styles) == styles[|styles| - 1];
    }
  }

  lemma {:induction false} StyledIsLast(tx: Text, t: Tag, styles: seq<TagStyle>, initial: map<string, Tag>,
                                        existing: set<string>)
    ensures StyledBy(tx, styles, initial, existing, t, Styled(tx, t, styles, initial, existing))
  {
    if styles != [] {
      StyledIsLast(tx, t, Init(styles), initial, existing);
      LastStyleSnoc(tx, styles, t.name);
      LastStyleBound(tx, Init(styles), t.name);
      if tx.SameLabel(t.name, Last(styles).name) {
        assert LastStyle(tx, styles, t.name, |styles| - 1);
      }
      hide LastStyle;
      assert forall k: nat :: k < |styles| - 1 ==> Init(styles)[k] == styles[k];
    }
  }

  lemma LastStyleBound(tx: Text, styles: seq<TagStyle>, name: string)
    ensures forall k: nat :: LastStyle(tx, styles, name, k) ==> k < |styles|
  {
  }

  // ----- the report

  ghost predicate SameElements(xs: seq<string>, ys: seq<string>) {
    forall x :: x in xs <==> x in ys
  }

  /** The first of `once` are those that appear in the first p of `xs`. */
  ghost predicate UpTo(xs: seq<string>, once: seq<string>, p: nat)
    requires p <= |xs|
  {
    exists q: nat :: q <= |once| && SameElements(once[..q], xs[..p])
  }

  /** `once` lists what `xs` lists, each once, in the order of first appearance. */
  ghost predicate EachOnce(xs: seq<string>, once: seq<string>) {
    && SameElements(once, xs) && (forall i, j :: 0 <= i < j < |once| ==> once[i] != once[j])
    && (forall p: nat :: p <= |xs| ==> UpTo(xs, once, p))
  }

  lemma OnceOfNone()
    ensures EachOnce([], [])
  {
    var none: seq<string> := [];
    assert SameElements(none[..0], none[..0]);
  }

  lemma {:induction false} UniqueIsOnce(xs: seq<string>)
    ensures EachOnce(xs, Unique(xs))
  {
    hide EachOnce;
    if xs == [] {
      OnceOfNone();
    } else {
      UniqueIsOnce(Init(xs));
      OnceSnoc(Init(xs), Unique(Init(xs)), Last(xs));
      assert xs == Init(xs) + [Last(xs)];
      assert Unique(Init(xs)) + [] == Unique(Init(xs));
    }
  }

  lemma UpToSnoc(xs: seq<string>, once: seq<string>, ys: seq<string>, more: seq<string>, p: nat)
    requires p <= |xs| && UpTo(xs, once, p) && xs <= ys && once <= more
    ensures UpTo(ys, more, p)
  {
    var q: nat :| q <= |once| && SameElements(once[..q], xs[..p]);
    assert more[..q] == once[..q] && ys[..p] == xs[..p];
  }

  lemma OnceSnoc(xs: seq<string>, once: seq<string>, x: string)
    requires EachOnce(xs, once)
    ensures EachOnce(xs + [x], if x in xs then once else once + [x])
  {
    var ys, more := xs + [x], if x in xs then once else once + [x];
    assert SameElements(more, ys);
    forall p: nat | p <= |ys| ensures UpTo(ys, more, p) {
      if p <= |xs| {
        UpToSnoc(xs, once, ys, more, p);
      } else {
        assert ys[..p] == ys && more[..|more|] == more;
      }
    }
  }

  /** The ids, in the order of `items`, of the marks that `others` has none of. */
  ghost predicate IdsNotIn(items: seq<Item>, others: seq<Item>, ids: seq<string>) {
    var lacking := Filter(items, (i: Item) => !exists o :: o in others && o.id == i.id);
    |ids| == |lacking| && forall k :: 0 <= k < |ids| ==> ids[k] == lacking[k].id
  }

  lemma {:induction false} NewIdsInOrder(from: seq<Item>, to: seq<Item>)
    ensures IdsNotIn(to, from, NewIds(from, to))
  {
    if to != [] {
      NewIdsInOrder(from, Init(to));
    }
  }

  // ----- a whole batch

  /** What a batch that ran to its end leaves: the marks and the title as the last operation left them; of
      its tags those that marks name, styled; and what the operations did not find, each id once. */
  ghost predicate Left(r: Request, base: Annotations, w: Work, o: Outcome) {
    && multiset(o.doc.items) == multiset(w.items) && o.doc.meeting == w.meeting
    && o.doc == base.(tags := o.doc.tags, items := o.doc.items, meeting := o.doc.meeting)
    && (forall out :: out in o.doc.tags <==>
          exists t :: t in w.tags && StyledTo(r, TagIds(base.tags), t, out) && t.id in UsedIds(w.items))
    && EachOnce(w.notFound, o.notFound)
  }

  lemma StyledToIs(r: Request, existing: set<string>, t: Tag, out: Tag)
    ensures StyledTo(r, existing, t, out) <==> out == Styled(r.tx, t, r.batch.styles, r.batch.initial, existing)
  {
    StyledIsLast(r.tx, t, r.batch.styles, r.batch.initial, existing);
    HasLastStyle(r.tx, r.batch.styles, t.name);
  }

  lemma HasLastStyle(tx: Text, styles: seq<TagStyle>, name: string)
    ensures (forall k: nat :: !LastStyle(tx, styles, name, k)) || exists k: nat :: LastStyle(tx, styles, name, k)
  {
  }

  lemma FinishLeaves(r: Request, base: Annotations, w: Work, out: Tag)
    ensures out in Finish(r, base, w).tags <==>
      exists t :: t in w.tags && StyledTo(r, TagIds(base.tags), t, out) && t.id in UsedIds(w.items)
  {
    hide StyledTo, Styled, TagBelow, ItemBelow;
    var existing := TagIds(base.tags);
    var styled := StyledTags(r.tx, w.tags, r.batch.styles, r.batch.initial, existing);
    var kept := DropUnused(styled, w.items);
    MultisetMembers(SortTags(r.tx, kept), kept);
    FilterMembers(styled, IdIn(UsedIds(w.items)));
    if out in kept {
      var k :| 0 <= k < |styled| && styled[k] == out;
      StyledToIs(r, existing, w.tags[k], out);
      assert w.tags[k] in w.tags;
    }
    forall t | t in w.tags && StyledTo(r, existing, t, out) && t.id in UsedIds(w.items) ensures out in kept {
      var k :| 0 <= k < |w.tags| && w.tags[k] == t;
      StyledToIs(r, existing, t, out);
      assert styled[k] == out;
    }
  }

  /** A batch is its operations one after the other on a copy, up to the first that is refused, whose
      refusal it then is. */
  lemma BatchMeans(current: Option<Annotations>, r: Request)
    ensures match ApplyBatch(current, r)
      case Ok(o) =>
        && (exists works :: IsTrace(r, Base(current), works) && |works| == |r.batch.ops| + 1
                            && Left(r, Base(current), Last(works), o))
        && IdsNotIn(o.doc.items, SortItems(Base(current).items), o.added)
        && IdsNotIn(SortItems(Base(current).items), o.doc.items, o.removed)
      case Err(e) =>
        exists works :: IsTrace(r, Base(current), works) && |works| <= |r.batch.ops|
                        && ApplyOp(r, Last(works), |works| - 1) == Err(e)
  {
    var base := Base(current);
    var works := TraceTo(r, base, |r.batch.ops|);
    hide IsTrace, Given, Unique, NewIds, StyledTo, RunOps;
    if ApplyBatch(current, r).Ok? {
      var w, o := Last(works), ApplyBatch(current, r).value;
      UniqueIsOnce(w.notFound);
      NewIdsInOrder(SortItems(base.items), o.doc.items);
      NewIdsInOrder(o.doc.items, SortItems(base.items));
      FinishLeft(r, base, w, o);
    }
  }

  lemma FinishLeft(r: Request, base: Annotations, w: Work, o: Outcome)
    requires o.doc == Finish(r, base, w) && EachOnce(w.notFound, o.notFound)
    ensures Left(r, base, w, o)
  {
    hide EachOnce, StyledTo, StyledTags, DropUnused, SortTags, SortItems;
    forall out
      ensures out in o.doc.tags <==>
        exists t :: t in w.tags && StyledTo(r, TagIds(base.tags), t, out) && t.id in UsedIds(w.items)
    {
      FinishLeaves(r, base, w, out);
    }
  }

  // ----- batches of one removal

  /** The outcome of a batch that only takes marks out: the others are left, of the tags those they name,
      the title as it was, and the id asked for is reported exactly when it picked no mark. */
  ghost predicate OnlyWithout(base: Annotations, o: Outcome, gone: Item -> bool, asked: string) {
    && (forall i :: i in o.doc.items <==> i in base.items && !gone(i))
    && (forall t :: t in o.doc.tags <==> t in base.tags && exists i :: i in base.items && !gone(i) && i.tagId == t.id)
    && o.doc.meeting == base.meeting
    && o.notFound == if exists i :: i in base.items && gone(i) then [] else [asked]
  }

  lemma OnceOfOne(xs: seq<string>, once: seq<string>)
    requires EachOnce(xs, once) && |xs| <= 1
    ensures once == xs
  {
    if xs == [] && once != [] {
      FirstIsThere(once);
    } else if xs != [] {
      assert xs[0] in once;
      forall k | 0 <= k < |once| ensures once[k] == xs[0] {
        assert once[k] in once;
      }
      if |once| > 1 {
        SecondIsThere(once);
      }
    }
  }

  lemma FirstIsThere(once: seq<string>)
    requires once != []
    ensures once[0] in once
  {
  }

  lemma SecondIsThere(once: seq<string>)
    requires |once| > 1
    ensures once[0] in once && once[1] in once
  {
  }

  lemma ExistingStay(r: Request, base: Annotations, before: Work, after: Work, next: Work)
    requires Dressed(r, TagIds(base.tags), before, after, next) && after.tags == base.tags
    ensures next == after
    ensures forall t, out :: t in base.tags ==> (StyledTo(r, TagIds(base.tags), t, out) <==> out == t)
  {
    assert forall t :: t in base.tags ==> t.id in TagIds(base.tags);
    forall t, out | t in base.tags ensures StyledTo(r, TagIds(base.tags), t, out) <==> out == t {
      StyledToIs(r, TagIds(base.tags), t, out);
      StyledIsLast(r.tx, t, r.batch.styles, r.batch.initial, TagIds(base.tags));
    }
  }

  /** What a batch of one operation that leaves the tags alone leaves. */
  lemma OneOperation(r: Request, base: Annotations, works: seq<Work>, o: Outcome)
    requires |r.batch.ops| == 1 && IsTrace(r, base, works) && |works| == 2 && Left(r, base, Last(works), o)
    requires ApplyOp(r, Start(base), 0).value.tags == base.tags
    ensures var after := ApplyOp(r, Start(base), 0).value;
      && (forall i :: i in o.doc.items <==> i in after.items) && o.doc.meeting == after.meeting
      && (forall t :: t in o.doc.tags <==> t in base.tags && t.id in UsedIds(after.items))
      && EachOnce(after.notFound, o.notFound)
  {
    hide ApplyOp, Dressed, StyledTo, EachOnce, UsedIds;
    var after := ApplyOp(r, Start(base), 0).value;
    assert Dressed(r, TagIds(base.tags), works[0], after, works[0 + 1]);
    ExistingStay(r, base, works[0], after, works[1]);
    MultisetMembers(o.doc.items, after.items);
  }

  lemma RemovalOutcome(current: Option<Annotations>, r: Request, gone: Item -> bool, asked: string)
    requires |r.batch.ops| == 1
    requires var w := Start(Base(current)); ApplyOp(r, w, 0).Ok? && TakenOut(w, ApplyOp(r, w, 0).value, gone, asked)
    ensures ApplyBatch(current, r).Ok? && OnlyWithout(Base(current), ApplyBatch(current, r).value, gone, asked)
  {
    BatchMeans(current, r);
    hide ApplyBatch, ApplyOp, Dressed, EachOnce, Filter, Left;
    var base := Base(current);
    var after := ApplyOp(r, Start(base), 0).value;
    if ApplyBatch(current, r).Ok? {
      var o := ApplyBatch(current, r).value;
      var works :| IsTrace(r, base, works) && |works| == 2 && Left(r, base, Last(works), o);
      OneOperation(r, base, works, o);
      OnceOfOne(after.notFound, o.notFound);
      hide IsTrace, TakenOut;
      WithoutFollows(base, after, o, gone, asked);
    }
  }

  lemma WithoutFollows(base: Annotations, after: Work, o: Outcome, gone: Item -> bool, asked: string)
    requires TakenOut(Start(base), after, gone, asked)
    requires (forall i :: i in o.doc.items <==> i in after.items) && o.doc.meeting == after.meeting
    requires forall t :: t in o.doc.tags <==> t in base.tags && t.id in UsedIds(after.items)
    requires o.notFound == after.notFound
    ensures OnlyWithout(base, o, gone, asked)
  {
    hide Filter;
  }

  /** A batch of one `unmark`: the mark with the id goes and no other. */
  lemma UnmarkOutcome(current: Option<Annotations>, r: Request, id: string)
    requires r.batch.ops == [Unmark(id)] && id != ""
    ensures ApplyBatch(current, r).Ok?
    ensures OnlyWithout(Base(current), ApplyBatch(current, r).value, (i: Item) => i.id == id, id)
  {
    UnmarkEffect(r, Start(Base(current)), 0);
    RemovalOutcome(current, r, (i: Item) => i.id == id, id);
  }

  /** A batch of one `unmark-tag`: the marks of the tag go, or only that on the target. */
  lemma UnmarkTagOutcome(current: Option<Annotations>, r: Request, id: string, target: Option<Target>)
    requires r.batch.ops == [UnmarkTag(id, target)] && id != ""
    requires target.Some? ==> LegalTarget(target.value, r.duration)
    ensures ApplyBatch(current, r).Ok?
    ensures OnlyWithout(Base(current), ApplyBatch(current, r).value,
                        (i: Item) => i.tagId == id && (target == None || target == Some(i.target)), id)
  {
    var gone := (i: Item) => i.tagId == id && (target == None || target == Some(i.target));
    UnmarkTagEffect(r, Start(Base(current)), 0);
    SameTaken(Start(Base(current)), ApplyOp(r, Start(Base(current)), 0).value,
              (i: Item) => i.tagId == id && target in {None, Some(i.target)}, gone, id);
    RemovalOutcome(current, r, gone, id);
  }

  lemma SameTaken(w: Work, w': Work, gone: Item -> bool, gone': Item -> bool, asked: string)
    requires TakenOut(w, w', gone, asked) && forall i :: gone(i) <==> gone'(i)
    ensures TakenOut(w, w', gone', asked)
  {
    FilterSame(w.items, (i: Item) => !gone(i), (i: Item) => !gone'(i));
  }
}
