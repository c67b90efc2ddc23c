/** Labels, appearance, the title and the reports of what was not found: what operations keep of each. */
module AnnotationLabels {
  import opened Wrappers
  import opened Sequences
  import opened AnnotationDocument
  import opened AnnotationOps
  import opened AnnotationInvariants
  import opened AnnotationBatches

  // ----- labels

  ghost predicate LabelsDistinct(tx: Text, tags: seq<Tag>) {
    forall i, j :: 0 <= i < j < |tags| ==> !tx.SameLabel(tags[i].name, tags[j].name)
  }

  ghost predicate LabelPresent(tx: Text, tags: seq<Tag>, name: string) {
    exists t :: t in tags && tx.SameLabel(t.name, name)
  }

  /** The operation defines a tag by id with a label that some tag already has. */
  ghost predicate DefinesTaken(tx: Text, tags: seq<Tag>, op: Op) {
    match op
    case Mark(Some(tag), _) =>
      tag.id != "" && tag.id !in TagIds(tags) && tag.name.Some? && LabelPresent(tx, tags, tx.trim(tag.name.value))
    case MergeTag(source, Some(into)) =>
      source in TagIds(tags) && into.id !in TagIds(tags) && into.name.Some?
        && LabelPresent(tx, tags, tx.trim(into.name.value))
    case _ => false
  }

  lemma LabelsSnoc(tx: Text, tags: seq<Tag>, t: Tag)
    requires LabelsDistinct(tx, tags)
    ensures LabelsDistinct(tx, tags + [t]) <==> !LabelPresent(tx, tags, t.name)
  {
    var more := tags + [t];
    if LabelPresent(tx, tags, t.name) {
      var u :| u in tags && tx.SameLabel(u.name, t.name);
      var k :| 0 <= k < |tags| && tags[k] == u;
      assert more[k] == u && more[|tags|] == t;
    } else {
      forall i, j | 0 <= i < j < |more| ensures !tx.SameLabel(more[i].name, more[j].name) {
        if j == |tags| {
          assert more[i] in tags;
        } else {
          assert more[i] == tags[i] && more[j] == tags[j];
        }
      }
    }
  }

  lemma SameNamesDistinct(tx: Text, tags: seq<Tag>, tags': seq<Tag>)
    requires LabelsDistinct(tx, tags) && |tags'| == |tags|
    requires forall k :: 0 <= k < |tags| ==> tags'[k].name == tags[k].name
    ensures LabelsDistinct(tx, tags')
  {
  }

  lemma {:induction false} MatchIsPresent(tx: Text, tags: seq<Tag>, name: string)
    requires "" !in TagIds(tags)
    ensures LabelMatch(tx, tags, name) != "" <==> LabelPresent(tx, tags, name)
  {
    if tags != [] {
      assert tags == [tags[0]] + tags[1..] && tags[0].id in TagIds(tags);
      assert forall t :: t in tags[1..] ==> t in tags;
      MatchIsPresent(tx, tags[1..], name);
      if LabelPresent(tx, tags, name) && !tx.SameLabel(tags[0].name, name) {
        var t :| t in tags && tx.SameLabel(t.name, name);
        assert t in tags[1..];
      }
    }
  }

  lemma RelabelDistinct(tx: Text, w: Work, op: Op)
    requires op.Relabel? && ApplyRelabel(tx, w, op).Ok? && LabelsDistinct(tx, w.tags) && Distinct(w.tags, TagKey)
    ensures LabelsDistinct(tx, ApplyRelabel(tx, w, op).value.tags)
  {
    var at, tags := TagAt(w.tags, op.tagId), w.tags;
    if at.Some? {
      var tags' := ApplyRelabel(tx, w, op).value.tags;
      forall i, j | 0 <= i < j < |tags'| ensures !tx.SameLabel(tags'[i].name, tags'[j].name) {
        assert tags[i] in tags && tags[j] in tags && TagKey(tags[i]) != TagKey(tags[j]);
        assert TagKey(tags[at.value]) == op.tagId;
      }
    }
  }

  lemma MarkDistinct(tx: Text, w: Work, op: Op, duration: Int64, stamp: Stamp, mint: Mint)
    requires op.Mark? && ApplyMark(tx, w, op, duration, stamp, mint).Ok? && LabelsDistinct(tx, w.tags)
      && "" !in TagIds(w.tags)
    ensures LabelsDistinct(tx, ApplyMark(tx, w, op, duration, stamp, mint).value.tags) <==>
      !DefinesTaken(tx, w.tags, op)
  {
    var name := OpLabel(tx, op.tag.value.name).value;
    var id := op.tag.value.id;
    if FindTag(tx, w.tags, id, name) == "" {
      LabelsSnoc(tx, w.tags, Tag(if id != "" then id else mint.tag.value, name.value, None, None));
      if id == "" {
        MatchIsPresent(tx, w.tags, name.value);
      }
    }
  }

  lemma MergeDistinct(tx: Text, w: Work, op: Op)
    requires op.MergeTag? && ApplyMerge(tx, w, op).Ok? && LabelsDistinct(tx, w.tags)
    ensures LabelsDistinct(tx, ApplyMerge(tx, w, op).value.tags) <==> !DefinesTaken(tx, w.tags, op)
  {
    hide MergeItems, Targets, LabelOk;
    if op.tagId in TagIds(w.tags) && op.into.value.id !in TagIds(w.tags) {
      LabelsSnoc(tx, w.tags, Tag(op.into.value.id, OpLabel(tx, op.into.value.name).value.value, None, None));
    }
  }

  lemma RestyleDistinct(tx: Text, w: Work, op: Op)
    requires op.Restyle? && ApplyRestyle(w, op).Ok? && LabelsDistinct(tx, w.tags)
    ensures LabelsDistinct(tx, ApplyRestyle(w, op).value.tags)
  {
    SameNamesDistinct(tx, w.tags, ApplyRestyle(w, op).value.tags);
  }

  /** Removals and the title leave the tags alone. */
  lemma TagsUntouched(r: Request, w: Work, n: nat)
    requires n < |r.batch.ops| && ApplyOp(r, w, n).Ok?
    requires var op := r.batch.ops[n]; op.Unmark? || op.UnmarkTag? || op.UndoOperation? || op.SetTitle?
    ensures ApplyOp(r, w, n).value.tags == w.tags
  {
    hide Filter, TitleOk, TargetOk, ApplyMark, ApplyMerge, ApplyRelabel, ApplyRestyle;
  }

  /** Where labels are distinct, an operation leaves them distinct exactly when it does not define a tag
      by id under a label that is taken: a mark by label or a relabel never makes two alike. */
  lemma LabelsStayDistinctIff(r: Request, w: Work, n: nat)
    requires n < |r.batch.ops| && ApplyOp(r, w, n).Ok?
    requires LabelsDistinct(r.tx, w.tags) && Distinct(w.tags, TagKey) && "" !in TagIds(w.tags)
    ensures LabelsDistinct(r.tx, ApplyOp(r, w, n).value.tags) <==> !DefinesTaken(r.tx, w.tags, r.batch.ops[n])
  {
    hide ApplyMark, ApplyRelabel, ApplyMerge, ApplyRestyle, ApplySetTitle, ApplyUnmark, ApplyUnmarkTag,
      ApplyUndoOperation, LabelsDistinct;
    var op := r.batch.ops[n];
    match op
    case Mark(_, _) => MarkDistinct(r.tx, w, op, r.duration, r.stamp, r.mints(n));
    case Relabel(_, _) => RelabelDistinct(r.tx, w, op);
    case MergeTag(_, _) => MergeDistinct(r.tx, w, op);
    case Restyle(_, _, _) => RestyleDistinct(r.tx, w, op);
    case _ => TagsUntouched(r, w, n);
  }

  // ----- the title

  /** Setting a title again, by whoever and whenever, changes nothing: not even the attribution. */
  lemma SetTitleOnce(tx: Text, w: Work, op: Op, stamp: Stamp, later: Stamp)
    requires op.SetTitle? && ApplySetTitle(tx, w, op, stamp).Ok?
    ensures ApplySetTitle(tx, ApplySetTitle(tx, w, op, stamp).value, op, later) == ApplySetTitle(tx, w, op, stamp)
    ensures var m := ApplySetTitle(tx, w, op, stamp).value.meeting;
      (m.None? <==> op.title.None? || tx.trim(op.title.value) == "")
        && (m.Some? ==> m.value.title == tx.trim(op.title.value) && TitleOk(tx, m.value.title))
  {
  }

  // ----- what is reported as not found

  /** A removal removes exactly the marks it matches, keeps the rest in order, and reports the id it was
      given exactly when there was none. */
  lemma RemovalIsExact(w: Work, keep: Item -> bool, asked: string)
    ensures var w' := Remove(w, keep, asked);
      && (forall i :: i in w'.items <==> i in w.items && keep(i))
      && (forall i :: multiset(w'.items)[i] == if keep(i) then multiset(w.items)[i] else 0)
      && w'.notFound == (if forall i :: i in w.items ==> keep(i) then w.notFound + [asked] else w.notFound)
      && w'.tags == w.tags && w'.meeting == w.meeting
  {
    FilterMembers(w.items, keep);
    FilterMultiset(w.items, keep);
    FilterShorter(w.items, keep);
  }

  // ----- appearance

  predicate SameLook(a: Tag, b: Tag) {
    a.color == b.color && a.icon == b.icon
  }

  ghost predicate Restyled(r: Request, n: nat, id: string)
    requires n <= |r.batch.ops|
  {
    exists m :: 0 <= m < n && r.batch.ops[m].Restyle? && r.batch.ops[m].tagId == id
  }

  ghost predicate LookIn(tags: seq<Tag>, t: Tag) {
    exists b :: b in tags && b.id == t.id && SameLook(b, t)
  }

  function Blank(t: Tag): Tag {
    Tag(t.id, t.name, None, None)
  }

  /** A tag that no operation restyled looks as it did, as its trusted start, or like nothing yet. */
  ghost predicate LooksRight(base: Annotations, r: Request, t: Tag) {
    if t.id in TagIds(base.tags) then LookIn(base.tags, t)
    else if t.id in r.batch.initial then SameLook(r.batch.initial[t.id], t)
    else SameLook(Blank(t), t)
  }

  ghost predicate Looks(base: Annotations, r: Request, p: Progress, n: nat)
    requires n <= |r.batch.ops|
  {
    && p.seen <= TagIds(p.work.tags)
    && forall t :: t in p.work.tags ==>
         && (t.id !in TagIds(base.tags) && t.id in r.batch.initial ==> t.id in p.seen)
         && (!Restyled(r, n, t.id) ==> LooksRight(base, r, t))
  }

  /** What an operation does to the tags: a tag keeps its look unless the operation restyles it, and a
      new one has none. */
  ghost predicate LooksKept(tags: seq<Tag>, tags': seq<Tag>, op: Op) {
    && TagIds(tags) <= TagIds(tags')
    && forall t :: t in tags' ==>
         if t.id in TagIds(tags) then (op.Restyle? && op.tagId == t.id) || LookIn(tags, t)
         else SameLook(Blank(t), t)
  }

  lemma UpdatedLooks(tags: seq<Tag>, k: nat, t: Tag, op: Op)
    requires k < |tags| && t.id == tags[k].id && (SameLook(t, tags[k]) || (op.Restyle? && op.tagId == t.id))
    ensures LooksKept(tags, tags[k := t], op)
  {
    SameIdsKeeps(tags, tags[k := t]);
    forall x | x in tags[k := t] ensures (op.Restyle? && op.tagId == x.id) || LookIn(tags, x) {
      var i :| 0 <= i < |tags| && tags[k := t][i] == x;
      assert tags[i] in tags;
    }
  }

  lemma AddedLooks(tags: seq<Tag>, t: Tag, op: Op)
    requires t.id !in TagIds(tags) && SameLook(Blank(t), t)
    ensures LooksKept(tags, tags + [t], op)
  {
    TagIdsSnoc(tags, t);
    forall x | x in tags ensures LookIn(tags, x) && x.id in TagIds(tags) {
    }
  }

  lemma UnchangedLooks(tags: seq<Tag>, op: Op)
    ensures LooksKept(tags, tags, op)
  {
    forall x | x in tags ensures LookIn(tags, x) && x.id in TagIds(tags) {
    }
  }

  lemma OpLooks(r: Request, w: Work, n: nat)
    requires n < |r.batch.ops| && ApplyOp(r, w, n).Ok?
    requires r.mints(n).tag.Some? ==> r.mints(n).tag.value !in TagIds(w.tags)
    ensures LooksKept(w.tags, ApplyOp(r, w, n).value.tags, r.batch.ops[n])
  {
    hide LooksKept, MergeItems, Targets, Filter, LabelTaken, LabelOk, TargetOk, TitleOk, LabelMatch, Covered;
    var op, w' := r.batch.ops[n], ApplyOp(r, w, n).value;
    UnchangedLooks(w.tags, op);
    match op
    case Mark(tag, _) =>
      var name := OpLabel(r.tx, tag.value.name).value;
      if FindTag(r.tx, w.tags, tag.value.id, name) == "" {
        var id := if tag.value.id != "" then tag.value.id else r.mints(n).tag.value;
        AddedLooks(w.tags, Tag(id, name.value, None, None), op);
      }
    case Relabel(tagId, _) =>
      if TagAt(w.tags, tagId).Some? {
        UpdatedLooks(w.tags, TagAt(w.tags, tagId).value, w'.tags[TagAt(w.tags, tagId).value], op);
      }
    case Restyle(tagId, _, _) =>
      if TagAt(w.tags, tagId).Some? {
        UpdatedLooks(w.tags, TagAt(w.tags, tagId).value, w'.tags[TagAt(w.tags, tagId).value], op);
      }
    case MergeTag(source, into) =>
      if source in TagIds(w.tags) && into.value.id !in TagIds(w.tags) {
        AddedLooks(w.tags, Tag(into.value.id, OpLabel(r.tx, into.value.name).value.value, None, None), op);
      }
    case _ =>
  }

  /** What the starting appearances do to tags with unique ids: each is given once, to a tag the batch
      created, and to no other. */
  lemma {:induction false} InitializeLooks(tags: seq<Tag>, initial: map<string, Tag>, existing: set<string>,
                                           seen: set<string>)
    requires Distinct(tags, TagKey)
    ensures var (tags', seen') := Initialize(tags, initial, existing, seen);
      && seen <= seen' <= seen + TagIds(tags)
      && (forall k :: 0 <= k < |tags| ==>
            var gets := tags[k].id in initial && tags[k].id !in existing && tags[k].id !in seen;
            && tags'[k].id == tags[k].id && tags'[k].name == tags[k].name
            && SameLook(tags'[k], if gets then initial[tags[k].id] else tags[k])
            && (gets ==> tags[k].id in seen'))
  {
    if tags != [] {
      var before, last := Init(tags), Last(tags);
      assert tags == before + [last];
      DistinctSnoc(before, last, TagKey);
      TagIdsSnoc(before, last);
      InitializeLooks(before, initial, existing, seen);
      forall t | t in before ensures t.id != last.id {
        assert TagKey(t) != TagKey(last);
      }
    }
  }

  lemma RestyledStep(r: Request, n: nat, id: string)
    requires n < |r.batch.ops|
    ensures Restyled(r, n + 1, id) <==> Restyled(r, n, id) || (r.batch.ops[n].Restyle? && r.batch.ops[n].tagId == id)
  {
    if Restyled(r, n, id) {
      var m :| 0 <= m < n && r.batch.ops[m].Restyle? && r.batch.ops[m].tagId == id;
    }
  }

  lemma LooksStep(base: Annotations, r: Request, p: Progress, w: Work, n: nat)
    requires n < |r.batch.ops| && Looks(base, r, p, n) && LooksKept(p.work.tags, w.tags, r.batch.ops[n])
    requires TagIds(base.tags) <= TagIds(p.work.tags) && Distinct(w.tags, TagKey)
    ensures var (tags, seen) := Initialize(w.tags, r.batch.initial, TagIds(base.tags), p.seen);
      Looks(base, r, Progress(w.(tags := tags), seen), n + 1) && TagIds(base.tags) <= TagIds(tags)
  {
    var existing := TagIds(base.tags);
    var (tags, seen) := Initialize(w.tags, r.batch.initial, existing, p.seen);
    InitializeLooks(w.tags, r.batch.initial, existing, p.seen);
    SameIdsKeeps(w.tags, tags);
    forall t | t in tags
      ensures t.id !in existing && t.id in r.batch.initial ==> t.id in seen
      ensures !Restyled(r, n + 1, t.id) ==> LooksRight(base, r, t)
    {
      var k :| 0 <= k < |tags| && tags[k] == t;
      var u := w.tags[k];
      assert u in w.tags;
      RestyledStep(r, n, t.id);
      if !Restyled(r, n + 1, t.id) && u.id in TagIds(p.work.tags) {
        assert LookIn(p.work.tags, u);
        var b :| b in p.work.tags && b.id == u.id && SameLook(b, u);
        SameLookRight(base, r, b, t);
      }
    }
  }

  lemma SameLookRight(base: Annotations, r: Request, a: Tag, b: Tag)
    requires a.id == b.id && SameLook(a, b)
    ensures LooksRight(base, r, a) <==> LooksRight(base, r, b)
  {
  }

  lemma RunLooks(base: Annotations, r: Request)
    requires FreshMints(base, r) && Distinct(base.tags, TagKey)
    requires RunOps(r, Start(base), TagIds(base.tags), |r.batch.ops|).Ok?
    ensures Looks(base, r, RunOps(r, Start(base), TagIds(base.tags), |r.batch.ops|).value, |r.batch.ops|)
  {
    var existing, n := TagIds(base.tags), |r.batch.ops|;
    var keeps := (p: Progress, k: nat) =>
      && k <= n && Looks(base, r, p, k) && existing <= TagIds(p.work.tags)
      && Distinct(p.work.tags, TagKey) && KnownTags(base, r, p.work.tags, k);
    forall p, k: nat | k < n && keeps(p, k) && Steps(r, existing)(p, k).Ok?
      ensures keeps(Steps(r, existing)(p, k).value, k + 1)
    {
      AdvanceLooks(base, r, p, k);
    }
    StartLooks(base, r);
    IterateKeeps(Progress(Start(base), {}), Steps(r, existing), n, keeps);
  }

  lemma StartLooks(base: Annotations, r: Request)
    ensures Looks(base, r, Progress(Start(base), {}), 0)
  {
    forall t | t in base.tags ensures t.id in TagIds(base.tags) && LooksRight(base, r, t) {
    }
  }

  lemma AdvanceLooks(base: Annotations, r: Request, p: Progress, n: nat)
    requires n < |r.batch.ops| && FreshMints(base, r) && Distinct(p.work.tags, TagKey)
    requires KnownTags(base, r, p.work.tags, n) && Looks(base, r, p, n) && TagIds(base.tags) <= TagIds(p.work.tags)
    requires Advance(r, p, TagIds(base.tags), n).Ok?
    ensures var q := Advance(r, p, TagIds(base.tags), n).value;
      && Looks(base, r, q, n + 1) && TagIds(base.tags) <= TagIds(q.work.tags)
      && Distinct(q.work.tags, TagKey) && KnownTags(base, r, q.work.tags, n + 1)
  {
    AdvanceKeepsTags(base, r, p, n);
    KnownTagsFresh(base, r, p.work.tags, n);
    OpLooks(r, p.work, n);
    OpKeepsTags(r, p.work, n);
    LooksStep(base, r, p, ApplyOp(r, p.work, n).value, n);
  }

  /** Starting appearances and styles never restyle: after any batch a tag the document had looks as it
      did, a tag created with a trusted start has that, and any other new tag has what the batch's styles
      give its label, unless an operation restyled it. */
  lemma StylingIsForCreation(current: Option<Annotations>, r: Request, t: Tag)
    requires ApplyBatch(current, r).Ok? && FreshMints(Base(current), r)
    requires Distinct(Base(current).tags, TagKey)
    requires t in ApplyBatch(current, r).value.doc.tags
    requires forall op :: op in r.batch.ops && op.Restyle? ==> op.tagId != t.id
    ensures var base := Base(current);
      if t.id in TagIds(base.tags) then LookIn(base.tags, t)
      else if t.id in r.batch.initial then SameLook(r.batch.initial[t.id], t)
      else StyledTo(r, TagIds(base.tags), Blank(t), t)
  {
    hide StyledTo;
    var base, n := Base(current), |r.batch.ops|;
    RunLooks(base, r);
    FinishLooks(base, r, RunOps(r, Start(base), TagIds(base.tags), n).value, t);
    StyledToIs(r, TagIds(base.tags), Blank(t), t);
  }

  lemma {:induction false} StyledLook(tx: Text, a: Tag, styles: seq<TagStyle>, initial: map<string, Tag>,
                                      existing: set<string>)
    ensures a.id in existing || a.id in initial ==> Styled(tx, a, styles, initial, existing) == a
  {
    if styles != [] {
      StyledLook(tx, a, Init(styles), initial, existing);
    }
  }

  lemma FinishLooks(base: Annotations, r: Request, p: Progress, t: Tag)
    requires Looks(base, r, p, |r.batch.ops|) && t in Finish(r, base, p.work).tags
    requires forall op :: op in r.batch.ops && op.Restyle? ==> op.tagId != t.id
    ensures if t.id in TagIds(base.tags) then LookIn(base.tags, t)
      else if t.id in r.batch.initial then SameLook(r.batch.initial[t.id], t)
      else t == Styled(r.tx, Blank(t), r.batch.styles, r.batch.initial, TagIds(base.tags))
  {
    var existing := TagIds(base.tags);
    var tags := StyledTags(r.tx, p.work.tags, r.batch.styles, r.batch.initial, existing);
    MultisetMembers(SortTags(r.tx, DropUnused(tags, p.work.items)), DropUnused(tags, p.work.items));
    FilterMembers(tags, IdIn(UsedIds(p.work.items)));
    var k :| 0 <= k < |tags| && tags[k] == t;
    var u := p.work.tags[k];
    assert u in p.work.tags;
    StyledLook(r.tx, u, r.batch.styles, r.batch.initial, existing);
    assert !Restyled(r, |r.batch.ops|, u.id);
    assert LooksRight(base, r, u);
    if t.id !in existing && t.id !in r.batch.initial {
      assert u == Blank(t);
    }
  }
}
