/** The document as an object that operations change in place, step by step as the program does, each
    method proved against the function of AnnotationOps that says what it makes of the document. */
module AnnotationEngine {
  import opened Wrappers
  import opened Sequences
  import opened Sorting
  import opened AnnotationDocument
  import opened AnnotationOps

  lemma InitializeNone(initial: map<string, Tag>, existing: set<string>, seen: set<string>)
    ensures Initialize([], initial, existing, seen) == ([], seen)
  {
  }

  lemma InitializeSnoc(tags: seq<Tag>, t: Tag, initial: map<string, Tag>, existing: set<string>, seen: set<string>)
    ensures var (before, seen') := Initialize(tags, initial, existing, seen);
      Initialize(tags + [t], initial, existing, seen) ==
        if t.id in initial && t.id !in existing && t.id !in seen' then
          (before + [t.(color := initial[t.id].color, icon := initial[t.id].icon)], seen' + {t.id})
        else (before + [t], seen')
  {
    assert Init(tags + [t]) == tags;
  }

  class Document {
    var format: string
    var revision: Int64
    var audio: string
    var namespace: string
    var tags: seq<Tag>
    var items: seq<Item>
    var meeting: Option<Meeting>

    ghost function Value(): Annotations
      reads this
    {
      Annotations(format, revision, audio, namespace, tags, items, meeting)
    }

    ghost function Work(notFound: seq<string>): Work
      reads this
    {
      AnnotationOps.Work(tags, items, meeting, notFound)
    }

    constructor (a: Annotations)
      ensures Value() == a
    {
      format, revision, audio, namespace := a.format, a.revision, a.audio, a.namespace;
      tags, items, meeting := a.tags, a.items, a.meeting;
    }

    static ghost function Current(doc: Document?): Option<Annotations>
      reads doc
    {
      if doc == null then None else Some(doc.Value())
    }

    /** An object of its own with the same content; without a document the content is `EMPTY`. */
    static method Clone(doc: Document?) returns (copy: Document)
      ensures fresh(copy) && copy.Value() == Base(Current(doc))
    {
      if doc == null {
        copy := new Document(EMPTY);
      } else {
        copy := new Document(Annotations(doc.format, doc.revision, doc.audio, doc.namespace, doc.tags, doc.items,
          doc.meeting));
      }
    }

    method Canonicalize(tx: Text)
      modifies this`tags, this`items
      ensures Sorted(tags, (a: Tag, b: Tag) => TagBelow(tx, a, b)) && multiset(tags) == multiset(old(tags))
      ensures Sorted(items, ItemBelow) && multiset(items) == multiset(old(items))
      ensures tags == SortTags(tx, old(tags)) && items == SortItems(old(items))
    {
      hide TagBelow, ItemBelow;
      TagOrder(tx);
      ItemOrder();
      SortSorted(tags, (a: Tag, b: Tag) => TagBelow(tx, a, b));
      SortSorted(items, ItemBelow);
      tags := SortTags(tx, tags);
      items := SortItems(items);
    }

    // ----- the loops operations share

    method FindTag(tx: Text, id: string, name: Option<string>) returns (found: string)
      ensures found == AnnotationOps.FindTag(tx, tags, id, name)
    {
      if id != "" {
        for n := 0 to |tags|
          invariant id !in TagIds(tags[..n])
        {
          if tags[n].id == id { return id; }
          assert tags[..n + 1] == tags[..n] + [tags[n]];
        }
        assert tags[..|tags|] == tags;
        return "";
      }
      if name.Some? {
        for n := 0 to |tags|
          invariant LabelMatch(tx, tags, name.value) == LabelMatch(tx, tags[n..], name.value)
        {
          if tx.SameLabel(tags[n].name, name.value) { return tags[n].id; }
        }
      }
      return "";
    }

    method IndexOf(id: string) returns (index: Option<nat>)
      ensures index == TagAt(tags, id)
    {
      for n := 0 to |tags|
        invariant id !in TagIds(tags[..n])
      {
        if tags[n].id == id {
          assert forall k :: 0 <= k < n ==> tags[..n][k] in tags[..n];
          return Some(n);
        }
        assert tags[..n + 1] == tags[..n] + [tags[n]];
      }
      assert tags[..|tags|] == tags;
      return None;
    }

    method LabelIsTaken(tx: Text, id: string, name: string) returns (taken: bool)
      ensures taken <==> LabelTaken(tx, tags, id, name)
    {
      for n := 0 to |tags|
        invariant forall t :: t in tags[..n] ==> t.id == id || !tx.SameLabel(t.name, name)
      {
        if tags[n].id != id && tx.SameLabel(tags[n].name, name) { return true; }
        assert tags[..n + 1] == tags[..n] + [tags[n]];
      }
      assert tags[..|tags|] == tags;
      return false;
    }

    method RemoveItems(keep: Item -> bool) returns (removed: nat)
      modifies this`items
      ensures items == Filter(old(items), keep) && removed == |old(items)| - |items|
    {
      var kept := [];
      for n := 0 to |items|
        invariant kept == Filter(items[..n], keep) && |kept| <= n
        invariant items == old(items)
      {
        assert Init(items[..n + 1]) == items[..n];
        if keep(items[n]) { kept := kept + [items[n]]; }
      }
      assert items[..|items|] == items;
      removed := |items| - |kept|;
      items := kept;
    }

    // ----- the eight operations

    method ApplyMark(tx: Text, op: Op, duration: Int64, stamp: Stamp, mint: Mint, ghost notFound: seq<string>)
      returns (err: Option<Failure>)
      requires op.Mark?
      modifies this`tags, this`items
      ensures var spec := AnnotationOps.ApplyMark(tx, old(Work(notFound)), op, duration, stamp, mint);
        if err.None? then spec == Ok(Work(notFound)) else spec == Err(err.value)
    {
      if op.tag.None? || op.target.None? { return Some(Refused(EXIT_INVALID)); }
      var name := OpLabel(tx, op.tag.value.name);
      if name.Err? { return Some(name.error); }
      var id, target := op.tag.value.id, op.target.value;
      if id == "" && name.value.None? { return Some(Refused(EXIT_INVALID)); }
      if !TargetOk(target, duration) { return Some(Refused(EXIT_INVALID)); }
      var tagId := FindTag(tx, id, name.value);
      if tagId == "" {
        if name.value.None? { return Some(Refused(EXIT_INVALID)); }
        tagId := id;
        if tagId == "" {
          if mint.tag.None? { return Some(NoRandomness); }
          tagId := mint.tag.value;
        }
        tags := tags + [Tag(tagId, name.value.value, None, None)];
      }
      for n := 0 to |items|
        invariant items == old(items)
        invariant forall i :: i in items[..n] ==> i.tagId != tagId || i.target != target
      {
        if items[n].tagId == tagId && items[n].target == target {
          assert items[n] in items;
          return None;
        }
        assert items[..n + 1] == items[..n] + [items[n]];
      }
      assert items[..|items|] == items;
      if mint.item.None? { return Some(NoRandomness); }
      items := items + [Item(mint.item.value, tagId, target, stamp.createdAt, stamp.actor, stamp.operationId)];
      return None;
    }

    method ApplyUnmark(op: Op, notFound: seq<string>) returns (err: Option<Failure>, missing: seq<string>)
      requires op.Unmark?
      modifies this`items
      ensures var spec := AnnotationOps.ApplyUnmark(old(Work(notFound)), op);
        if err.None? then spec == Ok(Work(missing)) else spec == Err(err.value)
    {
      missing := notFound;
      if op.itemId == "" { return Some(Refused(EXIT_INVALID)), missing; }
      var removed := RemoveItems(OtherThanItem(op.itemId));
      if removed == 0 { missing := missing + [op.itemId]; }
      err := None;
    }

    method ApplyUnmarkTag(op: Op, duration: Int64, notFound: seq<string>)
      returns (err: Option<Failure>, missing: seq<string>)
      requires op.UnmarkTag?
      modifies this`items
      ensures var spec := AnnotationOps.ApplyUnmarkTag(old(Work(notFound)), op, duration);
        if err.None? then spec == Ok(Work(missing)) else spec == Err(err.value)
    {
      missing := notFound;
      if op.tagId == "" { return Some(Refused(EXIT_INVALID)), missing; }
      if op.target.Some? && !TargetOk(op.target.value, duration) { return Some(Refused(EXIT_INVALID)), missing; }
      var removed := RemoveItems(OtherThanMark(op.tagId, op.target));
      if removed == 0 { missing := missing + [op.tagId]; }
      err := None;
    }

    method ApplyUndoOperation(op: Op, notFound: seq<string>) returns (err: Option<Failure>, missing: seq<string>)
      requires op.UndoOperation?
      modifies this`items
      ensures var spec := AnnotationOps.ApplyUndoOperation(old(Work(notFound)), op);
        if err.None? then spec == Ok(Work(missing)) else spec == Err(err.value)
    {
      missing := notFound;
      if op.operationId == "" { return Some(Refused(EXIT_INVALID)), missing; }
      var removed := RemoveItems(OtherThanOperation(op.operationId));
      if removed == 0 { missing := missing + [op.operationId]; }
      err := None;
    }

    method ApplyRelabel(tx: Text, op: Op, notFound: seq<string>) returns (err: Option<Failure>, missing: seq<string>)
      requires op.Relabel?
      modifies this`tags
      ensures var spec := AnnotationOps.ApplyRelabel(tx, old(Work(notFound)), op);
        if err.None? then spec == Ok(Work(missing)) else spec == Err(err.value)
    {
      missing := notFound;
      if op.tagId == "" || op.name.None? { return Some(Refused(EXIT_INVALID)), missing; }
      var name := OpLabel(tx, op.name);
      if name.Err? { return Some(name.error), missing; }
      var index := IndexOf(op.tagId);
      if index.None? { return None, missing + [op.tagId]; }
      var taken := LabelIsTaken(tx, op.tagId, name.value.value);
      if taken { return Some(Refused(EXIT_INVALID)), missing; }
      tags := tags[index.value := tags[index.value].(name := name.value.value)];
      err := None;
    }

    method ApplyRestyle(op: Op, notFound: seq<string>) returns (err: Option<Failure>, missing: seq<string>)
      requires op.Restyle?
      modifies this`tags
      ensures var spec := AnnotationOps.ApplyRestyle(old(Work(notFound)), op);
        if err.None? then spec == Ok(Work(missing)) else spec == Err(err.value)
    {
      missing := notFound;
      if op.tagId == "" || (op.color.None? && op.icon.None?) { return Some(Refused(EXIT_INVALID)), missing; }
      if op.color.Some? && op.color.value !in TAG_COLORS { return Some(Refused(EXIT_INVALID)), missing; }
      if op.icon.Some? && op.icon.value !in TAG_ICONS { return Some(Refused(EXIT_INVALID)), missing; }
      var index := IndexOf(op.tagId);
      if index.None? { return None, missing + [op.tagId]; }
      var k := index.value;
      ghost var tag := tags[k];
      if op.color.Some? { tags := tags[k := tags[k].(color := op.color)]; }
      if op.icon.Some? { tags := tags[k := tags[k].(icon := op.icon)]; }
      assert tags == old(tags)[k := tag.(
        color := if op.color.Some? then op.color else tag.color, icon := if op.icon.Some? then op.icon else tag.icon)];
      err := None;
    }

    method ApplyMerge(tx: Text, op: Op, notFound: seq<string>) returns (err: Option<Failure>, missing: seq<string>)
      requires op.MergeTag?
      modifies this`tags, this`items
      ensures var spec := AnnotationOps.ApplyMerge(tx, old(Work(notFound)), op);
        if err.None? then spec == Ok(Work(missing)) else spec == Err(err.value)
    {
      missing := notFound;
      if op.tagId == "" || op.into.None? || op.into.value.id == "" { return Some(Refused(EXIT_INVALID)), missing; }
      var name := OpLabel(tx, op.into.value.name);
      if name.Err? { return Some(name.error), missing; }
      var source, into := op.tagId, op.into.value.id;
      if name.value.None? || into == source { return Some(Refused(EXIT_INVALID)), missing; }
      var index := IndexOf(source);
      if index.None? { return None, missing + [source]; }
      var found := FindTag(tx, into, None);
      if found == "" {
        var taken := LabelIsTaken(tx, source, name.value.value);
        if taken { return Some(Refused(EXIT_INVALID)), missing; }
        tags := tags + [Tag(into, name.value.value, None, None)];
      }
      var covered := CoveredBy(into);
      items := MovedItems(source, into, covered);
      err := None;
    }

    method CoveredBy(into: string) returns (covered: set<Target>)
      ensures covered == Targets(items, into)
    {
      covered := {};
      assert items[0..] == items;
      for n := 0 to |items|
        invariant covered + Targets(items[n..], into) == Targets(items, into)
      {
        assert items[n..][0] == items[n] && items[n..][1..] == items[n + 1..];
        if items[n].tagId == into { covered := covered + {items[n].target}; }
      }
      assert items[|items|..] == [];
    }

    method MovedItems(source: string, into: string, start: set<Target>) returns (kept: seq<Item>)
      ensures kept == MergeItems(items, source, into, start)
    {
      kept := [];
      var covered := start;
      assert items[0..] == items;
      for n := 0 to |items|
        invariant kept + MergeItems(items[n..], source, into, covered) == MergeItems(items, source, into, start)
      {
        var item := items[n];
        assert items[n..][0] == item && items[n..][1..] == items[n + 1..];
        ghost var before := kept;
        if item.tagId == source {
          if item.target !in covered {
            kept := kept + [item.(tagId := into)];
            covered := covered + {item.target};
            ghost var rest := MergeItems(items[n + 1..], source, into, covered);
            assert before + ([item.(tagId := into)] + rest) == kept + rest;
          }
        } else {
          kept := kept + [item];
          ghost var rest := MergeItems(items[n + 1..], source, into, covered);
          assert before + ([item] + rest) == kept + rest;
        }
      }
      assert items[|items|..] == [];
    }

    method ApplySetTitle(tx: Text, op: Op, stamp: Stamp, ghost notFound: seq<string>) returns (err: Option<Failure>)
      requires op.SetTitle?
      modifies this`meeting
      ensures var spec := AnnotationOps.ApplySetTitle(tx, old(Work(notFound)), op, stamp);
        if err.None? then spec == Ok(Work(notFound)) else spec == Err(err.value)
    {
      var title := "";
      if op.title.Some? { title := tx.trim(op.title.value); }
      if title == "" {
        meeting := None;
        return None;
      }
      if !TitleOk(tx, title) { return Some(Refused(EXIT_INVALID)); }
      if meeting.Some? && meeting.value.title == title { return None; }
      meeting := Some(Meeting(title, stamp.createdAt, stamp.actor));
      return None;
    }

    method ApplyOp(r: Request, n: nat, notFound: seq<string>) returns (err: Option<Failure>, missing: seq<string>)
      requires n < |r.batch.ops|
      modifies this`tags, this`items, this`meeting
      ensures var spec := AnnotationOps.ApplyOp(r, old(Work(notFound)), n);
        if err.None? then spec == Ok(Work(missing)) else spec == Err(err.value)
    {
      var op := r.batch.ops[n];
      missing := notFound;
      match op {
        case Mark(_, _) => err := ApplyMark(r.tx, op, r.duration, r.stamp, r.mints(n), notFound);
        case Unmark(_) => err, missing := ApplyUnmark(op, notFound);
        case UnmarkTag(_, _) => err, missing := ApplyUnmarkTag(op, r.duration, notFound);
        case UndoOperation(_) => err, missing := ApplyUndoOperation(op, notFound);
        case Relabel(_, _) => err, missing := ApplyRelabel(r.tx, op, notFound);
        case MergeTag(_, _) => err, missing := ApplyMerge(r.tx, op, notFound);
        case Restyle(_, _, _) => err, missing := ApplyRestyle(op, notFound);
        case SetTitle(_) => err := ApplySetTitle(r.tx, op, r.stamp, notFound);
        case Unknown => err := Some(Refused(EXIT_INVALID));
      }
    }

    // ----- a whole batch

    method InitializeTags(initial: map<string, Tag>, existing: set<string>, seen: set<string>)
      returns (after: set<string>)
      modifies this`tags
      ensures (tags, after) == Initialize(old(tags), initial, existing, seen)
    {
      hide Initialize;
      InitializeNone(initial, existing, seen);
      after := seen;
      ghost var before := tags;
      ghost var done: seq<Tag> := [];
      for j := 0 to |tags|
        invariant |done| == j <= |before| == |tags|
        invariant (done, after) == Initialize(before[..j], initial, existing, seen)
        invariant tags == done + before[j..]
      {
        var tag, first := tags[j], tags[j];
        if tag.id in initial && tag.id !in existing && tag.id !in after {
          first := tag.(color := initial[tag.id].color, icon := initial[tag.id].icon);
          after := after + {tag.id};
        }
        tags := tags[j := first];
        InitializeSnoc(before[..j], before[j], initial, existing, seen);
        assert before[..j] + [before[j]] == before[..j + 1] && before[j..][1..] == before[j + 1..];
        UpdateNext(done, before[j..], first);
        done := done + [first];
      }
      assert before[..|before|] == before && done + before[|before|..] == done;
    }

    method StyleTags(tx: Text, styles: seq<TagStyle>, initial: map<string, Tag>, existing: set<string>)
      modifies this`tags
      ensures tags == StyledTags(tx, old(tags), styles, initial, existing)
    {
      ghost var before := tags;
      for s := 0 to |styles|
        invariant tags == StyledTags(tx, before, styles[..s], initial, existing)
      {
        assert Init(styles[..s + 1]) == styles[..s];
        for i := 0 to |tags|
          invariant |tags| == |before|
          invariant forall k :: 0 <= k < i ==> tags[k] == Styled(tx, before[k], styles[..s + 1], initial, existing)
          invariant forall k :: i <= k < |tags| ==> tags[k] == Styled(tx, before[k], styles[..s], initial, existing)
        {
          var tag, style := tags[i], styles[s];
          if !(tag.id in existing || tag.id in initial || !tx.SameLabel(tag.name, style.name)) {
            var icon := "";
            if style.icon.Some? { icon := style.icon.value; }
            tags := tags[i := tag.(color := Some(style.color), icon := Some(icon))];
          }
        }
      }
      assert styles[..|styles|] == styles;
    }

    method DropUnusedTags()
      modifies this`tags
      ensures tags == DropUnused(old(tags), items)
    {
      var used: set<string> := {};
      for n := 0 to |items|
        invariant used == UsedIds(items[..n])
      {
        used := used + {items[n].tagId};
        assert items[..n + 1] == items[..n] + [items[n]];
      }
      assert items[..|items|] == items;
      var kept: seq<Tag> := [];
      for n := 0 to |tags|
        invariant tags == old(tags) && kept == Filter(tags[..n], IdIn(used))
      {
        assert Init(tags[..n + 1]) == tags[..n];
        if tags[n].id in used { kept := kept + [tags[n]]; }
      }
      assert tags[..|tags|] == tags;
      tags := kept;
    }

    /** One operation, then the starting appearance of the tags it created. */
    method Step(r: Request, n: nat, existing: set<string>, notFound: seq<string>, seen: set<string>)
      returns (err: Option<Failure>, missing: seq<string>, after: set<string>)
      requires n < |r.batch.ops|
      modifies this`tags, this`items, this`meeting
      ensures var spec := Advance(r, Progress(old(Work(notFound)), seen), existing, n);
        if err.None? then spec == Ok(Progress(Work(missing), after)) else spec == Err(err.value)
    {
      err, missing := ApplyOp(r, n, notFound);
      after := seen;
      if err.None? {
        after := InitializeTags(r.batch.initial, existing, seen);
      }
    }

    /** Operation after operation; the first refused one ends the batch. */
    method RunBatch(r: Request, existing: set<string>) returns (err: Option<Failure>, notFound: seq<string>)
      modifies this`tags, this`items, this`meeting
      ensures var spec := RunOps(r, old(Work([])), existing, |r.batch.ops|);
        if err.None? then spec.Ok? && spec.value.work == Work(notFound) else spec == Err(err.value)
    {
      hide Advance;
      ghost var start := Work([]);
      notFound := [];
      var seen: set<string> := {};
      for n := 0 to |r.batch.ops|
        invariant RunOps(r, start, existing, n) == Ok(Progress(Work(notFound), seen))
      {
        err, notFound, seen := Step(r, n, existing, notFound, seen);
        if err.Some? {
          RunFails(r, start, existing, n + 1, |r.batch.ops|);
          return err, notFound;
        }
      }
      err := None;
    }

    /** Styles what the batch created, drops unused tags and sorts. */
    method FinishBatch(r: Request, existing: set<string>)
      modifies this`tags, this`items
      ensures items == SortItems(old(items))
      ensures tags == SortTags(r.tx,
        DropUnused(StyledTags(r.tx, old(tags), r.batch.styles, r.batch.initial, existing), old(items)))
    {
      StyleTags(r.tx, r.batch.styles, r.batch.initial, existing);
      DropUnusedTags();
      Canonicalize(r.tx);
    }
  }

  /** The ids of `to` that `from` lacks. */
  method Difference(from: seq<Item>, to: seq<Item>) returns (ids: seq<string>)
    ensures ids == NewIds(from, to)
  {
    var known: set<string> := set i | i in from :: i.id;
    ids := [];
    for n := 0 to |to|
      invariant ids == NewIds(from, to[..n])
    {
      assert Init(to[..n + 1]) == to[..n];
      if to[n].id !in known { ids := ids + [to[n].id]; }
    }
    assert to[..|to|] == to;
  }

  method UniqueStrings(values: seq<string>) returns (unique: seq<string>)
    ensures unique == Unique(values)
  {
    var seen: set<string> := {};
    unique := [];
    for n := 0 to |values|
      invariant unique == Unique(values[..n])
      invariant seen == set v | v in values[..n]
    {
      assert Init(values[..n + 1]) == values[..n];
      assert values[..n + 1] == values[..n] + [values[n]];
      if values[n] !in seen {
        seen := seen + {values[n]};
        unique := unique + [values[n]];
      }
    }
    assert values[..|values|] == values;
  }

  /** What an outcome says besides the document. */
  datatype Report = Report(changed: bool, added: seq<string>, removed: seq<string>, notFound: seq<string>)

  ghost predicate Reports(spec: Result<Outcome, Failure>, doc: Document?, report: Result<Report, Failure>)
    reads doc
  {
    match spec
    case Err(e) => report == Err(e)
    case Ok(o) => doc != null && o.doc == doc.Value() && report == Ok(Report(o.changed, o.added, o.removed, o.notFound))
  }

  method Summarize(before: Document, work: Document, notFound: seq<string>) returns (report: Report)
    ensures report == Report(
      before.tags != work.tags || before.items != work.items || before.meeting != work.meeting,
      NewIds(before.items, work.items), NewIds(work.items, before.items), Unique(notFound))
  {
    var unique := UniqueStrings(notFound);
    var added := Difference(before.items, work.items);
    var removed := Difference(work.items, before.items);
    var changed := before.tags != work.tags || before.items != work.items || before.meeting != work.meeting;
    report := Report(changed, added, removed, unique);
  }

  /** Works a batch out on a copy; the document given is not touched. */
  method ApplyBatch(current: Document?, r: Request) returns (doc: Document?, report: Result<Report, Failure>)
    ensures Reports(AnnotationOps.ApplyBatch(Document.Current(current), r), doc, report)
    ensures doc != null ==> fresh(doc)
  {
    hide RunOps, AnnotationOps.ApplyBatch, Finish, SortTags, SortItems, DropUnused, StyledTags, NewIds, Unique;
    hide TagBelow, ItemBelow, Sorted;
    var before := Document.Clone(current);
    before.Canonicalize(r.tx);
    var work := Document.Clone(current);
    ghost var base := work.Value();
    var existing: set<string> := set t | t in before.tags :: t.id;
    SameTagIds(base.tags, before.tags);
    hide TagIds;
    var err, notFound := work.RunBatch(r, existing);
    if err.Some? {
      BatchFails(base, r, err.value);
      return null, Err(err.value);
    }
    ghost var w := work.Work(notFound);
    work.FinishBatch(r, existing);
    var summary := Summarize(before, work, notFound);
    BatchSucceeds(base, r, w, work.Value(), summary);
    return work, Ok(summary);
  }

  lemma SameTagIds(tags: seq<Tag>, sorted: seq<Tag>)
    requires multiset(sorted) == multiset(tags)
    ensures TagIds(sorted) == TagIds(tags)
  {
    MultisetMembers(tags, sorted);
  }

  lemma BatchFails(base: Annotations, r: Request, e: Failure)
    requires RunOps(r, Start(base), TagIds(base.tags), |r.batch.ops|) == Err(e)
    ensures forall current :: Base(current) == base ==> AnnotationOps.ApplyBatch(current, r) == Err(e)
  {
  }

  /** An outcome put together from its parts. */
  lemma BatchSucceeds(base: Annotations, r: Request, w: Work, doc: Annotations, report: Report)
    requires var spec := RunOps(r, Start(base), TagIds(base.tags), |r.batch.ops|); spec.Ok? && spec.value.work == w
    requires doc == base.(
      tags := SortTags(r.tx,
        DropUnused(StyledTags(r.tx, w.tags, r.batch.styles, r.batch.initial, TagIds(base.tags)), w.items)),
      items := SortItems(w.items), meeting := w.meeting)
    requires var before := Canonical(r.tx, base);
      report == Report(before.tags != doc.tags || before.items != doc.items || before.meeting != doc.meeting,
                       NewIds(before.items, doc.items), NewIds(doc.items, before.items), Unique(w.notFound))
    ensures forall current :: Base(current) == base ==>
      AnnotationOps.ApplyBatch(current, r) ==
        Ok(Outcome(doc, report.changed, report.added, report.removed, report.notFound))
  {
  }

  lemma {:induction false} RunFails(r: Request, start: Work, existing: set<string>, m: nat, n: nat)
    requires m <= n && RunOps(r, start, existing, m).Err?
    ensures RunOps(r, start, existing, n) == RunOps(r, start, existing, m)
  {
    hide Advance;
    if m < n {
      RunFails(r, start, existing, m, n - 1);
    }
  }

  /** Finalizes a batch as the next revision, field by field. */
  method MutateBatch(current: Document?, r: Request, rec: Recording)
    returns (doc: Document?, report: Result<Report, Failure>)
    ensures Reports(AnnotationOps.MutateBatch(Document.Current(current), r, rec), doc, report)
    ensures doc != null ==> fresh(doc)
  {
    hide AnnotationOps.ApplyBatch, Valid;
    var unresolved := current != null && |current.items| > 0
      && !(current.audio != "" && current.audio == Digest(r.tx, rec.audio));
    assert unresolved == Unresolved(r.tx, Document.Current(current), rec.audio);
    var duration := rec.duration;
    if unresolved {
      if exists op :: op in r.batch.ops && op.Mark? {
        return null, Err(Refused(EXIT_UNRESOLVED));
      }
      duration := MAX_INT64;
    }
    doc, report := ApplyBatch(current, r.(duration := duration));
    if report.Err? || !report.value.changed {
      return;
    }
    ghost var worked := doc.Value();
    var minted := SetHead(current, doc, unresolved, rec);
    if !minted {
      return null, Err(NoRandomness);
    }
    assert doc.Value() == NextDocument(r.tx, Document.Current(current), worked, rec,
      Namespace(Document.Current(current), rec).value);
    var valid := ValidateAnnotations(r.tx,
      Annotations(doc.format, doc.revision, doc.audio, doc.namespace, doc.tags, doc.items, doc.meeting), duration);
    if !valid {
      return null, Err(Refused(EXIT_INVALID));
    }
  }

  method SetHead(current: Document?, doc: Document, unresolved: bool, rec: Recording) returns (minted: bool)
    requires current != doc && (unresolved ==> current != null)
    modifies doc`format, doc`revision, doc`audio, doc`namespace
    ensures minted <==> Namespace(Document.Current(current), rec).Some?
    ensures minted ==> doc.Value() == old(doc.Value()).(
      format := FORMAT_V1,
      revision := if current != null then NextRevision(current.revision) else 1,
      audio := if unresolved && doc.items != [] then current.audio else rec.audio,
      namespace := Namespace(Document.Current(current), rec).value)
  {
    doc.format := FORMAT_V1;
    doc.revision := 1;
    doc.audio := rec.audio;
    doc.namespace := rec.namespace;
    if current != null {
      doc.revision := NextRevision(current.revision);
      doc.namespace := current.namespace;
      if unresolved && |doc.items| > 0 {
        doc.audio := current.audio;
      }
    }
    if doc.namespace == "" {
      if rec.minted.None? {
        return false;
      }
      doc.namespace := rec.minted.value;
    }
    return true;
  }
}
