/** What each of the eight operations does, said outright: when it is refused, what it leaves of tags,
    marks and title, and what it reports. */
module AnnotationEffects {
  import opened Wrappers
  import opened Sequences
  import opened AnnotationDocument
  import opened AnnotationOps
  import opened AnnotationMerge

  /** A label an operation may carry: trimmed, one to 64 runes of UTF-8 without control characters. */
  ghost predicate LegalLabel(tx: Text, raw: string) {
    var name := tx.trim(raw);
    name == tx.trim(name) && tx.utf8(name) && 1 <= tx.runes(name) <= 64 && !tx.control(name)
  }

  ghost predicate LegalTitle(tx: Text, raw: string) {
    var title := tx.trim(raw);
    title == tx.trim(title) && tx.utf8(title) && 1 <= tx.runes(title) <= 200 && !tx.control(title)
  }

  /** The whole meeting without times, or a part of the recording that is not empty. */
  ghost predicate LegalTarget(t: Target, duration: Int64) {
    || t == Target("meeting", None, None)
    || exists start: Int64, end: Int64 ::
         t == Target("time-range", Some(start), Some(end)) && 0 <= start < end <= duration
  }

  lemma TargetIsLegal(t: Target, duration: Int64)
    ensures TargetOk(t, duration) <==> LegalTarget(t, duration)
  {
    if TargetOk(t, duration) && t.kind != "meeting" {
      assert t == Target("time-range", Some(t.start.value), Some(t.end.value));
    }
  }

  // ----- removals

  /** The marks that `gone` picks are taken out, the others stay in their order, and `asked` is reported
      exactly when there were none to take. */
  ghost predicate TakenOut(w: Work, w': Work, gone: Item -> bool, asked: string) {
    && w'.items == Filter(w.items, (i: Item) => !gone(i))
    && (forall i :: i in w'.items <==> i in w.items && !gone(i))
    && w'.notFound == w.notFound + (if exists i :: i in w.items && gone(i) then [] else [asked])
    && w'.tags == w.tags && w'.meeting == w.meeting
  }

  lemma RemoveTakesOut(w: Work, keep: Item -> bool, gone: Item -> bool, asked: string)
    requires forall i :: i in w.items ==> (keep(i) <==> !gone(i))
    ensures TakenOut(w, Remove(w, keep, asked), gone, asked)
  {
    FilterSame(w.items, keep, (i: Item) => !gone(i));
    FilterMembers(w.items, keep);
    FilterShorter(w.items, keep);
  }

  /** `unmark` takes out the mark with the id. */
  lemma UnmarkEffect(r: Request, w: Work, n: nat)
    requires n < |r.batch.ops| && r.batch.ops[n].Unmark?
    ensures var id, w' := r.batch.ops[n].itemId, ApplyOp(r, w, n);
      if id == "" then w' == Err(Refused(4))
      else w'.Ok? && TakenOut(w, w'.value, (i: Item) => i.id == id, id)
  {
    var id := r.batch.ops[n].itemId;
    RemoveTakesOut(w, OtherThanItem(id), (i: Item) => i.id == id, id);
  }

  /** `unmark-tag` takes out the marks of the tag, or that of the tag on a target. */
  lemma UnmarkTagEffect(r: Request, w: Work, n: nat)
    requires n < |r.batch.ops| && r.batch.ops[n].UnmarkTag?
    ensures var op, w' := r.batch.ops[n], ApplyOp(r, w, n);
      if op.tagId == "" || (op.target.Some? && !LegalTarget(op.target.value, r.duration)) then w' == Err(Refused(4))
      else w'.Ok? && TakenOut(w, w'.value,
                              (i: Item) => i.tagId == op.tagId && op.target in {None, Some(i.target)}, op.tagId)
  {
    var op := r.batch.ops[n];
    if op.target.Some? {
      TargetIsLegal(op.target.value, r.duration);
    }
    RemoveTakesOut(w, OtherThanMark(op.tagId, op.target),
                   (i: Item) => i.tagId == op.tagId && op.target in {None, Some(i.target)}, op.tagId);
  }

  /** `undo-operation` takes out the marks one batch made. */
  lemma UndoEffect(r: Request, w: Work, n: nat)
    requires n < |r.batch.ops| && r.batch.ops[n].UndoOperation?
    ensures var id, w' := r.batch.ops[n].operationId, ApplyOp(r, w, n);
      if id == "" then w' == Err(Refused(4))
      else w'.Ok? && TakenOut(w, w'.value, (i: Item) => i.operationId == id, id)
  {
    var id := r.batch.ops[n].operationId;
    RemoveTakesOut(w, OtherThanOperation(id), (i: Item) => i.operationId == id, id);
  }

  // ----- marking

  ghost predicate FirstWithLabel(tx: Text, tags: seq<Tag>, name: string, k: nat) {
    k < |tags| && tx.SameLabel(tags[k].name, name) && forall j :: 0 <= j < k ==> !tx.SameLabel(tags[j].name, name)
  }

  /** The tag a mark means is this one, which is there already or is to be defined: the one with the id;
      without an id the first with the label, or a new one. */
  ghost predicate Means(tx: Text, tags: seq<Tag>, tag: OpTag, minted: Option<string>, id: string) {
    if tag.id != "" then id == tag.id
    else
      tag.name.Some?
      && if exists k: nat :: FirstWithLabel(tx, tags, tx.trim(tag.name.value), k)
         then exists k: nat :: FirstWithLabel(tx, tags, tx.trim(tag.name.value), k) && tags[k].id == id
         else minted == Some(id)
  }

  lemma {:induction false} LabelMatchIsFirst(tx: Text, tags: seq<Tag>, name: string)
    requires "" !in TagIds(tags)
    ensures LabelMatch(tx, tags, name) == "" ==> forall k: nat :: !FirstWithLabel(tx, tags, name, k)
    ensures forall k: nat :: FirstWithLabel(tx, tags, name, k) ==> LabelMatch(tx, tags, name) == tags[k].id
    ensures LabelMatch(tx, tags, name) != "" ==> exists k: nat :: FirstWithLabel(tx, tags, name, k)
  {
    if tags != [] {
      assert tags[0] in tags && tags[0].id in TagIds(tags);
      if tx.SameLabel(tags[0].name, name) {
        assert FirstWithLabel(tx, tags, name, 0);
      } else {
        var rest := tags[1..];
        assert forall t :: t in rest ==> t in tags;
        LabelMatchIsFirst(tx, rest, name);
        forall k: nat | FirstWithLabel(tx, tags, name, k) ensures k > 0 && FirstWithLabel(tx, rest, name, k - 1) {
          assert forall j :: 0 <= j < k - 1 ==> rest[j] == tags[j + 1];
        }
        forall k: nat | FirstWithLabel(tx, rest, name, k) ensures FirstWithLabel(tx, tags, name, k + 1) {
          assert forall j :: 1 <= j < k + 1 ==> rest[j - 1] == tags[j];
        }
      }
    }
  }

  lemma LabelMatchPresent(tx: Text, tags: seq<Tag>, name: string)
    ensures LabelMatch(tx, tags, name) != "" ==> LabelMatch(tx, tags, name) in TagIds(tags)
  {
  }

  lemma FindTagMeans(tx: Text, tags: seq<Tag>, tag: OpTag, minted: Option<string>)
    requires "" !in TagIds(tags) && (tag.id == "" ==> tag.name.Some?)
    ensures var name := if tag.name.Some? then Some(tx.trim(tag.name.value)) else None;
      var found := FindTag(tx, tags, tag.id, name);
      && (found != "" ==> found in TagIds(tags) && forall id :: Means(tx, tags, tag, minted, id) <==> id == found)
      && (found == "" ==>
            forall id :: Means(tx, tags, tag, minted, id) <==>
                           if tag.id != "" then id == tag.id else minted == Some(id))
      && (found == "" && tag.id != "" ==> tag.id !in TagIds(tags))
  {
    if tag.id == "" {
      var name := tx.trim(tag.name.value);
      LabelMatchIsFirst(tx, tags, name);
      LabelMatchPresent(tx, tags, name);
    }
  }

  /** What a mark leaves: the tag it means, defined with the label if it is not there, and a mark of the
      target with it, made now by who asked unless there was one. */
  ghost predicate Marked(r: Request, w: Work, w': Work, n: nat, id: string)
    requires n < |r.batch.ops| && r.batch.ops[n].Mark? && r.batch.ops[n].tag.Some? && r.batch.ops[n].target.Some?
  {
    var tag, target, stamp := r.batch.ops[n].tag.value, r.batch.ops[n].target.value, r.stamp;
    && (if exists t :: t in w.tags && t.id == id then w'.tags == w.tags
        else tag.name.Some? && w'.tags == w.tags + [Tag(id, r.tx.trim(tag.name.value), None, None)])
    && (if exists i :: i in w.items && i.tagId == id && i.target == target then w'.items == w.items
        else
          && r.mints(n).item.Some?
          && w'.items == w.items + [Item(r.mints(n).item.value, id, target, stamp.createdAt, stamp.actor,
                                         stamp.operationId)])
    && w'.meeting == w.meeting && w'.notFound == w.notFound
  }

  ghost predicate LegalMark(r: Request, op: Op)
    requires op.Mark?
  {
    && op.tag.Some? && op.target.Some? && LegalTarget(op.target.value, r.duration)
    && (op.tag.value.name.Some? ==> LegalLabel(r.tx, op.tag.value.name.value))
    && (op.tag.value.id != "" || op.tag.value.name.Some?)
  }

  lemma MarkLeaves(r: Request, w: Work, n: nat, found: string, id: string)
    requires n < |r.batch.ops| && r.batch.ops[n].Mark? && LegalMark(r, r.batch.ops[n]) && ApplyOp(r, w, n).Ok?
    requires var tag := r.batch.ops[n].tag.value;
      && found == FindTag(r.tx, w.tags, tag.id, if tag.name.Some? then Some(r.tx.trim(tag.name.value)) else None)
      && id == if found != "" then found else if tag.id != "" then tag.id else r.mints(n).tag.value
    requires found != "" ==> found in TagIds(w.tags)
    requires found == "" ==> id !in TagIds(w.tags)
    ensures Marked(r, w, ApplyOp(r, w, n).value, n, id)
  {
  }

  /** `mark`: refused for an illegal operation, or for an id that is not there without a label to define
      it with; otherwise it fails only for want of a random id. */
  lemma MarkEffect(r: Request, w: Work, n: nat)
    requires n < |r.batch.ops| && r.batch.ops[n].Mark? && "" !in TagIds(w.tags)
    requires r.mints(n).tag.Some? ==> r.mints(n).tag.value !in TagIds(w.tags)
    ensures var op, w' := r.batch.ops[n], ApplyOp(r, w, n);
      if !LegalMark(r, op) || (op.tag.value.name.None? && op.tag.value.id !in TagIds(w.tags)) then w' == Err(Refused(4))
      else if w'.Err? then w' == Err(NoRandomness) && (r.mints(n).tag.None? || r.mints(n).item.None?)
      else exists id :: Means(r.tx, w.tags, op.tag.value, r.mints(n).tag, id) && Marked(r, w, w'.value, n, id)
  {
    hide LegalTarget, TargetOk, LabelMatch, Means;
    var op := r.batch.ops[n];
    if op.target.Some? {
      TargetIsLegal(op.target.value, r.duration);
    }
    if LegalMark(r, op) {
      FindTagMeans(r.tx, w.tags, op.tag.value, r.mints(n).tag);
      var tag := op.tag.value;
      var name := if tag.name.Some? then Some(r.tx.trim(tag.name.value)) else None;
      var found := FindTag(r.tx, w.tags, tag.id, name);
      if ApplyOp(r, w, n).Ok? {
        var id := if found != "" then found else if tag.id != "" then tag.id else r.mints(n).tag.value;
        MarkLeaves(r, w, n, found, id);
      }
    }
  }

  // ----- renaming and restyling

  /** Where a tag stands; with unique ids nowhere else. */
  ghost predicate StandsAt(tags: seq<Tag>, id: string, k: nat) {
    k < |tags| && tags[k].id == id && forall j :: 0 <= j < k ==> tags[j].id != id
  }

  lemma TagAtStands(tags: seq<Tag>, id: string)
    ensures TagAt(tags, id).Some? <==> id in TagIds(tags)
    ensures TagAt(tags, id).Some? ==> StandsAt(tags, id, TagAt(tags, id).value)
  {
  }

  /** The tag that stands under the id is replaced, and nothing else. */
  ghost predicate Replaced(w: Work, w': Work, id: string, color: Option<string>, icon: Option<string>,
                           name: Option<string>)
  {
    exists k: nat :: StandsAt(w.tags, id, k) &&
      var t := w.tags[k];
      w' == w.(tags := w.tags[k := Tag(id, if name.Some? then name.value else t.name,
                                       if color.Some? then color else t.color, if icon.Some? then icon else t.icon)])
  }

  ghost predicate NotFound(w: Work, w': Work, id: string) {
    w' == w.(notFound := w.notFound + [id])
  }

  /** `relabel` gives a tag the trimmed label, unless another tag here has one that folds to the same. */
  lemma RelabelEffect(r: Request, w: Work, n: nat)
    requires n < |r.batch.ops| && r.batch.ops[n].Relabel?
    ensures var op, w' := r.batch.ops[n], ApplyOp(r, w, n);
      if op.tagId == "" || op.name.None? || !LegalLabel(r.tx, op.name.value) then w' == Err(Refused(4))
      else if op.tagId !in TagIds(w.tags) then w'.Ok? && NotFound(w, w'.value, op.tagId)
      else if HasOther(r.tx, w.tags, op.tagId, r.tx.trim(op.name.value)) then w' == Err(Refused(4))
      else w'.Ok? && Replaced(w, w'.value, op.tagId, None, None, Some(r.tx.trim(op.name.value)))
  {
    var op := r.batch.ops[n];
    TagAtStands(w.tags, op.tagId);
    if op.name.Some? && LegalLabel(r.tx, op.name.value) {
      TakenMeans(r.tx, w.tags, op.tagId, r.tx.trim(op.name.value));
    }
  }

  /** A tag with another id has a label that folds to the same. */
  ghost predicate HasOther(tx: Text, tags: seq<Tag>, id: string, name: string) {
    exists t :: t in tags && t.id != id && tx.fold(t.name) == tx.fold(name)
  }

  lemma TakenMeans(tx: Text, tags: seq<Tag>, id: string, name: string)
    ensures LabelTaken(tx, tags, id, name) <==> HasOther(tx, tags, id, name)
  {
    if t: Tag :| t in tags && t.id != id && tx.fold(t.name) == tx.fold(name) {
      assert tx.SameLabel(t.name, name);
    }
  }

  /** `restyle` gives a tag the colour and the icon that are given, both from the palettes. */
  lemma RestyleEffect(r: Request, w: Work, n: nat)
    requires n < |r.batch.ops| && r.batch.ops[n].Restyle?
    ensures var op, w' := r.batch.ops[n], ApplyOp(r, w, n);
      if op.tagId == "" || (op.color.None? && op.icon.None?) || (op.color.Some? && op.color.value !in TAG_COLORS)
         || (op.icon.Some? && op.icon.value !in TAG_ICONS) then w' == Err(Refused(4))
      else if op.tagId !in TagIds(w.tags) then w'.Ok? && NotFound(w, w'.value, op.tagId)
      else w'.Ok? && Replaced(w, w'.value, op.tagId, op.color, op.icon, None)
  {
    TagAtStands(w.tags, r.batch.ops[n].tagId);
  }

  // ----- merging

  /** Of the marks exactly those of the source whose target `into` has are gone, and the others of the
      source are `into`'s now. */
  ghost predicate Merged(items: seq<Item>, items': seq<Item>, source: string, into: string) {
    forall m :: m in items' <==>
      || (m in items && m.tagId != source)
      || (exists i :: i in items && i.tagId == source && m == i.(tagId := into)
            && !exists c :: c in items && c.tagId == into && c.target == i.target)
  }

  /** `merge-tag`: refused for an illegal operation, or when `into` has to be defined with a label that a
      third tag has. */
  lemma MergeEffect(r: Request, w: Work, n: nat)
    requires n < |r.batch.ops| && r.batch.ops[n].MergeTag? && Distinct(w.items, MarkKey)
    ensures var op, w' := r.batch.ops[n], ApplyOp(r, w, n);
      if op.tagId == "" || op.into.None? || op.into.value.id in {"", op.tagId} || op.into.value.name.None?
         || !LegalLabel(r.tx, op.into.value.name.value) then w' == Err(Refused(4))
      else if op.tagId !in TagIds(w.tags) then w'.Ok? && NotFound(w, w'.value, op.tagId)
      else
        var into, name := op.into.value.id, r.tx.trim(op.into.value.name.value);
        if into !in TagIds(w.tags) && HasOther(r.tx, w.tags, op.tagId, name) then w' == Err(Refused(4))
        else
          && w'.Ok? && Merged(w.items, w'.value.items, op.tagId, into)
          && w'.value.tags == w.tags + (if into in TagIds(w.tags) then [] else [Tag(into, name, None, None)])
          && w'.value.meeting == w.meeting && w'.value.notFound == w.notFound
  {
    hide MergeItems, Targets, TagIds, Merged;
    var op := r.batch.ops[n];
    if op.into.Some? && op.into.value.name.Some? {
      TakenMeans(r.tx, w.tags, op.tagId, r.tx.trim(op.into.value.name.value));
      if op.into.value.id != op.tagId {
        MergeItemsMerge(w.items, op.tagId, op.into.value.id);
      }
    }
  }

  lemma MergeItemsMerge(items: seq<Item>, source: string, into: string)
    requires source != into && Distinct(items, MarkKey)
    ensures Merged(items, MergeItems(items, source, into, Targets(items, into)), source, into)
  {
    MergeItemsKeep(items, source, into, Targets(items, into));
    forall t ensures t in Targets(items, into) <==> exists c :: c in items && c.tagId == into && c.target == t {
      TargetMember(items, into, t);
    }
  }

  /** Without repeated marks what has been moved covers no later mark of the source. */
  lemma {:induction false} MergeItemsKeep(items: seq<Item>, source: string, into: string, covered: set<Target>)
    requires source != into && Distinct(items, MarkKey)
    ensures forall m :: m in MergeItems(items, source, into, covered) <==>
      || (m in items && m.tagId != source)
      || (exists i :: i in items && i.tagId == source && m == i.(tagId := into) && i.target !in covered)
  {
    if items != [] {
      var x, rest := items[0], items[1..];
      assert items == [x] + rest;
      DistinctCons(x, rest, MarkKey);
      var deeper := if x.tagId == source && x.target !in covered then covered + {x.target} else covered;
      MergeItemsKeep(rest, source, into, deeper);
      forall i | i in rest && i.tagId == source ensures i.target in deeper <==> i.target in covered {
        assert MarkKey(i) != MarkKey(x);
      }
    }
  }

  // ----- the title

  /** `set-title`: blank clears it; the title it has stays as it is; another one is attributed to who asked,
      now. */
  lemma TitleEffect(r: Request, w: Work, n: nat)
    requires n < |r.batch.ops| && r.batch.ops[n].SetTitle?
    ensures var raw, w' := r.batch.ops[n].title, ApplyOp(r, w, n);
      if raw.None? || r.tx.trim(raw.value) == "" then w' == Ok(w.(meeting := None))
      else if !LegalTitle(r.tx, raw.value) then w' == Err(Refused(4))
      else if w.meeting.Some? && w.meeting.value.title == r.tx.trim(raw.value) then w' == Ok(w)
      else w' == Ok(w.(meeting := Some(Meeting(r.tx.trim(raw.value), r.stamp.createdAt, r.stamp.actor))))
  {
  }

  lemma UnknownEffect(r: Request, w: Work, n: nat)
    requires n < |r.batch.ops| && r.batch.ops[n].Unknown?
    ensures ApplyOp(r, w, n) == Err(Refused(4))
  {
  }

  /** A refused operation is refused as invalid; only the random source fails otherwise. */
  lemma OpFailures(r: Request, w: Work, n: nat)
    requires n < |r.batch.ops| && ApplyOp(r, w, n).Err?
    ensures ApplyOp(r, w, n).error in {Refused(4), NoRandomness}
  {
    hide LabelOk, TargetOk, TitleOk, LabelMatch, LabelTaken, Covered, TagAt;
  }

  // ----- the writer's check

  ghost predicate LegalActor(tx: Text, a: Actor) {
    tx.trim(a.kind) != "" && tx.trim(a.id) != "" && tx.bytes(a.id) <= 256
  }

  ghost predicate LegalTag(tx: Text, t: Tag) {
    && tx.isId(t.id) && tx.trim(t.name) == t.name && LegalLabel(tx, t.name)
    && (t.color == None || tx.utf8(t.color.value)) && (t.icon == None || tx.utf8(t.icon.value))
  }

  ghost predicate LegalItem(tx: Text, i: Item, duration: Int64) {
    && tx.isId(i.id) && tx.isId(i.operationId) && tx.isTime(i.createdAt)
    && LegalActor(tx, i.actor) && LegalTarget(i.target, duration)
  }

  ghost predicate LegalMeeting(tx: Text, m: Meeting) {
    tx.trim(m.title) == m.title && LegalTitle(tx, m.title) && tx.isTime(m.setAt) && LegalActor(tx, m.actor)
  }

  /** Everything the writer's check asks of a document. */
  lemma ValidMeans(tx: Text, a: Annotations, duration: Int64)
    ensures Valid(tx, a, duration) <==>
      && a.format == "cassini.annotations.v1" && a.revision >= 1 && tx.isDigest(a.audio) && tx.isNamespace(a.namespace)
      && |a.tags| <= 200 && |a.items| <= 2000
      && (forall i, j :: 0 <= i < j < |a.tags| ==> a.tags[i].id != a.tags[j].id)
      && (forall i, j :: 0 <= i < j < |a.items| ==> a.items[i].id != a.items[j].id)
      && (forall t :: t in a.tags ==> LegalTag(tx, t))
      && (forall i :: i in a.items ==> LegalItem(tx, i, duration) && exists t :: t in a.tags && t.id == i.tagId)
      && (a.meeting.Some? ==> LegalMeeting(tx, a.meeting.value))
  {
    hide TargetOk, LegalTarget;
    forall i | i in a.items ensures TargetOk(i.target, duration) <==> LegalTarget(i.target, duration) {
      TargetIsLegal(i.target, duration);
    }
    LinksMean(a.tags, a.items);
    KeysDiffer(a.tags, a.items);
    hide WellLinked, Distinct, UsedIds, TagIds;
    assert forall t :: t in a.tags ==> (TagOk(tx, t) <==> LegalTag(tx, t));
    assert forall i :: i in a.items ==> (ItemOk(tx, i, duration) <==> LegalItem(tx, i, duration));
  }

  lemma LinksMean(tags: seq<Tag>, items: seq<Item>)
    ensures WellLinked(tags, items) <==>
      && Distinct(tags, TagKey) && Distinct(items, ItemKey)
      && forall i :: i in items ==> exists t :: t in tags && t.id == i.tagId
  {
    if WellLinked(tags, items) {
      forall i | i in items ensures i.tagId in TagIds(tags) {
        assert i.tagId in UsedIds(items);
      }
    }
  }

  lemma KeysDiffer(tags: seq<Tag>, items: seq<Item>)
    ensures Distinct(tags, TagKey) <==> forall i, j :: 0 <= i < j < |tags| ==> tags[i].id != tags[j].id
    ensures Distinct(items, ItemKey) <==> forall i, j :: 0 <= i < j < |items| ==> items[i].id != items[j].id
  {
    assert forall t :: TagKey(t) == t.id;
    assert forall i :: ItemKey(i) == i.id;
  }
}
