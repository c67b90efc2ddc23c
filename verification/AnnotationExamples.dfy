/** Concrete documents and batches: that the hypotheses of the general results can be met, and the
    inputs on which undo, retry, the order of merges and the uniqueness of labels fall short. */
module AnnotationExamples {
  import opened Wrappers
  import opened Sequences
  import opened Sorting
  import opened AnnotationDocument
  import opened AnnotationOps
  import opened AnnotationRuns
  import opened AnnotationStored
  import opened AnnotationMerge
  import opened AnnotationMutation
  import opened AnnotationUndo
  import opened AnnotationRetry
  import opened AnnotationLabels

  /** A text library without case or white space, in which every text that is not empty is an id. */
  const PLAIN := Text(
    s => s, s => s, s => s,
    s => true, s => |s|, s => |s|, s => false,
    s => s != "", s => s != "", s => s != "", s => true)

  const MEETING := Target(TARGET_MEETING, None, None)
  const OPENING := Target(TARGET_TIME_RANGE, Some(0), Some(500))
  const CLOSING := Target(TARGET_TIME_RANGE, Some(500), Some(1000))
  const WRITER := Actor("user", "u")

  const A := Tag("a", "plan", None, None)
  const B := Tag("b", "plan", None, None)

  function Old(id: string, tagId: string, target: Target): Item {
    Item(id, tagId, target, "then", WRITER, "earlier")
  }

  /** One mark of the whole meeting, by id or by label. */
  function MarkMeeting(id: string, name: string, minted: string): Request {
    Request(PLAIN, Batch([Op.Mark(Some(OpTag(id, Some(name))), Some(MEETING))], [], map[]), 1000,
            Stamp(WRITER, "now", "later"), (n: nat) => Mint(None, Some(minted)))
  }

  function Undo(operationId: string): Request {
    MarkMeeting("a", "plan", "m").(batch := Batch([UndoOperation(operationId)], [], map[]),
                                   mints := (n: nat) => Mint(None, None))
  }

  lemma PlainText()
    ensures TextOk(PLAIN) && LabelOk(PLAIN, "plan") && TargetOk(MEETING, 1000)
  {
  }

  /** A single mark by an id that is not there defines the tag and adds the mark. */
  lemma OneMark(base: Annotations, id: string, minted: string)
    requires id != "" && id !in TagIds(base.tags) && !Covered(base.items, id, MEETING)
    ensures var r := MarkMeeting(id, "plan", minted);
      && OnlyMarks(r.batch) && ApplyBatch(Some(base), r).Ok?
      && ApplyOp(r, Start(base), 0)
         == Ok(Work(base.tags + [Tag(id, "plan", None, None)],
                    base.items + [Item(minted, id, MEETING, "later", WRITER, "now")], base.meeting, []))
  {
    var r := MarkMeeting(id, "plan", minted);
    PlainText();
    assert ApplyOp(r, Start(base), 0).Ok?;
    assert RunOps(r, Start(base), TagIds(base.tags), 0).Ok?;
    assert RunOps(r, Start(base), TagIds(base.tags), 1).Ok?;
  }

  /** The hypotheses of retry and undo are met by the first mark of an empty document: repeating it
      changes nothing, undoing it leaves nothing. */
  lemma FirstMark()
    ensures var r := MarkMeeting("a", "plan", "m");
      && ApplyBatch(Some(EMPTY), r).Ok?
      && var doc := ApplyBatch(Some(EMPTY), r).value.doc;
        && ApplyBatch(Some(doc), r.(mints := (n: nat) => Mint(None, None))).Ok?
        && !ApplyBatch(Some(doc), r.(mints := (n: nat) => Mint(None, None))).value.changed
        && ApplyBatch(Some(doc), Undo("now")).Ok?
        && ApplyBatch(Some(doc), Undo("now")).value.doc == Canonical(PLAIN, EMPTY)
  {
    hide ApplyBatch, SortTags, SortItems;
    var r := MarkMeeting("a", "plan", "m");
    OneMark(EMPTY, "a", "m");
    UndoRestores(Some(EMPTY), r, Undo("now"));
    RetryByIdSafe(Some(EMPTY), r, r.(mints := (n: nat) => Mint(None, None)));
  }

  /** A batch that leaves one tag and one mark in an empty document changes it. */
  lemma FinishOne(r: Request, w: Work)
    requires |w.tags| == |w.items| == 1
    ensures var doc := Finish(r, EMPTY, w);
      |doc.tags| <= 1 && |doc.items| == 1 && Canonical(r.tx, EMPTY).items != doc.items
  {
    hide Styled;
    var tags := StyledTags(r.tx, w.tags, r.batch.styles, r.batch.initial, {});
    FilterShorter(tags, IdIn(UsedIds(w.items)));
    var doc := Finish(r, EMPTY, w);
    assert |doc.tags| == |multiset(doc.tags)| == |multiset(DropUnused(tags, w.items))|;
    assert |doc.items| == |multiset(doc.items)| == |multiset(w.items)|;
  }

  lemma FirstMarkChanges(r: Request)
    requires r == MarkMeeting("a", "plan", "m")
    ensures ApplyBatch(None, r).Ok? && ApplyBatch(None, r).value.changed
    ensures |ApplyBatch(None, r).value.doc.tags| <= 1 && |ApplyBatch(None, r).value.doc.items| == 1
  {
    hide Finish, Canonical, ApplyOp;
    OneMark(EMPTY, "a", "m");
    assert RunOps(r, Start(EMPTY), {}, 0) == Ok(Progress(Start(EMPTY), {}));
    assert RunOps(r, Start(EMPTY), {}, 1) == Advance(r, Progress(Start(EMPTY), {}), {}, 0);
    FinishOne(r, RunOps(r, Start(EMPTY), {}, 1).value.work);
  }

  /** The hypotheses of the final check are met by the first revision of a meeting. */
  lemma FirstRevision()
    ensures MutateBatch(None, MarkMeeting("a", "plan", "m"), Recording("sha", 1000, "ns", None)).Ok?
  {
    hide ApplyBatch, MutateBatch;
    var r, rec := MarkMeeting("a", "plan", "m"), Recording("sha", 1000, "ns", None);
    PlainText();
    FirstMarkChanges(r);
    FinalCheck(None, r, rec);
  }

  /** So are those of retry and undo of stored revisions: sent again, the first mark leaves revision 1 as
      it is; taken back, it leaves revision 2 without tags and marks. */
  lemma FirstRevisionAgain()
    ensures var r, rec := MarkMeeting("a", "plan", "m"), Recording("sha", 1000, "ns", None);
      var first := MutateBatch(None, r, rec);
      && first.Ok?
      && var doc := first.value.doc;
         var undone := MutateBatch(Some(doc), Undo("now"), rec);
         && StepTo(Some(doc), Step(r.(mints := (n: nat) => Mint(None, None)), rec), Some(doc))
         && undone.Ok? && undone.value.doc.revision == 2
         && undone.value.doc.tags == [] && undone.value.doc.items == []
  {
    hide ApplyBatch, MutateBatch;
    var r, rec := MarkMeeting("a", "plan", "m"), Recording("sha", 1000, "ns", None);
    PlainText();
    FirstRevision();
    FirstMarkChanges(r);
    Handed(None, r, rec);
    var doc := MutateBatch(None, r, rec).value.doc;
    StoredRetrySafe(None, r, r.(mints := (n: nat) => Mint(None, None)), rec);
    RevisionGrows(None, r, rec);
    StoredUndo(None, _ => 1000, Step(r, rec), Step(Undo("now"), rec), doc);
  }

  // ----- a mark whose tag is not defined

  const DANGLING := EMPTY.(items := [Old("i", "a", OPENING)])

  /** A batch that defines a tag some dangling mark already named: its undo cannot drop the tag. */
  lemma UndoKeepsTag()
    ensures var r := MarkMeeting("a", "plan", "m");
      && ApplyBatch(Some(DANGLING), r).Ok?
      && var undone := ApplyBatch(Some(ApplyBatch(Some(DANGLING), r).value.doc), Undo("now"));
        undone.Ok? && undone.value.doc.items == DANGLING.items && undone.value.doc.tags != DANGLING.tags
  {
    hide ApplyBatch, SortTags;
    var r := MarkMeeting("a", "plan", "m");
    assert DANGLING.items[0] in DANGLING.items;
    OneMark(DANGLING, "a", "m");
    UndoInverse(Some(DANGLING), r, Undo("now"));
    assert NamesAt(r.batch, 0, "a");
  }

  // ----- two tags with one label

  const TWINS := EMPTY.(tags := [B, A], items := [Old("i", "b", OPENING), Old("j", "a", CLOSING)])

  /** Repeating a mark by that label does not leave the document as it is. */
  lemma RetryOfTwins()
    ensures var r := MarkMeeting("", "plan", "m");
      && ApplyBatch(Some(TWINS), r).Ok?
      && var doc := ApplyBatch(Some(TWINS), r).value.doc;
        forall minted :: minted !in ItemIds(doc.items) ==>
          var second := ApplyBatch(Some(doc), MarkMeeting("", "plan", minted));
          !(second.Ok? && !second.value.changed)
  {
    hide ApplyBatch;
    var r := MarkMeeting("", "plan", "m");
    PlainText();
    assert Twins(TWINS, r, A, B, MEETING);
    var doc := TwinFirst(TWINS, r, A, B, MEETING);
    forall minted | minted !in ItemIds(doc.items)
      ensures var second := ApplyBatch(Some(doc), MarkMeeting("", "plan", minted));
        !(second.Ok? && !second.value.changed)
    {
      RetryCanAdd(TWINS, r, A, B, MEETING, doc, MarkMeeting("", "plan", minted));
    }
  }

  /** The mark of a target by label and one of another target by an id that is not there yet. */
  function MarkTwo(): Request {
    Request(PLAIN, Batch([Op.Mark(Some(OpTag("", Some("plan"))), Some(CLOSING)),
                          Op.Mark(Some(OpTag("a", Some("plan"))), Some(MEETING))], [], map[]), 1000,
            Stamp(WRITER, "now", "later"), (n: nat) => Mint(None, Some(if n == 0 then "m" else "n")))
  }

  const ONE_TAG := EMPTY.(tags := [B], items := [Old("i", "b", OPENING)])

  const HALF := Work([B], ONE_TAG.items + [Item("m", "b", CLOSING, "later", WRITER, "now")], None, [])
  const WHOLE := Work([B, A], HALF.items + [Item("n", "a", MEETING, "later", WRITER, "now")], None, [])

  lemma {:induction false} Unstyled(tx: Text, tags: seq<Tag>, existing: set<string>, seen: set<string>)
    ensures Initialize(tags, map[], existing, seen) == (tags, seen)
    ensures StyledTags(tx, tags, [], map[], existing) == tags
  {
    if tags != [] {
      Unstyled(tx, Init(tags), existing, seen);
      assert tags == Init(tags) + [Last(tags)];
    }
  }

  lemma FirstOfTwo()
    ensures ApplyOp(MarkTwo(), Start(ONE_TAG), 0) == Ok(HALF)
  {
    PlainText();
    assert LabelMatch(PLAIN, [B], "plan") == "b";
    assert !Covered(ONE_TAG.items, "b", CLOSING);
  }

  lemma NotCovered(items: seq<Item>, tagId: string)
    requires forall i :: i in items ==> i.tagId != tagId
    ensures !Covered(items, tagId, MEETING)
  {
  }

  lemma SecondOfTwo()
    ensures ApplyOp(MarkTwo(), HALF, 1) == Ok(WHOLE)
  {
    PlainText();
    hide Covered, LabelOk, TargetOk;
    assert FindTag(PLAIN, HALF.tags, "a", Some("plan")) == "";
    NotCovered(HALF.items, "a");
    assert HALF.tags + [A] == WHOLE.tags;
  }

  lemma MarkTwoRuns()
    ensures ApplyBatch(Some(ONE_TAG), MarkTwo()).Ok?
    ensures ApplyBatch(Some(ONE_TAG), MarkTwo()).value.doc == Finish(MarkTwo(), ONE_TAG, WHOLE)
  {
    hide Finish, StyledTags, ApplyOp, Initialize;
    var r, existing := MarkTwo(), TagIds(ONE_TAG.tags);
    FirstOfTwo();
    SecondOfTwo();
    Unstyled(PLAIN, HALF.tags, existing, {});
    Unstyled(PLAIN, WHOLE.tags, existing, {});
    assert RunOps(r, Start(ONE_TAG), existing, 0) == Ok(Progress(Start(ONE_TAG), {}));
    assert RunOps(r, Start(ONE_TAG), existing, 1) == Ok(Progress(HALF, {}));
    assert RunOps(r, Start(ONE_TAG), existing, 2) == Ok(Progress(WHOLE, {}));
  }

  lemma MarkTwoLeaves()
    ensures var doc := Finish(MarkTwo(), ONE_TAG, WHOLE);
      doc.tags == [A, B] && multiset(doc.items) == multiset(WHOLE.items)
  {
    hide StyledTags, Below, DropUnused, SortTags, SortItems;
    Unstyled(PLAIN, WHOLE.tags, TagIds(ONE_TAG.tags), {});
    assert WHOLE.items[0] in WHOLE.items && WHOLE.items[2] in WHOLE.items;
    IdsInOrder();
    TwinsSorted(PLAIN, A, B, WHOLE.items);
  }

  lemma IdsInOrder()
    ensures Below("a", "b")
  {
  }

  lemma SortedOne()
    ensures Canonical(PLAIN, ONE_TAG) == ONE_TAG
  {
    assert Init([B]) == [] && Init(ONE_TAG.items) == [];
  }

  lemma FirstUnsettled(doc: Annotations)
    requires doc.tags == [A, B] && multiset(doc.items) == multiset(WHOLE.items)
    ensures !LabelSettled(MarkTwo(), doc, 0) && ItemIds(doc.items) == {"i", "m", "n"}
  {
    assert forall i :: i in WHOLE.items <==> i == WHOLE.items[0] || i == WHOLE.items[1] || i == WHOLE.items[2];
    PlainText();
    MultisetMembers(doc.items, WHOLE.items);
    assert LabelMatch(PLAIN, doc.tags, "plan") == "a" && !Covered(doc.items, "a", CLOSING);
  }

  /** Two labels alike in one batch are enough, from a document in canonical order: the first mark by
      label goes to the tag that is there, and again to the one the batch defined. */
  lemma RetryOfCanonical()
    ensures Canonical(PLAIN, ONE_TAG) == ONE_TAG && ApplyBatch(Some(ONE_TAG), MarkTwo()).Ok?
    ensures var again := MarkTwo().(mints := (n: nat) => Mint(None, Some(if n == 0 then "p" else "q")));
      var second := ApplyBatch(Some(ApplyBatch(Some(ONE_TAG), MarkTwo()).value.doc), again);
      !(second.Ok? && !second.value.changed)
  {
    hide ApplyBatch, Finish, LabelSettled, SortTags, SortItems;
    SortedOne();
    var r := MarkTwo();
    var again := r.(mints := (n: nat) => Mint(None, Some(if n == 0 then "p" else "q")));
    MarkTwoRuns();
    MarkTwoLeaves();
    var doc := ApplyBatch(Some(ONE_TAG), r).value.doc;
    FirstUnsettled(doc);
    assert "p" !in ItemIds(doc.items) && "q" !in ItemIds(doc.items);
    UnsettledRetry(Some(ONE_TAG), r, again, doc, 0);
  }

  // ----- the order of merges

  /** Merging A into an undefined B that a mark names and then into C moves that mark; merging A and
      then B into C does not find B. */
  lemma MergesDoNotCommute()
    ensures var w := Work([A], [Old("i", "b", OPENING)], None, []);
      var c := Some(OpTag("c", Some("goal")));
      var ab, bc, ac := MergeTag("a", Some(OpTag("b", Some("plan")))), MergeTag("b", c), MergeTag("a", c);
      var chained, direct := MergeTwice(PLAIN, w, ab, bc), MergeTwice(PLAIN, w, ac, bc);
      && chained.Ok? && direct.Ok?
      && exists t :: Targets(chained.value.items, t) != Targets(direct.value.items, t)
  {
    var w := Work([A], [Old("i", "b", OPENING)], None, []);
    var c := Some(OpTag("c", Some("goal")));
    var ab, bc, ac := MergeTag("a", Some(OpTag("b", Some("plan")))), MergeTag("b", c), MergeTag("a", c);
    assert w.tags[0] in w.tags;
    assert ApplyMerge(PLAIN, w, ab).Ok? && ApplyMerge(PLAIN, w, ac).Ok?;
    assert MergeTwice(PLAIN, w, ab, bc).Ok? && MergeTwice(PLAIN, w, ac, bc).Ok?;
    assert OPENING in Targets(w.items, "b");
    MergeOrder(PLAIN, w, ab, bc, ac, bc);
  }

  // ----- labels

  /** Distinct labels become alike when a mark defines a tag by an id of its own. */
  lemma LabelTwice()
    ensures var r, w := MarkMeeting("b", "plan", "m"), Work([A], [], None, []);
      && LabelsDistinct(PLAIN, w.tags) && ApplyOp(r, w, 0).Ok?
      && !LabelsDistinct(PLAIN, ApplyOp(r, w, 0).value.tags)
  {
    var r, w := MarkMeeting("b", "plan", "m"), Work([A], [], None, []);
    PlainText();
    assert w.tags[0] in w.tags;
    LabelsStayDistinctIff(r, w, 0);
  }
}
