/** Stored revisions: that they stay valid over every run, and what becomes of marks that are sent again
    or taken back through the call that writes the next revision. */
module AnnotationStored {
  import opened Wrappers
  import opened Sequences
  import opened Sorting
  import opened AnnotationDocument
  import opened AnnotationOps
  import opened AnnotationInvariants
  import opened AnnotationMutation
  import opened AnnotationRuns
  import opened AnnotationUndo
  import opened AnnotationRetry
  import opened AnnotationEffects
  import opened AnnotationBatches
  import opened AnnotationLabels

  // ----- canonical order twice

  lemma SortedTagsStay(tx: Text, tags: seq<Tag>)
    ensures SortTags(tx, SortTags(tx, tags)) == SortTags(tx, tags)
  {
    hide TagBelow;
    var less := (a: Tag, b: Tag) => TagBelow(tx, a, b);
    TagOrder(tx);
    SortSorted(tags, less);
    SortIdle(SortTags(tx, tags), less);
  }

  lemma SortedItemsStay(items: seq<Item>)
    ensures SortItems(SortItems(items)) == SortItems(items)
  {
    hide ItemBelow;
    ItemOrder();
    SortSorted(items, ItemBelow);
    SortIdle(SortItems(items), ItemBelow);
  }

  /** Canonical order taken twice is canonical order. */
  lemma CanonicalStays(tx: Text, a: Annotations)
    ensures Canonical(tx, Canonical(tx, a)) == Canonical(tx, a)
  {
    hide SortTags, SortItems;
    SortedTagsStay(tx, a.tags);
    SortedItemsStay(a.items);
  }

  // ----- the head of a document

  /** A document with the tags, marks and title of one and the rest of another. */
  function Headed(content: Annotations, head: Annotations): Annotations {
    head.(tags := content.tags, items := content.items, meeting := content.meeting)
  }

  /** What a batch makes of the content does not depend on the rest, and leaves the rest alone. */
  lemma HeadIsKept(a: Annotations, head: Annotations, r: Request)
    ensures ApplyBatch(Some(Headed(a, head)), r) ==
      match ApplyBatch(Some(a), r)
      case Ok(o) => Ok(o.(doc := Headed(o.doc, head)))
      case Err(e) => Err(e)
  {
    hide RunOps, NewIds, Unique, StyledTags, DropUnused, SortTags, SortItems;
  }

  lemma FreshElsewhere(a: Annotations, b: Annotations, r: Request, duration: Int64)
    requires FreshMints(a, r) && TagIds(a.tags) == TagIds(b.tags) && a.items == b.items
    ensures FreshMints(b, r.(duration := duration))
  {
    hide TagIds, UsedIds, ItemIds, NamedBy;
    var bounded := r.(duration := duration);
    forall n | 0 <= n < |r.batch.ops| ensures FreshTag(b, bounded, n) && FreshItem(b, bounded, n) {
      assert FreshTag(a, r, n) && FreshItem(a, r, n);
      assert forall id :: MintedTag(bounded, n, id) <==> MintedTag(r, n, id);
      assert forall id :: MintedItem(bounded, n, id) <==> MintedItem(r, n, id);
    }
  }

  // ----- one stored revision

  /** What a call that succeeds hands out: the content the batch leaves, and a checked head when the
      content changed. */
  lemma Handed(current: Option<Annotations>, r: Request, rec: Recording)
    requires MutateBatch(current, r, rec).Ok?
    ensures var bound := Bound(r.tx, current, rec);
      && ApplyBatch(current, r.(duration := bound)).Ok?
      && var o, out := ApplyBatch(current, r.(duration := bound)).value, MutateBatch(current, r, rec).value;
        && out.changed == o.changed && out.doc == Headed(o.doc, out.doc) && o.doc == Headed(out.doc, Base(current))
        && (out.changed ==> Valid(r.tx, out.doc, bound) && Namespace(current, rec).Some?
                            && out.doc == NextDocument(r.tx, current, o.doc, rec, Namespace(current, rec).value))
        && (!out.changed ==> out.doc == o.doc && Headed(out.doc, Base(current)) == Canonical(r.tx, Base(current)))
        && (out.changed ==> Headed(out.doc, Base(current)) != Canonical(r.tx, Base(current)))
        && !(Unresolved(r.tx, current, rec.audio) && Marks(r.batch))
  {
    hide RunOps, NewIds, Unique, StyledTags, DropUnused, SortTags, SortItems, Valid, Unresolved, Marks, Namespace;
  }

  /** Whether a document keeps marks that were made against other audio. */
  ghost predicate OtherAudio(tx: Text, current: Option<Annotations>, audio: string) {
    && current.Some? && current.value.items != []
    && (current.value.audio == "" || current.value.audio != tx.lower(tx.trim(audio)))
  }

  lemma BatchFailures(current: Option<Annotations>, r: Request)
    requires ApplyBatch(current, r).Err?
    ensures ApplyBatch(current, r).error in {Refused(4), NoRandomness}
  {
    BatchMeans(current, r);
    hide ApplyBatch, ApplyOp, Dressed;
    var works :| IsTrace(r, Base(current), works) && |works| <= |r.batch.ops|
      && ApplyOp(r, Last(works), |works| - 1) == Err(ApplyBatch(current, r).error);
    OpFailures(r, Last(works), |works| - 1);
  }

  /** A call is refused for its audio exactly when it marks a document that keeps marks made against other
      audio. */
  lemma RefusedForAudio(current: Option<Annotations>, r: Request, rec: Recording)
    ensures MutateBatch(current, r, rec) == Err(Refused(5)) <==>
      OtherAudio(r.tx, current, rec.audio) && exists op :: op in r.batch.ops && op.Mark?
  {
    hide ApplyBatch, Valid;
    var bounded := r.(duration := Bound(r.tx, current, rec));
    if ApplyBatch(current, bounded).Err? {
      BatchFailures(current, bounded);
    }
  }

  /** What a stored revision is: the content the batch leaves, time ranges bounded by the recording unless
      marks of other audio are kept, under the next revision number; the namespace it had, or else the one
      given for a new document or minted; and the audio named by the call, unless marks of other audio are
      left. */
  lemma StoredMeans(current: Option<Annotations>, r: Request, rec: Recording)
    requires MutateBatch(current, r, rec).Ok? && MutateBatch(current, r, rec).value.changed
    ensures var doc, base := MutateBatch(current, r, rec).value.doc, Base(current);
      var kept := OtherAudio(r.tx, current, rec.audio);
      var made := ApplyBatch(current, r.(duration := if kept then 0x7fff_ffff_ffff_ffff else rec.duration));
      && made.Ok? && doc == Headed(made.value.doc, doc)
      && doc.format == "cassini.annotations.v1" && doc.revision == base.revision + 1
      && (if base.namespace != "" then doc.namespace == base.namespace
          else if current.None? && rec.namespace != "" then doc.namespace == rec.namespace
          else Some(doc.namespace) == rec.minted)
      && doc.audio == if kept && doc.items != [] then base.audio else rec.audio
  {
    hide ApplyBatch, ContentOk, Canonical;
    Handed(current, r, rec);
    assert OtherAudio(r.tx, current, rec.audio) <==> Unresolved(r.tx, current, rec.audio);
  }

  lemma NoOperations(base: Annotations, r: Request)
    requires r.batch.ops == []
    ensures ApplyBatch(Some(base), r).Ok? && ApplyBatch(Some(base), r).value.doc.items == SortItems(base.items)
  {
    hide SortTags, SortItems, StyledTags, DropUnused, NewIds, Unique;
    assert RunOps(r, Start(base), TagIds(base.tags), 0) == Ok(Progress(Start(base), {}));
  }

  lemma SortedEmpty(items: seq<Item>)
    ensures SortItems(items) == [] <==> items == []
  {
    hide ItemBelow;
    if items != [] {
      assert items[0] in multiset(SortItems(items));
    }
  }

  lemma NoneOrMarks(b: Batch)
    requires OnlyMarks(b)
    ensures b.ops == [] || Marks(b)
  {
    if b.ops != [] {
      assert b.ops[0] in b.ops;
    }
  }

  /** A batch of marks leaves the time bound of the recording as it was for the next call. */
  lemma BoundStays(current: Option<Annotations>, r: Request, rec: Recording)
    requires TextOk(r.tx) && OnlyMarks(r.batch) && MutateBatch(current, r, rec).Ok?
    ensures Unresolved(r.tx, Some(MutateBatch(current, r, rec).value.doc), rec.audio) ==
      Unresolved(r.tx, current, rec.audio)
  {
    hide MutateBatch, ApplyBatch, SortItems, SortTags;
    Handed(current, r, rec);
    SortedEmpty(Base(current).items);
    if Unresolved(r.tx, current, rec.audio) {
      NoneOrMarks(r.batch);
      NoOperations(current.value, r.(duration := Bound(r.tx, current, rec)));
    }
  }

  lemma OutcomeIsCanonical(current: Option<Annotations>, r: Request)
    requires ApplyBatch(current, r).Ok?
    ensures Canonical(r.tx, ApplyBatch(current, r).value.doc) == ApplyBatch(current, r).value.doc
  {
    hide RunOps, NewIds, Unique, StyledTags, DropUnused, SortTags, SortItems;
    var base := Base(current);
    var w := RunOps(r, Start(base), TagIds(base.tags), |r.batch.ops|).value.work;
    var tags := StyledTags(r.tx, w.tags, r.batch.styles, r.batch.initial, TagIds(base.tags));
    CanonicalStays(r.tx, base.(tags := DropUnused(tags, w.items), items := w.items, meeting := w.meeting));
  }

  /** On a canonical document a batch that reports no change gives the document back. */
  lemma IdleGivesBack(doc: Annotations, r: Request)
    requires Canonical(r.tx, doc) == doc && ApplyBatch(Some(doc), r).Ok?
    ensures !ApplyBatch(Some(doc), r).value.changed <==> ApplyBatch(Some(doc), r).value.doc == doc
  {
    hide RunOps, NewIds, Unique, StyledTags, DropUnused, SortTags, SortItems;
  }

  // ----- sending the marks again

  lemma SameSettled(r: Request, a: Annotations, b: Annotations)
    requires a.tags == b.tags && a.items == b.items
    ensures forall n :: 0 <= n < |r.batch.ops| ==> (LabelSettled(r, a, n) <==> LabelSettled(r, b, n))
  {
  }

  /** Sending marks again to the revision they made leaves that revision as it is exactly when each mark
      by label finds a tag that marks its target. */
  lemma StoredRetryIff(current: Option<Annotations>, r: Request, again: Request, rec: Recording)
    requires TextOk(r.tx) && OnlyMarks(r.batch) && FreshMints(Base(current), r) && MutateBatch(current, r, rec).Ok?
    requires IsRetry(r, again) && FreshMints(MutateBatch(current, r, rec).value.doc, again)
    ensures var doc := MutateBatch(current, r, rec).value.doc;
      var second := MutateBatch(Some(doc), again, rec);
      && (second.Ok? && !second.value.changed <==>
          forall n :: 0 <= n < |r.batch.ops| ==> LabelSettled(r.(duration := Bound(r.tx, current, rec)), doc, n))
      && (second.Ok? && !second.value.changed ==> second.value.doc == doc && second.value.added == [])
  {
    hide ApplyBatch, FreshMints, LabelSettled, Canonical, Unresolved, Valid, TextOk;
    var bound := Bound(r.tx, current, rec);
    var bounded, repeated := r.(duration := bound), again.(duration := bound);
    Handed(current, r, rec);
    var doc, made := MutateBatch(current, r, rec).value.doc, ApplyBatch(current, bounded).value.doc;
    BoundStays(current, r, rec);
    FreshElsewhere(Base(current), Base(current), r, bound);
    FreshElsewhere(doc, made, again, bound);
    RetryIff(current, bounded, repeated);
    SameSettled(bounded, made, doc);
    HeadIsKept(made, doc, repeated);
    OutcomeIsCanonical(current, bounded);
    if ApplyBatch(Some(made), repeated).Ok? {
      IdleGivesBack(made, repeated);
    }
    assert Marks(again.batch) <==> Marks(r.batch);
  }

  /** So a retry of marks leaves the revision as it is where the labels of the first result are
      pairwise distinct. */
  lemma StoredRetrySafe(current: Option<Annotations>, r: Request, again: Request, rec: Recording)
    requires TextOk(r.tx) && OnlyMarks(r.batch) && FreshMints(Base(current), r) && MutateBatch(current, r, rec).Ok?
    requires IsRetry(r, again) && FreshMints(MutateBatch(current, r, rec).value.doc, again)
    requires LabelsDistinct(r.tx, MutateBatch(current, r, rec).value.doc.tags)
    ensures var doc := MutateBatch(current, r, rec).value.doc;
      StepTo(Some(doc), Step(again, rec), Some(doc))
  {
    hide ApplyBatch, MutateBatch, FreshMints, Unresolved, Valid, TextOk;
    var bound := Bound(r.tx, current, rec);
    var bounded, repeated := r.(duration := bound), again.(duration := bound);
    Handed(current, r, rec);
    var doc, made := MutateBatch(current, r, rec).value.doc, ApplyBatch(current, bounded).value.doc;
    FreshElsewhere(Base(current), Base(current), r, bound);
    FreshElsewhere(doc, made, again, bound);
    RetrySafe(current, bounded, repeated);
    RetryIff(current, bounded, repeated);
    SameSettled(bounded, made, doc);
    StoredRetryIff(current, r, again, rec);
  }

  // ----- validity for other lengths

  lemma ValidElsewhere(tx: Text, a: Annotations, duration: Int64, other: Int64)
    requires Valid(tx, a, duration) && forall i :: i in a.items ==> TargetOk(i.target, other)
    ensures Valid(tx, a, other)
  {
    hide WellLinked, TargetOk, TagOk, MeetingOk, ActorOk;
    forall i | i in a.items ensures ItemOk(tx, i, other) {
      assert ItemOk(tx, i, duration);
    }
  }

  /** The length a stored document's ranges are bounded by is good for any later call. */
  lemma ValidLater(tx: Text, length: string -> Int64, doc: Annotations, s: Step)
    requires Honest(tx, length, s) && Valid(tx, doc, length(doc.audio))
    ensures Valid(tx, doc, Bound(tx, Some(doc), s.recording))
  {
    hide Valid, TargetOk, TextOk;
    var bound := Bound(tx, Some(doc), s.recording);
    forall i | i in doc.items ensures TargetOk(i.target, bound) {
      ItemInBounds(tx, doc, length(doc.audio), i);
      LongerBound(i.target, length(doc.audio));
    }
    ValidElsewhere(tx, doc, length(doc.audio), bound);
  }

  lemma ItemInBounds(tx: Text, doc: Annotations, duration: Int64, i: Item)
    requires Valid(tx, doc, duration) && i in doc.items
    ensures TargetOk(i.target, duration)
  {
    assert ItemOk(tx, i, duration);
  }

  lemma LongerBound(t: Target, duration: Int64)
    requires TargetOk(t, duration)
    ensures TargetOk(t, MAX_INT64)
  {
  }

  /** A stored document is valid for the audio it names. */
  lemma ValidForItsAudio(tx: Text, length: string -> Int64, current: Option<Annotations>, s: Step, doc: Annotations)
    requires Honest(tx, length, s) && StepTo(current, s, Some(doc)) && current != Some(doc)
    requires current.Some? ==> Valid(tx, current.value, length(current.value.audio))
    ensures Valid(tx, doc, length(doc.audio))
  {
    hide Valid, TargetOk, TextOk, ApplyBatch, Bound;
    if current.Some? {
      ValidInBounds(tx, length, current.value);
    }
    StepFollows(tx, length, current, s, Some(doc));
    Handed(current, s.request, s.recording);
    ValidElsewhere(tx, doc, Bound(tx, current, s.recording), length(doc.audio));
  }

  lemma ValidInBounds(tx: Text, length: string -> Int64, doc: Annotations)
    requires Valid(tx, doc, length(doc.audio))
    ensures InBounds(tx, length, doc)
  {
    hide TargetOk;
    forall i | i in doc.items ensures TargetOk(i.target, length(doc.audio)) {
      assert ItemOk(tx, i, length(doc.audio));
    }
  }

  // ----- runs

  /** After any number of calls what is stored is valid for the audio it names. */
  lemma {:induction false} RunStaysValid(tx: Text, length: string -> Int64, steps: seq<Step>,
                                         states: seq<Option<Annotations>>, n: nat)
    requires IsRun(steps, states) && n <= |steps| && forall s :: s in steps ==> Honest(tx, length, s)
    ensures states[n].Some? ==> Valid(tx, states[n].value, length(states[n].value.audio))
  {
    hide Valid, StepTo, Honest;
    if n > 0 {
      RunStaysValid(tx, length, steps, states, n - 1);
      assert steps[n - 1] in steps && StepTo(states[n - 1], steps[n - 1], states[n - 1 + 1]);
      if states[n] != states[n - 1] {
        StoredAfter(states[n - 1], steps[n - 1], states[n]);
        ValidForItsAudio(tx, length, states[n - 1], steps[n - 1], states[n].value);
      }
    }
  }

  lemma StoredAfter(current: Option<Annotations>, s: Step, next: Option<Annotations>)
    requires StepTo(current, s, next) && next != current
    ensures next.Some?
  {
    hide MutateBatch;
  }

  /** Over any run the final check refuses a well-formed call that changes something exactly for too many
      tags or marks or a revision out of range. */
  lemma RunFinalCheck(tx: Text, length: string -> Int64, steps: seq<Step>, states: seq<Option<Annotations>>, n: nat)
    requires IsRun(steps, states) && n < |steps| && forall s :: s in steps ==> Honest(tx, length, s)
    requires var current, s := states[n], steps[n];
      && InputsOk(s.request) && RecordingOk(tx, current, s.recording) && FreshMints(Base(current), s.request)
      && !(Unresolved(tx, current, s.recording.audio) && Marks(s.request.batch))
      && var o := ApplyBatch(current, s.request.(duration := Bound(tx, current, s.recording))); o.Ok? && o.value.changed
    ensures var current, s := states[n], steps[n];
      var doc := ApplyBatch(current, s.request.(duration := Bound(tx, current, s.recording))).value.doc;
      MutateBatch(current, s.request, s.recording).Ok? <==>
        |doc.tags| <= 200 && |doc.items| <= 2000 && (current.Some? ==> current.value.revision < MAX_INT64)
  {
    hide ApplyBatch, MutateBatch, Valid, InputsOk, RecordingOk, FreshMints, Unresolved, Marks, TextOk, Bound, StepTo;
    var s := steps[n];
    assert s in steps && Honest(tx, length, s);
    RunStaysValid(tx, length, steps, states, n);
    if states[n].Some? {
      ValidLater(tx, length, states[n].value, s);
    }
    FinalCheck(states[n], s.request, s.recording);
  }

  // ----- taking the marks back

  /** The batch that takes back what `r` stored. */
  ghost predicate IsUndo(r: Request, u: Request) {
    u.batch.ops == [UndoOperation(r.stamp.operationId)] && u.tx == r.tx
  }

  /** The content an undo leaves, and that it counts as a change. */
  lemma UndoContent(current: Option<Annotations>, r: Request, u: Request, rec: Recording, bound: Int64)
    requires OnlyMarks(r.batch) && FreshMints(Base(current), r) && MutateBatch(current, r, rec).Ok?
    requires MutateBatch(current, r, rec).value.changed && IsUndo(r, u)
    requires WellLinked(Base(current).tags, Base(current).items)
      && TagIds(Base(current).tags) <= UsedIds(Base(current).items)
    requires r.stamp.operationId != "" && forall i :: i in Base(current).items ==> i.operationId != r.stamp.operationId
    ensures var doc := MutateBatch(current, r, rec).value.doc;
      var undone := ApplyBatch(Some(doc), u.(duration := bound));
      undone.Ok? && undone.value.changed && undone.value.doc == Headed(Canonical(r.tx, Base(current)), doc)
  {
    hide ApplyBatch, MutateBatch, FreshMints, Canonical, Valid, WellLinked;
    var before := Bound(r.tx, current, rec);
    var bounded, undo := r.(duration := before), u.(duration := bound);
    Handed(current, r, rec);
    var doc, made := MutateBatch(current, r, rec).value.doc, ApplyBatch(current, bounded).value.doc;
    FreshElsewhere(Base(current), Base(current), r, before);
    UndoRestores(current, bounded, undo);
    HeadIsKept(made, doc, undo);
    OutcomeIsCanonical(current, bounded);
    IdleGivesBack(made, undo);
  }

  lemma CanonicalSizes(tx: Text, a: Annotations)
    ensures |Canonical(tx, a).tags| == |a.tags| && |Canonical(tx, a).items| == |a.items|
  {
    assert |multiset(SortTags(tx, a.tags))| == |multiset(a.tags)|;
    assert |multiset(SortItems(a.items))| == |multiset(a.items)|;
  }

  lemma UndoInputs(r: Request, u: Request)
    requires IsUndo(r, u)
    ensures !Marks(u.batch)
  {
  }

  lemma BaseIsValid(tx: Text, current: Option<Annotations>, duration: Int64)
    requires current.Some? ==> Valid(tx, current.value, duration)
    ensures var base := Base(current);
      && WellLinked(base.tags, base.items) && |base.tags| <= MAX_TAGS && |base.items| <= MAX_ITEMS
  {
  }

  /** A revision that keeps marks names the audio it named. */
  lemma AudioStays(tx: Text, current: Annotations, content: Annotations, rec: Recording, namespace: string)
    requires TextOk(tx) && current.items != [] && content.items != []
    requires tx.isDigest(NextDocument(tx, Some(current), content, rec, namespace).audio)
    ensures NextDocument(tx, Some(current), content, rec, namespace).audio == current.audio
  {
  }

  /** What two revisions in a row leave of the head of a document. */
  lemma TwoRevisions(tx: Text, current: Annotations, doc: Annotations, undone: Annotations, s: Step, t: Step,
                     made: Annotations, left: Annotations, bound: Int64, later: Int64)
    requires TextOk(tx) && HeadOk(tx, current) && Valid(tx, doc, bound) && Valid(tx, undone, later)
    requires current.items != [] && made.items != [] && left.items != []
    requires var ns := Namespace(Some(current), s.recording);
      ns.Some? && doc == NextDocument(tx, Some(current), made, s.recording, ns.value)
    requires var ns := Namespace(Some(doc), t.recording);
      ns.Some? && undone == NextDocument(tx, Some(doc), left, t.recording, ns.value)
    ensures undone == Headed(undone, current).(revision := undone.revision)
  {
    hide ContentOk, Unresolved, TextOk;
    AudioStays(tx, current, made, s.recording, Namespace(Some(current), s.recording).value);
    AudioStays(tx, doc, left, t.recording, Namespace(Some(doc), t.recording).value);
    NoEmptyNamespace(tx, current);
    NoEmptyNamespace(tx, doc);
  }

  lemma NoEmptyNamespace(tx: Text, a: Annotations)
    requires TextOk(tx) && HeadOk(tx, a)
    ensures a.namespace != "" && a.format == FORMAT_V1
  {
  }

  /** The call that takes marks back succeeds, and leaves the content from before them. */
  lemma UndoSucceeds(current: Option<Annotations>, r: Request, rec: Recording, u: Request, later: Recording)
    requires OnlyMarks(r.batch) && FreshMints(Base(current), r) && MutateBatch(current, r, rec).Ok?
    requires MutateBatch(current, r, rec).value.changed && IsUndo(r, u)
    requires WellLinked(Base(current).tags, Base(current).items)
      && TagIds(Base(current).tags) <= UsedIds(Base(current).items)
    requires |Base(current).tags| <= MAX_TAGS && |Base(current).items| <= MAX_ITEMS
    requires r.stamp.operationId != "" && forall i :: i in Base(current).items ==> i.operationId != r.stamp.operationId
    requires var doc := MutateBatch(current, r, rec).value.doc;
      && Valid(r.tx, doc, Bound(r.tx, Some(doc), later)) && InputsOk(u) && FreshMints(doc, u)
      && RecordingOk(r.tx, Some(doc), later) && doc.revision < MAX_INT64
    ensures var undone := MutateBatch(Some(MutateBatch(current, r, rec).value.doc), u, later);
      undone.Ok? && undone.value.changed && undone.value.doc == Headed(Canonical(r.tx, Base(current)), undone.value.doc)
  {
    hide ApplyBatch, MutateBatch, FreshMints, Canonical, Valid, InputsOk, RecordingOk, Unresolved, Bound, WellLinked,
      Marks;
    var doc := MutateBatch(current, r, rec).value.doc;
    UndoInputs(r, u);
    UndoContent(current, r, u, rec, Bound(r.tx, Some(doc), later));
    CanonicalSizes(r.tx, Base(current));
    FinalCheck(Some(doc), u, later);
    Handed(Some(doc), u, later);
  }

  /** What is left after an undo was there before it. */
  lemma NothingFromNothing(doc: Annotations, u: Request)
    requires !Marks(u.batch) && ApplyBatch(Some(doc), u).Ok? && ApplyBatch(Some(doc), u).value.doc.items != []
    ensures doc.items != []
  {
    hide ApplyBatch;
    UnmarkedTargets(Some(doc), u);
    assert ApplyBatch(Some(doc), u).value.doc.items[0] in ApplyBatch(Some(doc), u).value.doc.items;
  }

  lemma UndoHead(current: Annotations, s: Step, t: Step)
    requires var tx, first := s.request.tx, MutateBatch(Some(current), s.request, s.recording);
      && TextOk(tx) && HeadOk(tx, current) && current.items != [] && first.Ok? && first.value.changed
      && t.request.tx == tx && !Marks(t.request.batch)
      && var second := MutateBatch(Some(first.value.doc), t.request, t.recording);
        second.Ok? && second.value.changed && second.value.doc.items != []
    ensures var first := MutateBatch(Some(current), s.request, s.recording).value.doc;
      var second := MutateBatch(Some(first), t.request, t.recording).value.doc;
      second == Headed(second, current).(revision := second.revision)
  {
    hide ApplyBatch, MutateBatch, Valid, TextOk, HeadOk, Unresolved, Bound, Marks, NextDocument, Namespace;
    var tx := s.request.tx;
    Handed(Some(current), s.request, s.recording);
    var first := MutateBatch(Some(current), s.request, s.recording).value.doc;
    Handed(Some(first), t.request, t.recording);
    var second := MutateBatch(Some(first), t.request, t.recording).value.doc;
    var bound, later := Bound(tx, Some(current), s.recording), Bound(tx, Some(first), t.recording);
    NothingFromNothing(first, t.request.(duration := later));
    TwoRevisions(tx, current, first, second, s, t,
                 ApplyBatch(Some(current), s.request.(duration := bound)).value.doc,
                 ApplyBatch(Some(first), t.request.(duration := later)).value.doc, bound, later);
  }

  lemma RevisionGrows(current: Option<Annotations>, r: Request, rec: Recording)
    requires current.Some? ==> current.value.revision >= 1
    requires MutateBatch(current, r, rec).Ok? && MutateBatch(current, r, rec).value.changed
    ensures var doc := MutateBatch(current, r, rec).value.doc;
      doc.revision == Base(current).revision + 1 && HeadOk(r.tx, doc)
  {
    hide ApplyBatch, MutateBatch, Bound, Unresolved, ContentOk;
    Handed(current, r, rec);
  }

  lemma CanonicalHead(tx: Text, a: Annotations)
    ensures Canonical(tx, a) == Headed(Canonical(tx, a), a)
  {
    hide SortTags, SortItems;
  }

  lemma StoredIsValid(tx: Text, length: string -> Int64, current: Option<Annotations>, s: Step, t: Step,
                      doc: Annotations)
    requires Honest(tx, length, s) && Honest(tx, length, t) && StepTo(current, s, Some(doc)) && current != Some(doc)
    requires current.Some? ==> Valid(tx, current.value, length(current.value.audio))
    ensures Valid(tx, doc, Bound(tx, Some(doc), t.recording)) && (current.Some? ==> HeadOk(tx, current.value))
    ensures var base := Base(current);
      WellLinked(base.tags, base.items) && |base.tags| <= MAX_TAGS && |base.items| <= MAX_ITEMS
  {
    hide WellLinked, HeadOk, Bound, MutateBatch, TextOk;
    ValidForItsAudio(tx, length, current, s, doc);
    ValidLater(tx, length, doc, t);
    if current.Some? {
      BaseIsValid(tx, current, length(current.value.audio));
      assert HeadOk(tx, current.value);
    } else {
      BaseIsValid(tx, current, 0);
    }
  }

  /** Marks stored in one revision and taken back by a later call, against whatever audio: the next
      revision has the tags, marks and title from before. Where there were marks before, nothing but
      the revision number tells the document from the canonical one it was. */
  lemma StoredUndo(current: Option<Annotations>, length: string -> Int64, s: Step, t: Step, doc: Annotations)
    requires Honest(s.request.tx, length, s) && Honest(s.request.tx, length, t)
    requires current.Some? ==> Valid(s.request.tx, current.value, length(current.value.audio))
    requires OnlyMarks(s.request.batch) && FreshMints(Base(current), s.request)
    requires TagIds(Base(current).tags) <= UsedIds(Base(current).items)
    requires forall i :: i in Base(current).items ==> i.operationId != s.request.stamp.operationId
    requires StepTo(current, s, Some(doc)) && current != Some(doc) && doc.revision < MAX_INT64
    requires IsUndo(s.request, t.request) && s.request.stamp.operationId != ""
    requires InputsOk(t.request) && FreshMints(doc, t.request) && RecordingOk(s.request.tx, Some(doc), t.recording)
    ensures var base, undone := Canonical(s.request.tx, Base(current)), MutateBatch(Some(doc), t.request, t.recording);
      && undone.Ok? && StepTo(Some(doc), t, Some(undone.value.doc))
      && undone.value.doc == Headed(base, undone.value.doc)
      && undone.value.doc.revision == Base(current).revision + 2
      && (current.Some? && current.value.items != [] ==> undone.value.doc == base.(revision := base.revision + 2))
  {
    hide ApplyBatch, MutateBatch, FreshMints, Canonical, Valid, InputsOk, RecordingOk, TextOk, Bound, WellLinked, Marks;
    var tx, r, u := s.request.tx, s.request, t.request;
    StoredIsValid(tx, length, current, s, t, doc);
    UndoSucceeds(current, r, s.recording, u, t.recording);
    RevisionGrows(current, r, s.recording);
    RevisionGrows(Some(doc), u, t.recording);
    if current.Some? && current.value.items != [] {
      CanonicalSizes(tx, current.value);
      CanonicalHead(tx, current.value);
      UndoInputs(r, u);
      UndoHead(current.value, s, t);
    }
  }
}
