/** Every run of revisions from no document at all, with the audio under it changing arbitrarily. */
module AnnotationRuns {
  import opened Wrappers
  import opened Sequences
  import opened AnnotationDocument
  import opened AnnotationOps
  import opened AnnotationMerge
  import opened AnnotationMutation

  // ----- batches without a mark only move or drop marks

  ghost predicate TargetsFrom(items: seq<Item>, base: seq<Item>) {
    forall i :: i in items ==> exists b :: b in base && b.target == i.target
  }

  lemma OpTargets(r: Request, w: Work, n: nat, base: seq<Item>)
    requires n < |r.batch.ops| && !r.batch.ops[n].Mark? && ApplyOp(r, w, n).Ok? && TargetsFrom(w.items, base)
    ensures TargetsFrom(ApplyOp(r, w, n).value.items, base)
  {
    var op, w' := r.batch.ops[n], ApplyOp(r, w, n).value;
    match op
    case Unmark(_) => FilterMembers(w.items, OtherThanItem(op.itemId));
    case UnmarkTag(_, _) =>
      FilterMembers(w.items, OtherThanMark(op.tagId, op.target));
    case UndoOperation(_) => FilterMembers(w.items, OtherThanOperation(op.operationId));
    case MergeTag(_, _) =>
      if op.tagId in TagIds(w.tags) {
        MergeMembers(w.items, op.tagId, op.into.value.id, Targets(w.items, op.into.value.id));
        forall m | m in w'.items ensures exists b :: b in base && b.target == m.target {
          assert FromItem(w.items, m, op.tagId, op.into.value.id);
        }
      }
    case _ =>
  }

  lemma AdvanceTargets(r: Request, p: Progress, existing: set<string>, n: nat, base: seq<Item>)
    requires n < |r.batch.ops| && !r.batch.ops[n].Mark? && Advance(r, p, existing, n).Ok?
      && TargetsFrom(p.work.items, base)
    ensures TargetsFrom(Advance(r, p, existing, n).value.work.items, base)
  {
    OpTargets(r, p.work, n, base);
  }

  lemma RunTargets(base: Annotations, r: Request, n: nat)
    requires n <= |r.batch.ops| && !Marks(r.batch) && RunOps(r, Start(base), TagIds(base.tags), n).Ok?
    ensures TargetsFrom(RunOps(r, Start(base), TagIds(base.tags), n).value.work.items, base.items)
  {
    var step := Steps(r, TagIds(base.tags));
    var keeps := (p: Progress, k: nat) => TargetsFrom(p.work.items, base.items);
    forall p, k: nat | k < n && keeps(p, k) && step(p, k).Ok? ensures keeps(step(p, k).value, k + 1) {
      assert r.batch.ops[k] in r.batch.ops;
      AdvanceTargets(r, p, TagIds(base.tags), k, base.items);
    }
    IterateKeeps(Progress(Start(base), {}), step, n, keeps);
  }

  /** A batch without a mark adds no target that was not marked before. */
  lemma UnmarkedTargets(current: Option<Annotations>, r: Request)
    requires ApplyBatch(current, r).Ok? && !Marks(r.batch)
    ensures TargetsFrom(ApplyBatch(current, r).value.doc.items, Base(current).items)
  {
    var base := Base(current);
    RunTargets(base, r, |r.batch.ops|);
    var items := RunOps(r, Start(base), TagIds(base.tags), |r.batch.ops|).value.work.items;
    MultisetMembers(SortItems(items), items);
  }

  // ----- runs

  datatype Step = Step(request: Request, recording: Recording)

  /** What one call leaves stored: a refused or idle one leaves what was there. */
  ghost predicate StepTo(current: Option<Annotations>, s: Step, next: Option<Annotations>) {
    var attempt := MutateBatch(current, s.request, s.recording);
    next == if attempt.Ok? && attempt.value.changed then Some(attempt.value.doc) else current
  }

  /** The documents stored after each of a series of calls, from none. */
  ghost predicate IsRun(steps: seq<Step>, states: seq<Option<Annotations>>) {
    && |states| == |steps| + 1 && states[0].None?
    && forall k :: 0 <= k < |steps| ==> StepTo(states[k], steps[k], states[k + 1])
  }

  /** A call names the audio as it is now together with that audio's length. */
  ghost predicate Honest(tx: Text, length: string -> Int64, s: Step) {
    TextOk(tx) && s.request.tx == tx && s.recording.duration == length(Digest(tx, s.recording.audio))
  }

  ghost predicate InBounds(tx: Text, length: string -> Int64, a: Annotations) {
    && tx.isDigest(a.audio) && tx.isNamespace(a.namespace)
    && forall i :: i in a.items ==> TargetOk(i.target, length(a.audio))
  }

  /** How a stored document may differ from the one before it. */
  ghost predicate Follows(tx: Text, length: string -> Int64, current: Option<Annotations>, next: Option<Annotations>) {
    next == current ||
    (&& next.Some? && InBounds(tx, length, next.value)
     && (current.None? ==> next.value.revision == 1)
     && (current.Some? ==>
         next.value.revision == current.value.revision + 1 && next.value.namespace == current.value.namespace)
     && (current.Some? && current.value.items != [] && next.value.items != [] ==>
       next.value.audio == current.value.audio))
  }

  lemma StepFollows(tx: Text, length: string -> Int64, current: Option<Annotations>, s: Step, next: Option<Annotations>)
    requires Honest(tx, length, s) && StepTo(current, s, next)
    requires current.Some? ==> InBounds(tx, length, current.value)
    ensures Follows(tx, length, current, next)
  {
    if next != current {
      var rec := s.recording;
      var bound := Bound(tx, current, rec);
      var bounded := s.request.(duration := bound);
      var doc, a := ApplyBatch(current, bounded).value.doc, next.value;
      assert a == NextDocument(tx, current, doc, rec, Namespace(current, rec).value) && Valid(tx, a, bound);
      if Unresolved(tx, current, rec.audio) && doc.items != [] {
        assert bounded.batch == s.request.batch && !Marks(bounded.batch);
        UnmarkedTargets(current, bounded);
        forall i | i in a.items ensures TargetOk(i.target, length(a.audio)) {
          var b :| b in current.value.items && b.target == i.target;
        }
      } else {
        forall i | i in a.items ensures TargetOk(i.target, length(a.audio)) {
          assert ItemOk(tx, i, bound);
        }
      }
    }
  }

  lemma FollowsInBounds(tx: Text, length: string -> Int64, current: Option<Annotations>, next: Option<Annotations>)
    requires Follows(tx, length, current, next) && (current.Some? ==> InBounds(tx, length, current.value))
    ensures next.Some? ==> InBounds(tx, length, next.value)
  {
  }

  lemma {:induction false} RunFollows(tx: Text, length: string -> Int64, steps: seq<Step>,
                                      states: seq<Option<Annotations>>, n: nat)
    requires IsRun(steps, states) && n <= |steps| && forall s :: s in steps ==> Honest(tx, length, s)
    ensures states[n].Some? ==> InBounds(tx, length, states[n].value)
    ensures forall k :: 0 <= k < n ==> Follows(tx, length, states[k], states[k + 1])
  {
    hide StepTo, Honest, InBounds, Follows;
    if n > 0 {
      RunFollows(tx, length, steps, states, n - 1);
      assert steps[n - 1] in steps && StepTo(states[n - 1], steps[n - 1], states[n - 1 + 1]);
      StepFollows(tx, length, states[n - 1], steps[n - 1], states[n]);
      FollowsInBounds(tx, length, states[n - 1], states[n]);
    }
  }

  /** The number of calls that changed what is stored. */
  ghost function ChangeCount(states: seq<Option<Annotations>>): nat
    requires states != []
  {
    if |states| == 1 then 0
    else ChangeCount(Init(states)) + if Last(states) != Last(Init(states)) then 1 else 0
  }

  lemma {:induction false} RevisionsFollow(tx: Text, length: string -> Int64, states: seq<Option<Annotations>>)
    requires states != [] && states[0].None?
    requires forall k :: 0 <= k < |states| - 1 ==> Follows(tx, length, states[k], states[k + 1])
    ensures Last(states).None? <==> ChangeCount(states) == 0
    ensures Last(states).Some? ==> Last(states).value.revision == ChangeCount(states)
  {
    if |states| > 1 {
      RevisionsFollow(tx, length, Init(states));
      var k := |states| - 2;
      assert Follows(tx, length, states[k], states[k + 1]);
    }
  }

  /** After any number of calls each time range fits the audio the document is bound to, and the
      revision is the number of calls that changed something. */
  lemma RunStaysBound(tx: Text, length: string -> Int64, steps: seq<Step>, states: seq<Option<Annotations>>, n: nat)
    requires IsRun(steps, states) && n <= |steps| && forall s :: s in steps ==> Honest(tx, length, s)
    ensures states[n].Some? ==>
      InBounds(tx, length, states[n].value) && states[n].value.revision == ChangeCount(states[..n + 1])
  {
    RunFollows(tx, length, steps, states, n);
    var upTo := states[..n + 1];
    forall k | 0 <= k < |upTo| - 1 ensures Follows(tx, length, upTo[k], upTo[k + 1]) {
      assert Follows(tx, length, states[k], states[k + 1]);
    }
    RevisionsFollow(tx, length, upTo);
  }

  lemma {:induction false} BindingsFollow(tx: Text, length: string -> Int64, states: seq<Option<Annotations>>, m: nat,
                                          n: nat)
    requires m <= n < |states| && states[m].Some?
    requires forall k :: 0 <= k < |states| - 1 ==> Follows(tx, length, states[k], states[k + 1])
    ensures states[n].Some? && states[n].value.namespace == states[m].value.namespace
    ensures (forall k :: m <= k <= n ==> states[k].Some? && states[k].value.items != [])
      ==> states[n].value.audio == states[m].value.audio
  {
    if m < n {
      BindingsFollow(tx, length, states, m, n - 1);
      assert Follows(tx, length, states[n - 1], states[n - 1 + 1]);
    }
  }

  /** A namespace once set is the namespace after every later call; and while marks remain, the audio
      they were made against stays the audio the document names, whatever audio the calls bring. */
  lemma RunKeepsBinding(tx: Text, length: string -> Int64, steps: seq<Step>, states: seq<Option<Annotations>>, m: nat,
                        n: nat)
    requires IsRun(steps, states) && m <= n <= |steps| && forall s :: s in steps ==> Honest(tx, length, s)
    requires states[m].Some?
    ensures states[n].Some? && states[n].value.namespace == states[m].value.namespace
    ensures (forall k :: m <= k <= n ==> states[k].Some? && states[k].value.items != [])
      ==> states[n].value.audio == states[m].value.audio
  {
    RunFollows(tx, length, steps, states, |steps|);
    BindingsFollow(tx, length, states, m, n);
  }
}
