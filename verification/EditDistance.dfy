/** Edit scripts between two sequences, the least number of edits, and the metric it makes. */
module EditDistance {
  import opened Sequences

  datatype Edit<T> =
    | Match(ref: T, hyp: T)
    | Substitution(ref: T, hyp: T)
    | Deletion(ref: T)
    | Insertion(hyp: T)

  type Script<T> = seq<Edit<T>>

  /** The reference side a script spells. */
  function Refs<T>(script: Script<T>): seq<T> {
    if script == [] then []
    else Refs(Init(script)) + if Last(script).Insertion? then [] else [Last(script).ref]
  }

  function Hyps<T>(script: Script<T>): seq<T> {
    if script == [] then []
    else Hyps(Init(script)) + if Last(script).Deletion? then [] else [Last(script).hyp]
  }

  predicate Proper<T(==)>(e: Edit<T>) {
    (e.Match? ==> e.ref == e.hyp) && (e.Substitution? ==> e.ref != e.hyp)
  }

  /** The script turns the reference into the hypothesis, and calls equal what is equal. */
  ghost predicate Aligns<T>(script: Script<T>, reference: seq<T>, hypothesis: seq<T>) {
    Refs(script) == reference && Hyps(script) == hypothesis && forall e :: e in script ==> Proper(e)
  }

  /** The number of entries that are not matches. */
  function Cost<T>(script: Script<T>): nat {
    if script == [] then 0 else Cost(Init(script)) + if Last(script).Match? then 0 else 1
  }

  function Min(x: nat, y: nat): nat {
    if x <= y then x else y
  }

  function Differ<T(==)>(x: T, y: T): nat {
    if x == y then 0 else 1
  }

  /** Unit-cost Levenshtein distance, by the last elements. */
  function Distance<T(==)>(a: seq<T>, b: seq<T>): nat
    decreases |a| + |b|
  {
    if a == [] then |b|
    else if b == [] then |a|
    else Min(Min(Distance(Init(a), Init(b)) + Differ(Last(a), Last(b)), Distance(Init(a), b) + 1),
             Distance(a, Init(b)) + 1)
  }

  // ----- optimality

  lemma SnocScript<T(!new)>(script: Script<T>)
    requires script != []
    ensures forall e :: e in Init(script) ==> e in script
    ensures Last(script) in script
  {
    forall e | e in Init(script) ensures e in script {
      var k :| 0 <= k < |script| - 1 && Init(script)[k] == e;
      assert script[k] == e;
    }
  }

  /** No script that aligns two sequences is cheaper than their distance. */
  lemma {:induction false} NoScriptIsCheaper<T(!new)>(script: Script<T>, a: seq<T>, b: seq<T>)
    requires Aligns(script, a, b)
    ensures Cost(script) >= Distance(a, b)
  {
    if script == [] {
      assert a == [] && b == [];
    } else {
      SnocScript(script);
      var rest, e := Init(script), Last(script);
      NoScriptIsCheaper(rest, Refs(rest), Hyps(rest));
      DistanceStep(a, b);
      if e.Insertion? {
        assert a == Refs(rest) && Init(b) == Hyps(rest);
      } else if e.Deletion? {
        assert Init(a) == Refs(rest) && b == Hyps(rest);
      } else {
        assert Init(a) == Refs(rest) && Init(b) == Hyps(rest);
        assert e.Match? ==> Last(a) == Last(b);
      }
    }
  }

  /** One more element is at most one more edit. */
  lemma DistanceStep<T>(a: seq<T>, b: seq<T>)
    ensures a != [] ==> Distance(a, b) <= Distance(Init(a), b) + 1
    ensures b != [] ==> Distance(a, b) <= Distance(a, Init(b)) + 1
    ensures a != [] && b != [] ==> Distance(a, b) <= Distance(Init(a), Init(b)) + Differ(Last(a), Last(b))
  {
  }

  /** The script the traceback follows: diagonal before deletion before insertion. */
  function Trace<T(==)>(a: seq<T>, b: seq<T>): Script<T>
    decreases |a| + |b|
  {
    if a == [] && b == [] then []
    else if a != [] && b != [] && Distance(a, b) == Distance(Init(a), Init(b)) + Differ(Last(a), Last(b)) then
      Trace(Init(a), Init(b)) + [if Last(a) == Last(b) then Match(Last(a), Last(b)) else Substitution(Last(a), Last(b))]
    else if a != [] && Distance(a, b) == Distance(Init(a), b) + 1 then
      Trace(Init(a), b) + [Deletion(Last(a))]
    else
      Trace(a, Init(b)) + [Insertion(Last(b))]
  }

  lemma AlignsSnoc<T(!new)>(script: Script<T>, a: seq<T>, b: seq<T>, e: Edit<T>)
    requires Aligns(script, a, b) && Proper(e)
    ensures Aligns(script + [e], if e.Insertion? then a else a + [e.ref], if e.Deletion? then b else b + [e.hyp])
    ensures Cost(script + [e]) == Cost(script) + if e.Match? then 0 else 1
  {
    assert Init(script + [e]) == script;
  }

  /** The traceback's script aligns its two sequences at a cost no other script undercuts. */
  lemma {:induction false} TraceAligns<T(!new)>(a: seq<T>, b: seq<T>)
    ensures Aligns(Trace(a, b), a, b) && Cost(Trace(a, b)) == Distance(a, b)
    decreases |a| + |b|
  {
    assert a != [] ==> a == Init(a) + [Last(a)];
    assert b != [] ==> b == Init(b) + [Last(b)];
    if a == [] && b == [] {
    } else if a != [] && b != [] && Distance(a, b) == Distance(Init(a), Init(b)) + Differ(Last(a), Last(b)) {
      TraceAligns(Init(a), Init(b));
      AlignsSnoc(Trace(Init(a), Init(b)), Init(a), Init(b),
                 if Last(a) == Last(b) then Match(Last(a), Last(b)) else Substitution(Last(a), Last(b)));
    } else if a != [] && Distance(a, b) == Distance(Init(a), b) + 1 {
      TraceAligns(Init(a), b);
      AlignsSnoc(Trace(Init(a), b), Init(a), b, Deletion(Last(a)));
    } else {
      TraceAligns(a, Init(b));
      AlignsSnoc(Trace(a, Init(b)), a, Init(b), Insertion(Last(b)));
    }
  }

  /** Among all scripts that align two sequences, the traceback's has the least cost. */
  lemma TraceIsOptimal<T(!new)>(a: seq<T>, b: seq<T>, script: Script<T>)
    requires Aligns(script, a, b)
    ensures Aligns(Trace(a, b), a, b) && Cost(Trace(a, b)) <= Cost(script)
  {
    TraceAligns(a, b);
    NoScriptIsCheaper(script, a, b);
  }

  /** How a tie is broken: diagonal before deletion before insertion. */
  function Rank<T>(e: Edit<T>): nat {
    if e.Deletion? then 1 else if e.Insertion? then 2 else 0
  }

  /** Read from the end, the first script is the second or has the preferred entry where they part. */
  ghost predicate Prefers<T>(x: Script<T>, y: Script<T>) {
    if x == [] || y == [] then x == y
    else if Last(x) == Last(y) then Prefers(Init(x), Init(y))
    else Rank(Last(x)) < Rank(Last(y))
  }

  function Before<T>(xs: seq<T>, takes: bool): seq<T>
    requires takes ==> xs != []
  {
    if takes then Init(xs) else xs
  }

  /** An entry that can end a cheapest script is the one the traceback takes, or ranks behind it. */
  lemma TraceLast<T>(a: seq<T>, b: seq<T>, e: Edit<T>)
    requires Proper(e) && (!e.Insertion? ==> a != [] && Last(a) == e.ref)
      && (!e.Deletion? ==> b != [] && Last(b) == e.hyp)
    requires Distance(a, b) == Distance(Before(a, !e.Insertion?), Before(b, !e.Deletion?)) + if e.Match? then 0 else 1
    ensures Trace(a, b) != [] && Rank(Last(Trace(a, b))) <= Rank(e)
    ensures Rank(Last(Trace(a, b))) == Rank(e) ==>
      Last(Trace(a, b)) == e && Init(Trace(a, b)) == Trace(Before(a, !e.Insertion?), Before(b, !e.Deletion?))
  {
  }

  /** Among all the cheapest scripts the traceback takes the one preferred at every tie. */
  lemma {:induction false} TraceBreaksTies<T(!new)>(a: seq<T>, b: seq<T>, script: Script<T>)
    requires Aligns(script, a, b) && Cost(script) == Distance(a, b)
    ensures Prefers(Trace(a, b), script)
    decreases |script|
  {
    if script == [] {
      assert a == [] && b == [];
    } else {
      SnocScript(script);
      var rest, e := Init(script), Last(script);
      var a', b' := Refs(rest), Hyps(rest);
      NoScriptIsCheaper(rest, a', b');
      DistanceStep(a, b);
      assert a == if e.Insertion? then a' else a' + [e.ref];
      assert b == if e.Deletion? then b' else b' + [e.hyp];
      hide Distance, Trace, Refs, Hyps;
      assert Before(a, !e.Insertion?) == a' && Before(b, !e.Deletion?) == b';
      TraceLast(a, b, e);
      if Rank(Last(Trace(a, b))) == Rank(e) {
        TraceBreaksTies(a', b', rest);
      }
    }
  }

  /** If a cheapest script can end with a match or a substitution, the traceback does; and it ends with an
      insertion only if none can end otherwise. */
  lemma InsertionComesLast<T(!new)>(a: seq<T>, b: seq<T>, script: Script<T>)
    requires Aligns(script, a, b) && Cost(script) == Distance(a, b) && script != []
    ensures var trace := Trace(a, b);
      && trace != []
      && (Last(script).Match? || Last(script).Substitution? ==> Last(trace).Match? || Last(trace).Substitution?)
      && (Last(script).Deletion? ==> !Last(trace).Insertion?)
  {
    TraceBreaksTies(a, b, script);
  }

  // ----- by prefixes, as a table holds them

  /** The cell of the table for the first i and the first j elements. */
  lemma DistanceCell<T>(a: seq<T>, b: seq<T>, i: nat, j: nat)
    requires i <= |a| && j <= |b|
    ensures Distance(a[..i], b[..j]) ==
      if i == 0 then j
      else if j == 0 then i
      else Min(Min(Distance(a[..i - 1], b[..j - 1]) + Differ(a[i - 1], b[j - 1]), Distance(a[..i - 1], b[..j]) + 1),
               Distance(a[..i], b[..j - 1]) + 1)
  {
    if i > 0 && j > 0 {
      var x, y := a[..i], b[..j];
      assert Init(x) == a[..i - 1] && Init(y) == b[..j - 1] && Last(x) == a[i - 1] && Last(y) == b[j - 1];
    }
  }

  lemma TraceCell<T>(a: seq<T>, b: seq<T>, i: nat, j: nat)
    requires i <= |a| && j <= |b|
    ensures Trace(a[..i], b[..j]) ==
      if i == 0 && j == 0 then []
      else if i > 0 && j > 0
        && Distance(a[..i], b[..j]) == Distance(a[..i - 1], b[..j - 1]) + Differ(a[i - 1], b[j - 1]) then
        Trace(a[..i - 1], b[..j - 1])
        + [if a[i - 1] == b[j - 1] then Match(a[i - 1], b[j - 1]) else Substitution(a[i - 1], b[j - 1])]
      else if i > 0 && Distance(a[..i], b[..j]) == Distance(a[..i - 1], b[..j]) + 1 then
        Trace(a[..i - 1], b[..j]) + [Deletion(a[i - 1])]
      else if j > 0 then
        Trace(a[..i], b[..j - 1]) + [Insertion(b[j - 1])]
      else []
    ensures (i == 0 || Distance(a[..i], b[..j]) != Distance(a[..i - 1], b[..j]) + 1) && (i > 0 || j > 0) ==> j > 0
  {
    assert i > 0 ==> Init(a[..i]) == a[..i - 1];
    assert j > 0 ==> Init(b[..j]) == b[..j - 1];
  }

  // ----- the metric

  lemma {:induction false} DistanceSymmetric<T>(a: seq<T>, b: seq<T>)
    ensures Distance(a, b) == Distance(b, a)
    decreases |a| + |b|
  {
    if a != [] && b != [] {
      DistanceSymmetric(Init(a), Init(b));
      DistanceSymmetric(Init(a), b);
      DistanceSymmetric(a, Init(b));
    }
  }

  /** Between the difference of the lengths and the longer length. */
  lemma {:induction false} DistanceBounds<T>(a: seq<T>, b: seq<T>)
    ensures |a| - |b| <= Distance(a, b) && |b| - |a| <= Distance(a, b)
    ensures Distance(a, b) <= if |a| >= |b| then |a| else |b|
    decreases |a| + |b|
  {
    if a != [] && b != [] {
      DistanceBounds(Init(a), Init(b));
      DistanceBounds(Init(a), b);
      DistanceBounds(a, Init(b));
    }
  }

  lemma {:induction false} DistanceZero<T>(a: seq<T>, b: seq<T>)
    ensures Distance(a, b) == 0 <==> a == b
    decreases |a| + |b|
  {
    if a != [] && b != [] {
      DistanceZero(Init(a), Init(b));
      assert a == Init(a) + [Last(a)] && b == Init(b) + [Last(b)];
    }
  }

  /** Going through a third sequence never saves an edit. */
  lemma {:induction false} DistanceTriangle<T>(a: seq<T>, b: seq<T>, c: seq<T>)
    ensures Distance(a, c) <= Distance(a, b) + Distance(b, c)
    decreases |a| + |b| + |c|
  {
    DistanceStep(a, c);
    if a == [] {
      DistanceBounds(b, c);
    } else if c == [] {
      DistanceBounds(a, b);
    } else if b == [] {
      DistanceBounds(a, c);
    } else if Distance(a, b) == Distance(Init(a), b) + 1 {
      DistanceTriangle(Init(a), b, c);
    } else if Distance(b, c) == Distance(b, Init(c)) + 1 {
      DistanceTriangle(a, b, Init(c));
    } else if Distance(a, b) == Distance(a, Init(b)) + 1 {
      if Distance(b, c) == Distance(Init(b), c) + 1 {
        DistanceTriangle(a, Init(b), c);
      } else {
        DistanceTriangle(a, Init(b), Init(c));
      }
    } else if Distance(b, c) == Distance(Init(b), c) + 1 {
      DistanceTriangle(Init(a), Init(b), c);
    } else {
      DistanceTriangle(Init(a), Init(b), Init(c));
    }
  }
}
