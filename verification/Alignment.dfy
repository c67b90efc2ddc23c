/** The two programs that compute edit distance: a full table with traceback, and two rows with the
    arguments swapped; and the scores derived from an alignment. */
module Alignment {
  import opened Wrappers
  import opened Sequences
  import opened EditDistance

  function Reversed<T>(xs: seq<T>): seq<T> {
    if xs == [] then [] else [Last(xs)] + Reversed(Init(xs))
  }

  /** The first i rows of the table, and the first j cells of the row after them. */
  ghost predicate Filled<T>(d: array2<nat>, a: seq<T>, b: seq<T>, i: nat, j: nat)
    requires i <= |a| + 1 && j <= |b| + 1
    reads d
  {
    && d.Length0 == |a| + 1 && d.Length1 == |b| + 1
    && (forall k, l :: 0 <= k < i && 0 <= l <= |b| ==> d[k, l] == Distance(a[..k], b[..l]))
    && (i <= |a| ==> forall l :: 0 <= l < j ==> d[i, l] == Distance(a[..i], b[..l]))
  }

  lemma Cell<T>(d: array2<nat>, a: seq<T>, b: seq<T>, i: nat, j: nat)
    requires i <= |a| && j <= |b| && Filled(d, a, b, |a| + 1, 0)
    ensures d.Length0 == |a| + 1 && d.Length1 == |b| + 1 && d[i, j] == Distance(a[..i], b[..j])
  {
  }

  /** Fills one row from the row above it. */
  method FillRow<T(==)>(d: array2<nat>, reference: seq<T>, hypothesis: seq<T>, i: nat)
    requires 1 <= i <= |reference| && Filled(d, reference, hypothesis, i, 0) && d[i, 0] == i
    modifies d
    ensures Filled(d, reference, hypothesis, i + 1, 0)
    ensures forall k, l :: 0 <= k <= |reference| && k != i && 0 <= l <= |hypothesis| ==> d[k, l] == old(d[k, l])
  {
    hide Distance;
    DistanceCell(reference, hypothesis, i, 0);
    for j := 1 to |hypothesis| + 1
      invariant Filled(d, reference, hypothesis, i, j)
      invariant forall k, l :: 0 <= k <= |reference| && k != i && 0 <= l <= |hypothesis| ==> d[k, l] == old(d[k, l])
    {
      DistanceCell(reference, hypothesis, i, j);
      d[i, j] := Min(Min(d[i - 1, j - 1] + Differ(reference[i - 1], hypothesis[j - 1]), d[i - 1, j] + 1),
                     d[i, j - 1] + 1);
    }
  }

  method FillTable<T(==)>(reference: seq<T>, hypothesis: seq<T>) returns (d: array2<nat>)
    ensures fresh(d) && Filled(d, reference, hypothesis, |reference| + 1, 0)
  {
    hide Distance;
    d := new nat[|reference| + 1, |hypothesis| + 1]((i, j) => 0);
    for i := 0 to |reference| + 1
      invariant forall k :: 0 <= k < i ==> d[k, 0] == k
    {
      d[i, 0] := i;
    }
    for j := 0 to |hypothesis| + 1
      invariant forall k :: 0 <= k <= |reference| ==> d[k, 0] == k
      invariant forall k :: 0 <= k < j ==> d[0, k] == k
    {
      d[0, j] := j;
    }
    forall l | 0 <= l <= |hypothesis| ensures d[0, l] == Distance(reference[..0], hypothesis[..l]) {
      DistanceCell(reference, hypothesis, 0, l);
    }
    for i := 1 to |reference| + 1
      invariant forall k :: i <= k <= |reference| ==> d[k, 0] == k
      invariant Filled(d, reference, hypothesis, i, 0)
    {
      FillRow(d, reference, hypothesis, i);
    }
  }

  lemma NothingRead<T>(reference: seq<T>, hypothesis: seq<T>)
    ensures var none: Script<T> := []; Trace(reference, hypothesis) == Trace(reference, hypothesis) + Reversed(none)
  {
  }

  lemma ReadBack<T>(before: Script<T>, after: Script<T>, e: Edit<T>, backwards: Script<T>)
    requires before == after + [e]
    ensures before + Reversed(backwards) == after + Reversed(backwards + [e])
  {
    assert Init(backwards + [e]) == backwards;
  }

  /** The alignment of two token lists, read back from the table. */
  method Align<T(==)>(reference: seq<T>, hypothesis: seq<T>) returns (operations: Script<T>)
    ensures operations == Trace(reference, hypothesis)
  {
    hide Distance, Trace, Filled, Reversed;
    var d := FillTable(reference, hypothesis);
    var i, j := |reference|, |hypothesis|;
    assert reference[..i] == reference && hypothesis[..j] == hypothesis;
    var backwards: Script<T> := [];
    NothingRead(reference, hypothesis);
    Cell(d, reference, hypothesis, i, j);
    while i != 0 || j != 0
      invariant 0 <= i <= |reference| && 0 <= j <= |hypothesis|
      invariant d.Length0 == |reference| + 1 && d.Length1 == |hypothesis| + 1
        && Filled(d, reference, hypothesis, |reference| + 1, 0)
      invariant Trace(reference, hypothesis) == Trace(reference[..i], hypothesis[..j]) + Reversed(backwards)
      decreases i + j
    {
      TraceCell(reference, hypothesis, i, j);
      Cell(d, reference, hypothesis, i, j);
      ghost var before := Trace(reference[..i], hypothesis[..j]);
      var e: Edit<T>;
      if i != 0 && j != 0 { Cell(d, reference, hypothesis, i - 1, j - 1); }
      if i != 0 { Cell(d, reference, hypothesis, i - 1, j); }
      if i != 0 && j != 0 && d[i, j] == d[i - 1, j - 1] + Differ(reference[i - 1], hypothesis[j - 1]) {
        i, j := i - 1, j - 1;
        e := if reference[i] == hypothesis[j] then Match(reference[i], hypothesis[j])
             else Substitution(reference[i], hypothesis[j]);
      } else if i != 0 && d[i, j] == d[i - 1, j] + 1 {
        i := i - 1;
        e := Deletion(reference[i]);
      } else {
        j := j - 1;
        e := Insertion(hypothesis[j]);
      }
      ReadBack(before, Trace(reference[..i], hypothesis[..j]), e, backwards);
      backwards := backwards + [e];
    }
    TraceCell(reference, hypothesis, 0, 0);
    operations := Reversed(backwards);
  }

  /** The distance from two rows, the longer sequence down and the shorter across. */
  method Lev<T(==)>(first: seq<T>, second: seq<T>) returns (distance: nat)
    ensures distance == Distance(first, second)
  {
    hide Distance;
    var a, b := first, second;
    DistanceSymmetric(first, second);
    if |a| < |b| {
      a, b := b, a;
    }
    assert a[..|a|] == a && b[..|b|] == b;
    DistanceCell(a, b, |a|, |b|);
    if b == [] {
      return |a|;
    }
    var prev: seq<nat> := seq(|b| + 1, j requires 0 <= j => j);
    forall j | 0 <= j <= |b| ensures prev[j] == Distance(a[..0], b[..j]) {
      DistanceCell(a, b, 0, j);
    }
    for i := 1 to |a| + 1
      invariant |prev| == |b| + 1
      invariant forall j :: 0 <= j <= |b| ==> prev[j] == Distance(a[..i - 1], b[..j])
    {
      var curr: seq<nat> := [i];
      DistanceCell(a, b, i, 0);
      for j := 1 to |b| + 1
        invariant |curr| == j
        invariant forall k :: 0 <= k < j ==> curr[k] == Distance(a[..i], b[..k])
      {
        DistanceCell(a, b, i, j);
        curr := curr + [Min(Min(curr[j - 1] + 1, prev[j] + 1), prev[j - 1] + Differ(a[i - 1], b[j - 1]))];
      }
      prev := curr;
    }
    return prev[|b|];
  }

  /** The share of the longer text that need not be edited. */
  function Ratio(distance: nat, longest: nat): real {
    if longest == 0 then 0.0 else 1.0 - distance as real / longest as real
  }

  /** A ratio is a share, and it is whole exactly when the texts are the same and there is text. */
  lemma RatioIsShare<T>(a: seq<T>, b: seq<T>)
    ensures var longest := if |a| >= |b| then |a| else |b|;
      var ratio := Ratio(Distance(a, b), longest);
      && 0.0 <= ratio <= 1.0 && (ratio == 1.0 <==> a == b && a != [])
      && ratio * longest as real == (longest - Distance(a, b)) as real && (longest == 0 ==> ratio == 0.0)
  {
    hide Distance, Ratio;
    DistanceBounds(a, b);
    DistanceZero(a, b);
    var longest := if |a| >= |b| then |a| else |b|;
    RatioTimes(Distance(a, b), longest);
  }

  lemma RatioTimes(distance: nat, longest: nat)
    requires distance <= longest
    ensures var ratio := Ratio(distance, longest);
      && 0.0 <= ratio <= 1.0 && (ratio == 1.0 <==> longest != 0 && distance == 0)
      && ratio * longest as real == (longest - distance) as real && (longest == 0 ==> ratio == 0.0)
  {
    if longest != 0 {
      ShareOf(distance, longest);
      var x := distance as real / longest as real;
      assert x * longest as real == distance as real;
    }
  }

  lemma ShareOf(part: nat, whole: nat)
    requires part <= whole && whole != 0
    ensures 0.0 <= part as real / whole as real <= 1.0
    ensures part as real / whole as real == 0.0 <==> part == 0
  {
    var x := part as real / whole as real;
    assert x * whole as real == part as real;
  }

  // ----- scores

  function CountMatches<T>(script: Script<T>): nat {
    if script == [] then 0 else CountMatches(Init(script)) + if Last(script).Match? then 1 else 0
  }

  function CountSubstitutions<T>(script: Script<T>): nat {
    if script == [] then 0 else CountSubstitutions(Init(script)) + if Last(script).Substitution? then 1 else 0
  }

  function CountDeletions<T>(script: Script<T>): nat {
    if script == [] then 0 else CountDeletions(Init(script)) + if Last(script).Deletion? then 1 else 0
  }

  function CountInsertions<T>(script: Script<T>): nat {
    if script == [] then 0 else CountInsertions(Init(script)) + if Last(script).Insertion? then 1 else 0
  }

  /** The places of a script whose entries are of a kind. */
  ghost function Places<T>(script: Script<T>, kind: Edit<T> -> bool): set<nat> {
    set n: nat | n < |script| && kind(script[n])
  }

  lemma PlacesSnoc<T(!new)>(script: Script<T>, kind: Edit<T> -> bool)
    requires script != []
    ensures |Places(script, kind)| == |Places(Init(script), kind)| + if kind(Last(script)) then 1 else 0
  {
    var n := |script| - 1;
    assert Places(script, kind) == Places(Init(script), kind) + if kind(Last(script)) then {n} else {};
    assert n !in Places(Init(script), kind);
  }

  /** The counts are how many entries of each kind there are. */
  lemma {:induction false} CountsArePlaces<T(!new)>(script: Script<T>)
    ensures CountMatches(script) == |Places(script, (e: Edit<T>) => e.Match?)|
    ensures CountSubstitutions(script) == |Places(script, (e: Edit<T>) => e.Substitution?)|
    ensures CountDeletions(script) == |Places(script, (e: Edit<T>) => e.Deletion?)|
    ensures CountInsertions(script) == |Places(script, (e: Edit<T>) => e.Insertion?)|
  {
    if script != [] {
      CountsArePlaces(Init(script));
      PlacesSnoc(script, (e: Edit<T>) => e.Match?);
      PlacesSnoc(script, (e: Edit<T>) => e.Substitution?);
      PlacesSnoc(script, (e: Edit<T>) => e.Deletion?);
      PlacesSnoc(script, (e: Edit<T>) => e.Insertion?);
    }
  }

  /** The tokens a script matches. */
  function Matched<T>(script: Script<T>): multiset<T> {
    if script == [] then multiset{}
    else Matched(Init(script)) + if Last(script).Match? then multiset{Last(script).ref} else multiset{}
  }

  /** Every entry is of one kind, each reference token is in one entry, and so is each hypothesis token. */
  lemma {:induction false} CountsAddUp<T>(script: Script<T>)
    ensures CountMatches(script) + CountSubstitutions(script) + CountDeletions(script) == |Refs(script)|
    ensures CountMatches(script) + CountSubstitutions(script) + CountInsertions(script) == |Hyps(script)|
    ensures CountSubstitutions(script) + CountDeletions(script) + CountInsertions(script) == Cost(script)
    ensures |Matched(script)| == CountMatches(script)
  {
    if script != [] {
      CountsAddUp(Init(script));
    }
  }

  lemma {:induction false} MatchedInBoth<T(!new)>(script: Script<T>)
    requires forall e :: e in script ==> Proper(e)
    ensures Matched(script) <= multiset(Refs(script)) && Matched(script) <= multiset(Hyps(script))
  {
    if script != [] {
      SnocScript(script);
      MatchedInBoth(Init(script));
    }
  }

  lemma SubMultisetSmaller<T>(a: multiset<T>, b: multiset<T>)
    requires a <= b
    ensures |a| <= |b|
  {
    assert b == a + (b - a);
  }

  /** One scored row: what the alignment of a reference with a hypothesis counts. */
  datatype Scored = Scored(
    referenceTokens: nat, substitutions: nat, deletions: nat, insertions: nat, matches: nat, errors: nat,
    exactRecall: Option<real>, lexicalRecall: Option<real>, wordErrorRate: Option<real>)

  function Share(part: nat, whole: nat): Option<real> {
    if whole == 0 then None else Some(part as real / whole as real)
  }

  method ScoreRow<T(==)>(reference: seq<T>, hypothesis: seq<T>) returns (row: Scored)
    ensures row == ScoreOf(reference, hypothesis)
  {
    var operations := Align(reference, hypothesis);
    var substitutions, deletions, insertions := 0, 0, 0;
    var matches := 0;
    for n := 0 to |operations|
      invariant substitutions == CountSubstitutions(operations[..n]) && deletions == CountDeletions(operations[..n])
      invariant insertions == CountInsertions(operations[..n]) && matches == CountMatches(operations[..n])
    {
      assert Init(operations[..n + 1]) == operations[..n];
      match operations[n] {
        case Match(_, _) => matches := matches + 1;
        case Substitution(_, _) => substitutions := substitutions + 1;
        case Deletion(_) => deletions := deletions + 1;
        case Insertion(_) => insertions := insertions + 1;
      }
    }
    assert operations[..|operations|] == operations;
    var errors := substitutions + deletions + insertions;
    var common := multiset(reference) * multiset(hypothesis);
    row := Scored(|reference|, substitutions, deletions, insertions, matches, errors,
      Share(matches, |reference|), Share(|common|, |reference|), Share(errors, |reference|));
  }

  /** The tokens both sides have, each as often as both do. */
  function Common<T>(a: seq<T>, b: seq<T>): multiset<T> {
    multiset(a) * multiset(b)
  }

  function ScoreOf<T(==)>(reference: seq<T>, hypothesis: seq<T>): Scored {
    var script := Trace(reference, hypothesis);
    var errors := CountSubstitutions(script) + CountDeletions(script) + CountInsertions(script);
    Scored(|reference|, CountSubstitutions(script), CountDeletions(script), CountInsertions(script),
      CountMatches(script), errors,
      Share(CountMatches(script), |reference|),
      Share(|Common(reference, hypothesis)|, |reference|),
      Share(errors, |reference|))
  }

  /** The error count is the edit distance, each token is counted once, and matching in order never
      recalls more than matching in any order, which never recalls more than everything. */
  lemma ScoresAreOrdered<T(!new)>(reference: seq<T>, hypothesis: seq<T>)
    ensures var row := ScoreOf(reference, hypothesis);
      && row.errors == Distance(reference, hypothesis)
      && row.matches + row.substitutions + row.deletions == row.referenceTokens
      && row.matches + row.substitutions + row.insertions == |hypothesis|
      && (reference != [] ==> 0.0 <= row.exactRecall.value <= row.lexicalRecall.value <= 1.0)
      && (reference != [] ==> (row.exactRecall.value == 1.0 <==> row.errors == row.insertions))
  {
    hide Trace, Distance, CountMatches, CountSubstitutions, CountDeletions, CountInsertions, Matched, Refs, Hyps, Cost;
    var script := Trace(reference, hypothesis);
    TraceAligns(reference, hypothesis);
    CountsAddUp(script);
    MatchedInBoth(script);
    var common := multiset(reference) * multiset(hypothesis);
    assert Matched(script) <= common;
    SubMultisetSmaller(Matched(script), common);
    SubMultisetSmaller(common, multiset(reference));
    if reference != [] {
      SharesOrdered(CountMatches(script), |common|, |reference|);
      ShareOf(|reference| - CountMatches(script), |reference|);
      WholeShare(CountMatches(script), |reference|);
    }
  }

  lemma ShareTimesWhole(part: nat, whole: nat)
    ensures Share(part, whole).None? <==> whole == 0
    ensures whole != 0 ==> Share(part, whole).value * whole as real == part as real
  {
  }

  /** What a scored row says of a reference and a hypothesis: the counts are of the entries of their
      alignment, and each rate is a count over the reference tokens, or none without any. Recall in any
      order counts each token as often as both sides have it. */
  lemma ScoreMeans<T(!new)>(reference: seq<T>, hypothesis: seq<T>)
    ensures var row, script, n := ScoreOf(reference, hypothesis), Trace(reference, hypothesis), |reference|;
      && row.referenceTokens == n
      && row.matches == |Places(script, (e: Edit<T>) => e.Match?)|
      && row.substitutions == |Places(script, (e: Edit<T>) => e.Substitution?)|
      && row.deletions == |Places(script, (e: Edit<T>) => e.Deletion?)|
      && row.insertions == |Places(script, (e: Edit<T>) => e.Insertion?)|
      && row.errors == row.substitutions + row.deletions + row.insertions
      && (if n == 0 then row.exactRecall == row.lexicalRecall == row.wordErrorRate == None
          else
            && row.exactRecall.Some? && row.exactRecall.value * n as real == row.matches as real
            && row.lexicalRecall.Some? && row.lexicalRecall.value * n as real == |Common(reference, hypothesis)| as real
            && row.wordErrorRate.Some? && row.wordErrorRate.value * n as real == row.errors as real)
      && forall t :: Common(reference, hypothesis)[t] ==
           if multiset(reference)[t] <= multiset(hypothesis)[t] then multiset(reference)[t] else multiset(hypothesis)[t]
  {
    CountsArePlaces(Trace(reference, hypothesis));
    RatesMean(reference, hypothesis);
    hide Trace, CountMatches, CountSubstitutions, CountDeletions, CountInsertions, Share, Places;
  }

  lemma RatesMean<T>(reference: seq<T>, hypothesis: seq<T>)
    ensures var row, n := ScoreOf(reference, hypothesis), |reference|;
      if n == 0 then row.exactRecall == row.lexicalRecall == row.wordErrorRate == None
      else
        && row.exactRecall.Some? && row.exactRecall.value * n as real == row.matches as real
        && row.lexicalRecall.Some? && row.lexicalRecall.value * n as real == |Common(reference, hypothesis)| as real
        && row.wordErrorRate.Some? && row.wordErrorRate.value * n as real == row.errors as real
  {
    hide Trace, CountMatches, CountSubstitutions, CountDeletions, CountInsertions, Share, Common;
    var row := ScoreOf(reference, hypothesis);
    ShareTimesWhole(row.matches, |reference|);
    ShareTimesWhole(|Common(reference, hypothesis)|, |reference|);
    ShareTimesWhole(row.errors, |reference|);
  }

  lemma SharesOrdered(x: nat, y: nat, whole: nat)
    requires x <= y <= whole && whole != 0
    ensures 0.0 <= x as real / whole as real <= y as real / whole as real <= 1.0
  {
    ShareOf(x, whole);
    ShareOf(y, whole);
    var p, q := x as real / whole as real, y as real / whole as real;
    assert (q - p) * whole as real == (y - x) as real;
    NonNegativeFactor(q - p, whole as real);
  }

  lemma NonNegativeFactor(x: real, y: real)
    requires y > 0.0 && x * y >= 0.0
    ensures x >= 0.0
  {
    if x < 0.0 {
      NegativeFactor(x, y);
    }
  }

  lemma NegativeFactor(x: real, y: real)
    requires x < 0.0 && y > 0.0
    ensures x * y < 0.0
  {
  }

  lemma WholeShare(part: nat, whole: nat)
    requires part <= whole && whole != 0
    ensures part as real / whole as real == 1.0 <==> part == whole
  {
    var x := part as real / whole as real;
    assert x * whole as real == part as real;
  }

  // ----- totals over rows

  /** A row as the aggregation sees it; unscored when its fixture has no reference. */
  datatype Row = Row(scored: Option<Scored>, directSpeech: Option<bool>)

  predicate IsSpeech(r: Row) {
    r.scored.Some? && r.scored.value.referenceTokens > 0 && r.directSpeech != Some(false)
  }

  datatype Totals = Totals(referenceTokens: nat, substitutions: nat, deletions: nat, insertions: nat, matches: nat,
    errors: nat)

  function Sum(rows: seq<Row>): Totals {
    if rows == [] then Totals(0, 0, 0, 0, 0, 0)
    else
      var t, r := Sum(Init(rows)), Last(rows);
      if !IsSpeech(r) then t
      else
        var s := r.scored.value;
        Totals(t.referenceTokens + s.referenceTokens, t.substitutions + s.substitutions, t.deletions + s.deletions,
               t.insertions + s.insertions, t.matches + s.matches, t.errors + s.errors)
  }

  function Plus(a: Totals, b: Totals): Totals {
    Totals(a.referenceTokens + b.referenceTokens, a.substitutions + b.substitutions, a.deletions + b.deletions,
           a.insertions + b.insertions, a.matches + b.matches, a.errors + b.errors)
  }

  /** The totals of one row are its counts if it is scored speech, and nothing otherwise. */
  lemma SumOfOne(r: Row)
    ensures Sum([r]) ==
      if r.scored.Some? && r.scored.value.referenceTokens > 0 && (r.directSpeech.None? || r.directSpeech.value) then
        var s := r.scored.value;
        Totals(s.referenceTokens, s.substitutions, s.deletions, s.insertions, s.matches, s.errors)
      else Totals(0, 0, 0, 0, 0, 0)
  {
    assert Init([r]) == [] && Last([r]) == r;
    assert r.directSpeech.Some? ==> (r.directSpeech == Some(false) <==> !r.directSpeech.value);
  }

  /** The totals of two lists of rows together are the sums of their totals. */
  lemma {:induction false} SumAdds(a: seq<Row>, b: seq<Row>)
    ensures Sum(a + b) == Plus(Sum(a), Sum(b))
  {
    if b == [] {
      assert a + b == a;
    } else {
      SumAdds(a, Init(b));
      assert Init(a + b) == a + Init(b);
    }
  }

  lemma EmptyInsertionsOfOne(r: Row)
    ensures EmptyInsertions([r]) ==
      if r.scored.Some? && r.scored.value.referenceTokens == 0 then r.scored.value.insertions else 0
  {
    assert Init([r]) == [];
  }

  lemma {:induction false} EmptyInsertionsAdds(a: seq<Row>, b: seq<Row>)
    ensures EmptyInsertions(a + b) == EmptyInsertions(a) + EmptyInsertions(b)
  {
    if b == [] {
      assert a + b == a;
    } else {
      EmptyInsertionsAdds(a, Init(b));
      assert Init(a + b) == a + Init(b);
    }
  }

  /** A row taken out of the middle and put at the end. */
  lemma MoveToEnd(before: seq<Row>, x: Row, after: seq<Row>)
    ensures Sum(before + [x] + after) == Sum(before + after + [x])
    ensures EmptyInsertions(before + [x] + after) == EmptyInsertions(before + after + [x])
  {
    hide Sum, EmptyInsertions;
    SumAdds(before + [x], after);
    SumAdds(before, [x]);
    SumAdds(before + after, [x]);
    SumAdds(before, after);
    EmptyInsertionsAdds(before + [x], after);
    EmptyInsertionsAdds(before, [x]);
    EmptyInsertionsAdds(before + after, [x]);
    EmptyInsertionsAdds(before, after);
  }

  lemma WithoutOne(before: seq<Row>, x: Row, after: seq<Row>)
    ensures multiset(before + [x] + after) == multiset(before + after) + multiset{x}
  {
  }

  lemma Cancel(a: multiset<Row>, b: multiset<Row>, x: Row)
    requires a + multiset{x} == b + multiset{x}
    ensures a == b
  {
    assert a == (a + multiset{x}) - multiset{x};
  }

  lemma SplitAt(b: seq<Row>, x: Row) returns (before: seq<Row>, after: seq<Row>)
    requires x in b
    ensures b == before + [x] + after
  {
    var k :| 0 <= k < |b| && b[k] == x;
    before, after := b[..k], b[k + 1..];
  }

  lemma TakeOut(a: seq<Row>, b: seq<Row>) returns (before: seq<Row>, after: seq<Row>)
    requires a != [] && multiset(a) == multiset(b)
    ensures b == before + [Last(a)] + after && multiset(before + after) == multiset(Init(a))
  {
    LastInMultiset(a);
    assert Last(a) in multiset(b);
    before, after := SplitAt(b, Last(a));
    WithoutOne(before, Last(a), after);
    Cancel(multiset(before + after), multiset(Init(a)), Last(a));
  }

  /** The order of the rows does not matter. */
  lemma {:induction false} SumPermuted(a: seq<Row>, b: seq<Row>)
    requires multiset(a) == multiset(b)
    ensures Sum(a) == Sum(b) && EmptyInsertions(a) == EmptyInsertions(b)
  {
    MultisetMembers(a, b);
    if a != [] {
      var before, after := TakeOut(a, b);
      MoveToEnd(before, Last(a), after);
      SumPermuted(Init(a), before + after);
      assert Init(before + after + [Last(a)]) == before + after;
    }
  }

  /** The rates of an aggregate are its totals over the reference tokens, and there are none without any. */
  lemma AggregateMeans(rows: seq<Row>)
    ensures var a := AggregateRows(rows);
      && a.totals == Sum(rows) && a.emptyReferenceInsertions == EmptyInsertions(rows)
      && (if a.totals.referenceTokens == 0 then a.exactRecall == a.wordErrorRate == None
          else
            var n := a.totals.referenceTokens as real;
            && a.exactRecall.Some? && a.exactRecall.value * n == a.totals.matches as real
            && a.wordErrorRate.Some? && a.wordErrorRate.value * n == a.totals.errors as real)
  {
    hide Sum, EmptyInsertions, Share;
    var t := Sum(rows);
    ShareTimesWhole(t.matches, t.referenceTokens);
    ShareTimesWhole(t.errors, t.referenceTokens);
  }

  datatype Aggregate = Aggregate(totals: Totals, wordErrorRate: Option<real>, exactRecall: Option<real>,
    emptyReferenceInsertions: nat)

  function EmptyInsertions(rows: seq<Row>): nat {
    if rows == [] then 0
    else
      var r := Last(rows);
      EmptyInsertions(Init(rows)) +
        if r.scored.Some? && r.scored.value.referenceTokens == 0 then r.scored.value.insertions else 0
  }

  function AggregateRows(rows: seq<Row>): Aggregate {
    var t := Sum(rows);
    Aggregate(t, Share(t.errors, t.referenceTokens), Share(t.matches, t.referenceTokens), EmptyInsertions(rows))
  }

  /** The row was scored from some reference and hypothesis. */
  ghost predicate Counted(s: Scored) {
    s.matches + s.substitutions + s.deletions == s.referenceTokens
      && s.errors == s.substitutions + s.deletions + s.insertions
  }

  /** Scoring any reference against any hypothesis gives a row the totals below speak about. */
  lemma ScoredRowsAreCounted<T(!new)>(reference: seq<T>, hypothesis: seq<T>)
    ensures Counted(ScoreOf(reference, hypothesis))
  {
    ScoresAreOrdered(reference, hypothesis);
    CountsAddUp(Trace(reference, hypothesis));
  }

  /** Over any rows, scored or not: reference tokens are matched, substituted or deleted; recall stays a
      share; and what is not recalled is an error. */
  lemma {:induction false} TotalsAddUp(rows: seq<Row>)
    requires forall r :: r in rows && r.scored.Some? ==> Counted(r.scored.value)
    ensures var t := Sum(rows);
      && t.matches + t.substitutions + t.deletions == t.referenceTokens
      && t.errors == t.substitutions + t.deletions + t.insertions
  {
    if rows != [] {
      assert Last(rows) in rows && forall r :: r in Init(rows) ==> r in rows;
      TotalsAddUp(Init(rows));
    }
  }

  lemma SharesCover(x: nat, y: nat, whole: nat)
    requires x <= whole <= x + y && whole != 0
    ensures 0.0 <= x as real / whole as real <= 1.0
    ensures x as real / whole as real + y as real / whole as real >= 1.0
  {
    ShareOf(x, whole);
    var p, q, n := x as real / whole as real, y as real / whole as real, whole as real;
    assert (p + q - 1.0) * n == (x + y - whole) as real;
    NonNegativeFactor(p + q - 1.0, n);
  }

  lemma AggregateIsConsistent(rows: seq<Row>)
    requires forall r :: r in rows && r.scored.Some? ==> Counted(r.scored.value)
    ensures var a := AggregateRows(rows);
      && (a.exactRecall.Some? <==> exists r :: r in rows && IsSpeech(r))
      && (a.exactRecall.Some? ==>
          0.0 <= a.exactRecall.value <= 1.0 && a.exactRecall.value + a.wordErrorRate.value >= 1.0)
  {
    hide Sum, EmptyInsertions;
    TotalsAddUp(rows);
    SpeechCounts(rows);
    var t := Sum(rows);
    if t.referenceTokens != 0 {
      SharesCover(t.matches, t.errors, t.referenceTokens);
    }
  }

  lemma {:induction false} SpeechCounts(rows: seq<Row>)
    ensures Sum(rows).referenceTokens > 0 <==> exists r :: r in rows && IsSpeech(r)
  {
    if rows != [] {
      SpeechCounts(Init(rows));
      assert Last(rows) in rows && forall r :: r in Init(rows) ==> r in rows;
      assert rows == Init(rows) + [Last(rows)];
    }
  }
}
