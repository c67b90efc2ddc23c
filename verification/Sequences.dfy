/** Order-preserving filters, distinct keys and multiset facts about sequences. */
module Sequences {

  function Init<T>(xs: seq<T>): seq<T>
    requires xs != []
  {
    xs[..|xs| - 1]
  }

  function Last<T>(xs: seq<T>): T
    requires xs != []
  {
    xs[|xs| - 1]
  }

  /** The elements that satisfy `keep`, in their order. */
  function Filter<T>(xs: seq<T>, keep: T -> bool): seq<T> {
    if xs == [] then [] else
      Filter(Init(xs), keep) + if keep(Last(xs)) then [Last(xs)] else []
  }

  /** Elements at different positions have different keys. */
  ghost predicate Distinct<T, K>(xs: seq<T>, key: T -> K) {
    forall i, j :: 0 <= i < j < |xs| ==> key(xs[i]) != key(xs[j])
  }

  lemma DistinctSnoc<T(!new), K>(xs: seq<T>, x: T, key: T -> K)
    ensures Distinct(xs + [x], key) <==> Distinct(xs, key) && forall y :: y in xs ==> key(y) != key(x)
  {
    var ys := xs + [x];
    if Distinct(ys, key) {
      forall i, j | 0 <= i < j < |xs| ensures key(xs[i]) != key(xs[j]) {
        assert ys[i] == xs[i] && ys[j] == xs[j];
      }
      forall y | y in xs ensures key(y) != key(x) {
        var k :| 0 <= k < |xs| && xs[k] == y;
        assert ys[k] == y && ys[|xs|] == x;
      }
    }
  }

  lemma DistinctCons<T(!new), K>(x: T, xs: seq<T>, key: T -> K)
    ensures Distinct([x] + xs, key) <==> Distinct(xs, key) && forall y :: y in xs ==> key(y) != key(x)
  {
    var ys := [x] + xs;
    if Distinct(ys, key) {
      forall i, j | 0 <= i < j < |xs| ensures key(xs[i]) != key(xs[j]) {
        assert ys[i + 1] == xs[i] && ys[j + 1] == xs[j];
      }
      forall y | y in xs ensures key(y) != key(x) {
        var k :| 0 <= k < |xs| && xs[k] == y;
        assert ys[k + 1] == y && ys[0] == x;
      }
    }
  }

  lemma DistinctPrefix<T, K>(xs: seq<T>, n: nat, key: T -> K)
    requires n <= |xs|
    ensures Distinct(xs, key) ==> Distinct(xs[..n], key)
  {
  }

  lemma LastInMultiset<T>(xs: seq<T>)
    requires xs != []
    ensures multiset(xs) == multiset(Init(xs)) + multiset{Last(xs)}
  {
    assert xs == Init(xs) + [Last(xs)];
  }

  /** Replacing the first element that is not done yet. */
  lemma UpdateNext<T>(done: seq<T>, rest: seq<T>, x: T)
    requires rest != []
    ensures (done + rest)[|done| := x] == (done + [x]) + rest[1..]
  {
  }

  lemma {:induction false} FilterMultiset<T(!new)>(xs: seq<T>, keep: T -> bool)
    ensures forall x :: multiset(Filter(xs, keep))[x] == if keep(x) then multiset(xs)[x] else 0
  {
    if xs != [] {
      FilterMultiset(Init(xs), keep);
      LastInMultiset(xs);
    }
  }

  lemma {:induction false} FilterMembers<T(!new)>(xs: seq<T>, keep: T -> bool)
    ensures forall x :: x in Filter(xs, keep) <==> x in xs && keep(x)
  {
    if xs != [] {
      FilterMembers(Init(xs), keep);
      assert xs == Init(xs) + [Last(xs)];
    }
  }

  lemma {:induction false} FilterShorter<T(!new)>(xs: seq<T>, keep: T -> bool)
    ensures |Filter(xs, keep)| <= |xs|
    ensures |Filter(xs, keep)| == |xs| <==> forall x :: x in xs ==> keep(x)
  {
    if xs != [] {
      FilterShorter(Init(xs), keep);
      assert xs == Init(xs) + [Last(xs)];
    }
  }

  lemma {:induction false} FilterAppend<T>(xs: seq<T>, ys: seq<T>, keep: T -> bool)
    ensures Filter(xs + ys, keep) == Filter(xs, keep) + Filter(ys, keep)
  {
    if ys == [] {
      assert xs + ys == xs;
    } else {
      FilterAppend(xs, Init(ys), keep);
      assert Init(xs + ys) == xs + Init(ys) && Last(xs + ys) == Last(ys);
      var kept := if keep(Last(ys)) then [Last(ys)] else [];
      Associative(Filter(xs, keep), Filter(Init(ys), keep), kept);
    }
  }

  lemma Associative<T>(a: seq<T>, b: seq<T>, c: seq<T>)
    ensures a + (b + c) == (a + b) + c
  {
  }

  lemma {:induction false} FilterSame<T(!new)>(xs: seq<T>, keep: T -> bool, keep': T -> bool)
    requires forall x :: x in xs ==> (keep(x) <==> keep'(x))
    ensures Filter(xs, keep) == Filter(xs, keep')
  {
    if xs != [] {
      FilterSame(Init(xs), keep, keep');
    }
  }

  lemma InitMembers<T(!new)>(xs: seq<T>)
    requires xs != []
    ensures Last(xs) in xs && forall x :: x in Init(xs) ==> x in xs
  {
  }

  lemma {:induction false} FilterAll<T(!new)>(xs: seq<T>, keep: T -> bool)
    requires forall x :: x in xs ==> keep(x)
    ensures Filter(xs, keep) == xs
  {
    if xs != [] {
      InitMembers(xs);
      FilterAll(Init(xs), keep);
      assert xs == Init(xs) + [Last(xs)];
    }
  }

  lemma {:induction false} FilterNone<T(!new)>(xs: seq<T>, keep: T -> bool)
    requires forall x :: x in xs ==> !keep(x)
    ensures Filter(xs, keep) == []
  {
    if xs != [] {
      FilterNone(Init(xs), keep);
    }
  }

  lemma {:induction false} FilterDistinct<T(!new), K>(xs: seq<T>, keep: T -> bool, key: T -> K)
    requires Distinct(xs, key)
    ensures Distinct(Filter(xs, keep), key)
  {
    if xs != [] {
      FilterDistinct(Init(xs), keep, key);
      FilterMembers(Init(xs), keep);
      var kept := Filter(Init(xs), keep);
      forall x | x in kept ensures key(x) != key(Last(xs)) {
        assert x in Init(xs);
        var k :| 0 <= k < |xs| - 1 && xs[k] == x;
      }
    }
  }

  lemma MultisetMembers<T(!new)>(xs: seq<T>, ys: seq<T>)
    requires multiset(xs) == multiset(ys)
    ensures |xs| == |ys|
    ensures forall x :: x in xs <==> x in ys
  {
    assert |multiset(xs)| == |multiset(ys)|;
    assert forall x :: x in xs <==> x in multiset(xs);
    assert forall x :: x in ys <==> x in multiset(ys);
  }

  lemma TwiceInMultiset<T>(xs: seq<T>, i: nat, j: nat)
    requires i < j < |xs| && xs[i] == xs[j]
    ensures multiset(xs)[xs[i]] >= 2
  {
    assert xs == xs[..j] + xs[j..];
    assert xs[i] in xs[..j] && xs[j..][0] == xs[j];
  }

  lemma TwicePositions<T(!new)>(xs: seq<T>, x: T) returns (i: nat, j: nat)
    requires multiset(xs)[x] >= 2
    ensures i < j < |xs| && xs[i] == xs[j] == x
  {
    assert x in multiset(xs);
    i :| i < |xs| && xs[i] == x;
    assert xs == xs[..i] + [x] + xs[i + 1..];
    if x in xs[..i] {
      var k :| 0 <= k < i && xs[..i][k] == x;
      i, j := k, i;
    } else {
      assert multiset(xs) == multiset(xs[..i]) + multiset{x} + multiset(xs[i + 1..]);
      assert x in xs[i + 1..];
      var k :| 0 <= k < |xs| - i - 1 && xs[i + 1..][k] == x;
      j := i + 1 + k;
    }
  }

  lemma FilterPermuted<T(!new)>(xs: seq<T>, ys: seq<T>, keep: T -> bool)
    requires multiset(xs) == multiset(ys)
    ensures multiset(Filter(xs, keep)) == multiset(Filter(ys, keep))
  {
    FilterMultiset(xs, keep);
    FilterMultiset(ys, keep);
  }

  /** Filtering by a weaker condition first changes nothing. */
  lemma {:induction false} FilterTwice<T(!new)>(xs: seq<T>, weak: T -> bool, strong: T -> bool)
    requires forall x :: strong(x) ==> weak(x)
    ensures Filter(Filter(xs, weak), strong) == Filter(xs, strong)
  {
    if xs != [] {
      FilterTwice(Init(xs), weak, strong);
      var kept := if weak(Last(xs)) then [Last(xs)] else [];
      FilterAppend(Filter(Init(xs), weak), kept, strong);
      assert kept != [] ==> Init(kept) == [] && Last(kept) == Last(xs);
    }
  }

  /** Distinct keys survive any rearrangement. */
  lemma PermutedDistinct<T(!new), K>(xs: seq<T>, ys: seq<T>, key: T -> K)
    requires multiset(xs) == multiset(ys) && Distinct(xs, key)
    ensures Distinct(ys, key)
  {
    MultisetMembers(xs, ys);
    forall i, j | 0 <= i < j < |ys| ensures key(ys[i]) != key(ys[j]) {
      if key(ys[i]) == key(ys[j]) {
        assert ys[i] in xs && ys[j] in xs;
        var p :| 0 <= p < |xs| && xs[p] == ys[i];
        var q :| 0 <= q < |xs| && xs[q] == ys[j];
        assert p == q;
        TwiceInMultiset(ys, i, j);
        var a, b := TwicePositions(xs, ys[i]);
        assert false;
      }
    }
  }
}
