/** The stable sort the Go programs call (`sort.SliceStable`), the byte order of strings, and the
    fact that a sorted list of pairwise comparable elements is determined by its multiset. */
module Sorting {
  import opened Sequences

  /** Reverse of a strict weak order: nothing is below itself, and being not below is transitive. */
  ghost predicate StrictWeak<T(!new)>(less: (T, T) -> bool) {
    && (forall x, y :: less(x, y) ==> !less(y, x))
    && (forall x, y, z :: !less(x, y) && !less(y, z) ==> !less(x, z))
  }

  ghost predicate Sorted<T>(xs: seq<T>, less: (T, T) -> bool) {
    forall i, j :: 0 <= i < j < |xs| ==> !less(xs[j], xs[i])
  }

  function Insert<T>(xs: seq<T>, x: T, less: (T, T) -> bool): (ys: seq<T>)
    ensures multiset(ys) == multiset(xs) + multiset{x}
  {
    if xs == [] || !less(x, Last(xs)) then xs + [x]
    else
      LastInMultiset(xs);
      Insert(Init(xs), x, less) + [Last(xs)]
  }

  /** Insertion from the left; an element never overtakes an equal one. */
  function Sort<T>(xs: seq<T>, less: (T, T) -> bool): (ys: seq<T>)
    ensures multiset(ys) == multiset(xs)
  {
    if xs == [] then []
    else
      LastInMultiset(xs);
      Insert(Sort(Init(xs), less), Last(xs), less)
  }

  lemma {:induction false} InsertSorted<T(!new)>(xs: seq<T>, x: T, less: (T, T) -> bool)
    requires StrictWeak(less) && Sorted(xs, less)
    ensures Sorted(Insert(xs, x, less), less)
  {
    var ys := Insert(xs, x, less);
    if xs == [] {
    } else if !less(x, Last(xs)) {
      forall i | 0 <= i < |xs| ensures !less(x, xs[i]) {
        assert !less(Last(xs), xs[i]);
      }
    } else {
      InsertSorted(Init(xs), x, less);
      MultisetMembers(Insert(Init(xs), x, less), Init(xs) + [x]);
      forall i | 0 <= i < |ys| - 1 ensures !less(Last(xs), ys[i]) {
        assert ys[i] in Insert(Init(xs), x, less);
        if ys[i] in Init(xs) {
          var k :| 0 <= k < |xs| - 1 && xs[k] == ys[i];
        }
      }
    }
  }

  lemma {:induction false} SortSorted<T(!new)>(xs: seq<T>, less: (T, T) -> bool)
    requires StrictWeak(less)
    ensures Sorted(Sort(xs, less), less)
  {
    if xs != [] {
      SortSorted(Init(xs), less);
      InsertSorted(Sort(Init(xs), less), Last(xs), less);
    }
  }

  lemma LastStays<T(!new)>(xs: seq<T>, less: (T, T) -> bool)
    requires xs != [] && Sorted(xs, less)
    ensures Init(xs) == [] || !less(Last(xs), Last(Init(xs)))
    ensures Insert(Init(xs), Last(xs), less) == xs
  {
  }

  /** Sorting what is in order already moves nothing. */
  lemma {:induction false} SortIdle<T(!new)>(xs: seq<T>, less: (T, T) -> bool)
    requires Sorted(xs, less)
    ensures Sort(xs, less) == xs
  {
    if xs != [] {
      hide Sorted;
      SortedInit(xs, less);
      SortIdle(Init(xs), less);
      LastStays(xs, less);
    }
  }

  lemma NothingAboveLast<T(!new)>(xs: seq<T>, x: T, less: (T, T) -> bool)
    requires StrictWeak(less) && Sorted(xs, less) && x in xs
    ensures !less(Last(xs), x)
  {
    var i :| 0 <= i < |xs| && xs[i] == x;
    if i == |xs| - 1 && less(x, x) {
      assert false;
    }
  }

  lemma SortedInit<T(!new)>(xs: seq<T>, less: (T, T) -> bool)
    requires xs != [] && Sorted(xs, less)
    ensures Sorted(Init(xs), less)
  {
  }

  lemma LastsAgree<T(!new)>(xs: seq<T>, ys: seq<T>, less: (T, T) -> bool)
    requires StrictWeak(less) && Sorted(xs, less) && Sorted(ys, less) && xs != [] && ys != []
    requires multiset(xs) == multiset(ys)
    requires forall x, y :: x in xs && y in xs && !less(x, y) && !less(y, x) ==> x == y
    ensures Last(xs) == Last(ys) && multiset(Init(xs)) == multiset(Init(ys))
  {
    MultisetMembers(xs, ys);
    NothingAboveLast(xs, Last(ys), less);
    NothingAboveLast(ys, Last(xs), less);
    LastInMultiset(xs);
    LastInMultiset(ys);
    assert multiset(Init(xs)) == multiset(xs) - multiset{Last(xs)};
    assert multiset(Init(ys)) == multiset(ys) - multiset{Last(ys)};
  }

  /** Two sorted lists of the same elements are the same list when only an element itself is
      neither below nor above it. */
  lemma {:induction false} SortedUnique<T(!new)>(xs: seq<T>, ys: seq<T>, less: (T, T) -> bool)
    requires StrictWeak(less) && Sorted(xs, less) && Sorted(ys, less)
    requires multiset(xs) == multiset(ys)
    requires forall x, y :: x in xs && y in xs && !less(x, y) && !less(y, x) ==> x == y
    ensures xs == ys
  {
    hide StrictWeak, Sorted;
    MultisetMembers(xs, ys);
    if xs != [] {
      LastsAgree(xs, ys, less);
      SortedInit(xs, less);
      SortedInit(ys, less);
      SortedUnique(Init(xs), Init(ys), less);
      assert xs == Init(xs) + [Last(xs)] && ys == Init(ys) + [Last(ys)];
    }
  }

  /** Byte order of strings, as Go's `<` compares them. */
  predicate Below(a: string, b: string) {
    b != [] && (a == [] || a[0] < b[0] || (a[0] == b[0] && Below(a[1..], b[1..])))
  }

  /** Byte order: the first place where two strings differ decides, and the end comes before anything. */
  lemma {:induction false} BelowMeans(a: string, b: string)
    ensures Below(a, b) <==> exists k: nat :: FirstDifference(a, b, k)
  {
    if a != [] && b != [] && a[0] == b[0] {
      BelowMeans(a[1..], b[1..]);
      forall k: nat | FirstDifference(a[1..], b[1..], k) ensures FirstDifference(a, b, k + 1) {
        assert a[..k + 1] == [a[0]] + a[1..][..k] && b[..k + 1] == [b[0]] + b[1..][..k];
      }
      forall k: nat | FirstDifference(a, b, k) ensures k > 0 && FirstDifference(a[1..], b[1..], k - 1) {
        assert a[1..][..k - 1] == a[..k][1..] && b[1..][..k - 1] == b[..k][1..];
      }
    } else if Below(a, b) {
      assert FirstDifference(a, b, 0);
    }
  }

  /** The strings agree up to here, where the first ends or has the lower character. */
  predicate FirstDifference(a: string, b: string, k: nat) {
    k <= |a| && k < |b| && a[..k] == b[..k] && (k == |a| || a[k] < b[k])
  }

  lemma {:induction false} BelowAsymmetric(a: string, b: string)
    requires Below(a, b)
    ensures !Below(b, a)
  {
    if a != [] && a[0] == b[0] {
      BelowAsymmetric(a[1..], b[1..]);
    }
  }

  lemma {:induction false} BelowTransitive(a: string, b: string, c: string)
    requires Below(a, b) && Below(b, c)
    ensures Below(a, c)
  {
    if a != [] && a[0] == b[0] == c[0] {
      BelowTransitive(a[1..], b[1..], c[1..]);
    }
  }

  lemma {:induction false} BelowTotal(a: string, b: string)
    requires !Below(a, b) && !Below(b, a)
    ensures a == b
  {
    if a != [] && b != [] {
      BelowTotal(a[1..], b[1..]);
      assert a == [a[0]] + a[1..] && b == [b[0]] + b[1..];
    }
  }

  /** Any two strings compare in exactly one way, and the comparison is transitive. */
  lemma BelowIsOrder()
    ensures forall a, b :: Below(a, b) ==> !Below(b, a)
    ensures forall a, b :: !Below(a, b) && !Below(b, a) ==> a == b
    ensures forall a, b, c :: Below(a, b) && Below(b, c) ==> Below(a, c)
  {
    forall a, b | Below(a, b) ensures !Below(b, a) { BelowAsymmetric(a, b); }
    forall a, b | !Below(a, b) && !Below(b, a) ensures a == b { BelowTotal(a, b); }
    forall a, b, c | Below(a, b) && Below(b, c) ensures Below(a, c) { BelowTransitive(a, b, c); }
  }
}
