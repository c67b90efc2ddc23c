/** What `merge-tag` does to coverage, the relation between tags and the targets they mark. */
module AnnotationMerge {
  import opened Wrappers
  import opened Sequences
  import opened AnnotationDocument
  import opened AnnotationOps

  function Retagged(i: Item, source: string, into: string): Item {
    if i.tagId == source then i.(tagId := into) else i
  }

  lemma Cons(items: seq<Item>)
    requires items != []
    ensures items == [items[0]] + items[1..]
    ensures forall i :: i in items <==> i == items[0] || i in items[1..]
  {
    assert items == [items[0]] + items[1..];
  }

  predicate FromItem(items: seq<Item>, m: Item, source: string, into: string) {
    exists i :: i in items && m == Retagged(i, source, into)
  }

  /** A surviving mark differs from the mark it was in nothing but its tag, and marks of any other
      tag all survive. */
  lemma {:induction false} MergeMembers(items: seq<Item>, source: string, into: string, covered: set<Target>)
    ensures forall m :: m in MergeItems(items, source, into, covered) ==> FromItem(items, m, source, into)
    ensures forall i :: i in items && i.tagId != source ==> i in MergeItems(items, source, into, covered)
  {
    if items != [] {
      Cons(items);
      var x, rest := items[0], items[1..];
      var deeper := if x.tagId == source && x.target !in covered then covered + {x.target} else covered;
      MergeMembers(rest, source, into, deeper);
      var tail := MergeItems(rest, source, into, deeper);
      assert forall m :: m in MergeItems(items, source, into, covered) ==> m == Retagged(x, source, into) || m in tail;
      forall m | m in MergeItems(items, source, into, covered) ensures FromItem(items, m, source, into) {
        if m in tail {
          var i :| i in rest && m == Retagged(i, source, into);
        }
      }
    }
  }

  lemma TargetsCons(x: Item, rest: seq<Item>, t: string)
    ensures Targets([x] + rest, t) == Targets(rest, t) + if x.tagId == t then {x.target} else {}
  {
    assert ([x] + rest)[1..] == rest;
  }

  lemma {:induction false} TargetMember(items: seq<Item>, t: string, target: Target)
    ensures target in Targets(items, t) <==> Covered(items, t, target)
  {
    if items != [] {
      Cons(items);
      TargetMember(items[1..], t, target);
    }
  }

  /** What a tag covers after a merge: the source nothing, `into` also what it did not cover yet, any
      other tag what it covered. */
  lemma {:induction false} MergeTargets(items: seq<Item>, source: string, into: string, covered: set<Target>, t: string)
    requires source != into
    ensures Targets(MergeItems(items, source, into, covered), t) ==
      if t == source then {}
      else if t == into then Targets(items, into) + (Targets(items, source) - covered)
      else Targets(items, t)
  {
    if items != [] {
      Cons(items);
      var x, rest := items[0], items[1..];
      var deeper := if x.tagId == source && x.target !in covered then covered + {x.target} else covered;
      MergeTargets(rest, source, into, deeper, t);
      TargetsCons(x, rest, t);
      TargetsCons(x, rest, source);
      TargetsCons(x, rest, into);
      TargetsCons(Retagged(x, source, into), MergeItems(rest, source, into, deeper), t);
    }
  }

  lemma {:induction false} MergeDistinctIds(items: seq<Item>, source: string, into: string, covered: set<Target>)
    requires Distinct(items, ItemKey)
    ensures Distinct(MergeItems(items, source, into, covered), ItemKey)
  {
    if items != [] {
      Cons(items);
      var x, rest := items[0], items[1..];
      var deeper := if x.tagId == source then covered + {x.target} else covered;
      DistinctCons(x, rest, ItemKey);
      MergeDistinctIds(rest, source, into, deeper);
      MergeMembers(rest, source, into, deeper);
      DistinctCons(Retagged(x, source, into), MergeItems(rest, source, into, deeper), ItemKey);
      if x.tagId == source && x.target in covered {
        assert deeper == covered;
      }
    }
  }

  lemma MarkInTargets(items: seq<Item>, x: Item)
    ensures x.target in Targets(items, x.tagId) <==> exists y :: y in items && MarkKey(y) == MarkKey(x)
  {
    TargetMember(items, x.tagId, x.target);
    if Covered(items, x.tagId, x.target) {
      var y :| y in items && y.tagId == x.tagId && y.target == x.target;
      assert MarkKey(y) == MarkKey(x);
    }
  }

  /** A merge never makes two marks say the same thing. */
  lemma {:induction false} MergeDistinctMarks(items: seq<Item>, source: string, into: string, covered: set<Target>)
    requires source != into && Distinct(items, MarkKey) && Targets(items, into) <= covered
    ensures Distinct(MergeItems(items, source, into, covered), MarkKey)
  {
    if items != [] {
      Cons(items);
      var x, rest := items[0], items[1..];
      var deeper := if x.tagId == source && x.target !in covered then covered + {x.target} else covered;
      DistinctCons(x, rest, MarkKey);
      TargetsCons(x, rest, into);
      MergeDistinctMarks(rest, source, into, deeper);
      var tail := MergeItems(rest, source, into, deeper);
      var y := Retagged(x, source, into);
      MergeTargets(rest, source, into, deeper, y.tagId);
      MarkInTargets(rest, x);
      MarkInTargets(tail, y);
      DistinctCons(y, tail, MarkKey);
    }
  }

  lemma CommonElement<T>(xs: set<T>, x: T, covered: set<T>)
    requires x !in xs
    ensures xs * (covered + {x}) == xs * covered
    ensures |({x} + xs) * covered| == |xs * covered| + if x in covered then 1 else 0
  {
    assert ({x} + xs) * covered == xs * covered + if x in covered then {x} else {};
  }

  /** Without repeated marks, the marks lost are exactly those both tags had. */
  lemma {:induction false} MergeLoses(items: seq<Item>, source: string, into: string, covered: set<Target>)
    requires Distinct(items, MarkKey)
    ensures |items| == |MergeItems(items, source, into, covered)| + |Targets(items, source) * covered|
  {
    if items != [] {
      Cons(items);
      var x, rest := items[0], items[1..];
      DistinctCons(x, rest, MarkKey);
      var deeper := if x.tagId == source && x.target !in covered then covered + {x.target} else covered;
      MergeLoses(rest, source, into, deeper);
      if x.tagId == source {
        MarkInTargets(rest, x);
        CommonElement(Targets(rest, source), x.target, covered);
      }
    }
  }

  /** Coverage after a merge: `into` covers what both tags covered, the source nothing, any other tag
      what it covered before. */
  ghost predicate CoverageMoved(before: seq<Item>, after: seq<Item>, source: string, into: string) {
    && Targets(after, into) == Targets(before, into) + Targets(before, source)
    && Targets(after, source) == {}
    && (forall t :: t != source && t != into ==> Targets(after, t) == Targets(before, t))
  }

  /** The whole effect of a successful `merge-tag` on coverage, and on the number of marks. */
  lemma MergeConservesCoverage(tx: Text, w: Work, op: Op)
    requires op.MergeTag? && ApplyMerge(tx, w, op).Ok? && op.tagId in TagIds(w.tags)
    ensures var after, source, into := ApplyMerge(tx, w, op).value, op.tagId, op.into.value.id;
      && CoverageMoved(w.items, after.items, source, into)
      && (forall m :: m in after.items ==> FromItem(w.items, m, source, into))
      && (forall i :: i in w.items && i.tagId != source ==> i in after.items)
      && (Distinct(w.items, MarkKey) ==>
            |w.items| - |after.items| == |Targets(w.items, source) * Targets(w.items, into)|)
  {
    var source, into := op.tagId, op.into.value.id;
    var covered := Targets(w.items, into);
    MergeMembers(w.items, source, into, covered);
    forall t ensures Targets(MergeItems(w.items, source, into, covered), t) ==
        if t == source then {} else if t == into then covered + Targets(w.items, source) else Targets(w.items, t)
    {
      MergeTargets(w.items, source, into, covered, t);
    }
    if Distinct(w.items, MarkKey) {
      MergeLoses(w.items, source, into, covered);
    }
  }

  /** One merge as a relation between documents; an absent source leaves everything as it was. */
  ghost predicate Moved(before: Work, after: Work, source: string, into: string) {
    source != into &&
    if source in TagIds(before.tags) then
      CoverageMoved(before.items, after.items, source, into) && TagIds(after.tags) == TagIds(before.tags) + {into}
    else
      after.items == before.items && after.tags == before.tags
  }

  lemma MergeMoves(tx: Text, w: Work, op: Op)
    requires op.MergeTag? && ApplyMerge(tx, w, op).Ok?
    ensures Moved(w, ApplyMerge(tx, w, op).value, op.tagId, op.into.value.id)
  {
    if op.tagId in TagIds(w.tags) {
      MergeConservesCoverage(tx, w, op);
      TagIdsSnoc(w.tags, Tag(op.into.value.id, OpLabel(tx, op.into.value.name).value.value, None, None));
    }
  }

  lemma MovesCompose(w: Work, m: Work, chained: Work, n: Work, direct: Work, a: string, b: string, c: string)
    requires Moved(w, m, a, b) && Moved(m, chained, b, c)
    requires Moved(w, n, a, c) && Moved(n, direct, b, c)
    ensures (forall t :: Targets(chained.items, t) == Targets(direct.items, t))
      <==> a !in TagIds(w.tags) || b in TagIds(w.tags) || Targets(w.items, b) == {}
  {
    if a in TagIds(w.tags) && b !in TagIds(w.tags) {
      assert Targets(chained.items, b) == {} && Targets(direct.items, b) == Targets(w.items, b);
    }
  }

  function MergeTwice(tx: Text, w: Work, first: Op, second: Op): Result<Work, Failure>
    requires first.MergeTag? && second.MergeTag?
  {
    var m :- ApplyMerge(tx, w, first);
    ApplyMerge(tx, m, second)
  }

  /** Merging A into B and B into C covers what merging A and B into C directly covers, unless A is
      there, B is not, and marks still name B: only the first order then defines B and moves them. */
  lemma MergeOrder(tx: Text, w: Work, ab: Op, bc: Op, ac: Op, bc': Op)
    requires ab.MergeTag? && bc.MergeTag? && ac.MergeTag? && bc'.MergeTag?
    requires ab.tagId == ac.tagId && bc.tagId == bc'.tagId
    requires MergeTwice(tx, w, ab, bc).Ok? && MergeTwice(tx, w, ac, bc').Ok?
    requires ab.into.value.id == bc.tagId && bc.into.value.id == ac.into.value.id == bc'.into.value.id
    ensures var chained, direct := MergeTwice(tx, w, ab, bc).value, MergeTwice(tx, w, ac, bc').value;
      (forall t :: Targets(chained.items, t) == Targets(direct.items, t))
      <==> ab.tagId !in TagIds(w.tags) || bc.tagId in TagIds(w.tags) || Targets(w.items, bc.tagId) == {}
  {
    var m, n := ApplyMerge(tx, w, ab).value, ApplyMerge(tx, w, ac).value;
    MergeMoves(tx, w, ab);
    MergeMoves(tx, m, bc);
    MergeMoves(tx, w, ac);
    MergeMoves(tx, n, bc');
    MovesCompose(w, m, ApplyMerge(tx, m, bc).value, n, ApplyMerge(tx, n, bc').value,
                 ab.tagId, bc.tagId, ac.into.value.id);
  }
}
