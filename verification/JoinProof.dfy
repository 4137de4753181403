/**
 Why resolving one variable at a time counts every solution once: the solutions
 that give x the value v are the solutions of the graph without x over the
 operands sliced at v.
 */
module JoinProof {
  import opened Graphs
  import opened Tries
  import opened Semantics
  import opened Projection
  import opened Counting

  /** Filter expressions read tracked variables only, and keep the unresolved ones among their vertex variables. */
  ghost predicate FilterOk(v: Vertex, data: set<VarId>, tracked: seq<VarId>) {
    v.FilterVertex? ==>
      && v.filter.vars <= Elements(tracked)
      && Elements(v.vars) <= v.filter.vars
      && v.filter.vars * data <= Elements(v.vars)
  }

  ghost predicate FiltersOk(vs: seq<Vertex>, tracked: seq<VarId>) {
    forall i :: 0 <= i < |vs| ==> FilterOk(vs[i], DataVars(vs), tracked)
  }

  /** The key with x resolved to v, if x is tracked. */
  function Assigned(tracked: seq<VarId>, c: Key, x: VarId, v: Term): (k: Key)
    requires |c| == |tracked|
    ensures |k| == |c|
  {
    if x in tracked then c[IndexIn(tracked, x) := Some(v)] else c
  }

  lemma AssignedBinding(tracked: seq<VarId>, c: Key, x: VarId, v: Term)
    requires |c| == |tracked| && Distinct(tracked)
    ensures AsBinding(tracked, Assigned(tracked, c, x, v)) ==
            if x in tracked then AsBinding(tracked, c)[x := v] else AsBinding(tracked, c)
  {
    if x in tracked {
      var k := Assigned(tracked, c, x, v);
      hide AsBinding, Assigned;
      forall y | y in tracked ensures k[IndexIn(tracked, y)] == if y == x then Some(v) else c[IndexIn(tracked, y)] {
        AssignedAt(tracked, c, x, v, y);
      }
      BindingWith(tracked, c, k, x, v);
    }
  }

  lemma AssignedAt(tracked: seq<VarId>, c: Key, x: VarId, v: Term, y: VarId)
    requires |c| == |tracked| && x in tracked && y in tracked
    ensures Assigned(tracked, c, x, v)[IndexIn(tracked, y)] == if y == x then Some(v) else c[IndexIn(tracked, y)]
  {
    if IndexIn(tracked, y) == IndexIn(tracked, x) {
      assert y == x;
    }
  }

  lemma BindingWith(tracked: seq<VarId>, c: Key, k: Key, x: VarId, v: Term)
    requires |c| == |tracked| == |k| && x in tracked
    requires forall y :: y in tracked ==> k[IndexIn(tracked, y)] == if y == x then Some(v) else c[IndexIn(tracked, y)]
    ensures AsBinding(tracked, k) == AsBinding(tracked, c)[x := v]
  {
    hide IndexIn;
  }

  lemma KeyOfStep(tracked: seq<VarId>, c: Key, m: Binding, x: VarId)
    requires |c| == |tracked| && Distinct(tracked) && x in m
    ensures KeyOf(tracked, Assigned(tracked, c, x, m[x]), m - {x}) == KeyOf(tracked, c, m)
  {
    var d := Assigned(tracked, c, x, m[x]);
    forall i: nat | i < |c|
      ensures KeyOf(tracked, d, m - {x})[i] == KeyOf(tracked, c, m)[i]
    {
      if tracked[i] == x {
        DistinctIndex(tracked, i);
      } else if x in tracked {
        assert tracked[IndexIn(tracked, x)] == x;
      }
    }
  }

  lemma PassesStep(f: Filter, base: Binding, base': Binding, m: Binding, x: VarId)
    requires x in m
    requires base' == base[x := m[x]] || (base' == base && x !in f.vars)
    ensures Passes(f, base', m - {x}) <==> Passes(f, base, m)
  {
    assert Restrict(base' + (m - {x}), f.vars) == Restrict(base + m, f.vars);
  }

  lemma PassesAllStep(vs: seq<Vertex>, ops: seq<Trie>, tracked: seq<VarId>, c: Key, x: VarId, m: Binding,
                      keep: seq<nat>, vs': seq<Vertex>, ops': seq<Trie>)
    requires |c| == |tracked| && Distinct(tracked) && x in m
    requires FiltersOk(vs, tracked)
    requires JoinStep(vs, ops, x, m[x], keep, vs', ops')
    ensures PassesAll(vs', AsBinding(tracked, Assigned(tracked, c, x, m[x])), m - {x})
       <==> PassesAll(vs, AsBinding(tracked, c), m)
  {
    hide JoinStep;
    var base := AsBinding(tracked, c);
    var base' := AsBinding(tracked, Assigned(tracked, c, x, m[x]));
    AssignedBinding(tracked, c, x, m[x]);
    forall i: nat | i < |vs| && vs[i].FilterVertex?
      ensures Passes(vs[i].filter, base', m - {x}) <==> Passes(vs[i].filter, base, m)
    {
      assert FilterOk(vs[i], DataVars(vs), tracked);
      PassesStep(vs[i].filter, base, base', m, x);
    }
    StepFilters(vs, ops, x, m[x], keep, vs', ops', base', m - {x});
  }

  /** A join step changes no filter. */
  lemma StepFilters(vs: seq<Vertex>, ops: seq<Trie>, x: VarId, v: Term,
                    keep: seq<nat>, vs': seq<Vertex>, ops': seq<Trie>, base: Binding, m: Binding)
    requires JoinStep(vs, ops, x, v, keep, vs', ops')
    ensures PassesAll(vs', base, m) <==> PassesAll(vs, base, m)
  {
    if PassesAll(vs', base, m) {
      forall i: nat | i < |vs| && vs[i].FilterVertex? ensures Passes(vs[i].filter, base, m) {
        assert i in keep;
        var j :| 0 <= j < |keep| && keep[j] == i;
        assert vs'[j] == VertexWithout(vs[i], x);
      }
    }
    if PassesAll(vs, base, m) {
      forall j: nat | j < |vs'| && vs'[j].FilterVertex? ensures Passes(vs'[j].filter, base, m) {
        assert vs'[j] == VertexWithout(vs[keep[j]], x);
      }
    }
  }

  lemma MatchingStep(vs: seq<Vertex>, ops: seq<Trie>, tracked: seq<VarId>, c: Key, k: Key, x: VarId, m: Binding,
                     keep: seq<nat>, vs': seq<Vertex>, ops': seq<Trie>)
    requires Aligned(vs, ops) && Live(vs, ops) && FiltersOk(vs, tracked)
    requires |c| == |tracked| && Distinct(tracked)
    requires x in DataVars(vs) && x in m
    requires JoinStep(vs, ops, x, m[x], keep, vs', ops') && |vs'| == |ops'|
    ensures m - {x} in Matching(vs', ops', tracked, Assigned(tracked, c, x, m[x]), k)
       <==> m in Matching(vs, ops, tracked, c, k)
  {
    hide *;
    AlignedLength(vs, ops);
    SatStep(vs, ops, x, m, keep, vs', ops');
    PassesAllStep(vs, ops, tracked, c, x, m, keep, vs', ops');
    KeyOfStep(tracked, c, m, x);
    MatchingIff(vs, ops, tracked, c, k, m);
    MatchingIff(vs', ops', tracked, Assigned(tracked, c, x, m[x]), k, m - {x});
  }

  lemma AlignedLength(vs: seq<Vertex>, ops: seq<Trie>)
    requires Aligned(vs, ops)
    ensures |vs| == |ops|
  {
  }

  /** The mappings in s that give x a value in done. */
  function ResolvedIn(s: set<Binding>, x: VarId, done: set<Term>): set<Binding> {
    set m | m in s && x in m && m[x] in done
  }

  lemma MatchingLacks(vs: seq<Vertex>, ops: seq<Trie>, tracked: seq<VarId>, c: Key, k: Key, m: Binding, x: VarId)
    requires |vs| == |ops| && |c| == |tracked| && m in Matching(vs, ops, tracked, c, k)
    ensures x in m <==> x in DataVars(vs)
  {
    MatchingIff(vs, ops, tracked, c, k, m);
  }

  /** The solutions that give x the value v are as many as those of the resolved graph. */
  lemma JoinStepCard(vs: seq<Vertex>, ops: seq<Trie>, tracked: seq<VarId>, c: Key, k: Key, x: VarId, v: Term,
                     keep: seq<nat>, vs': seq<Vertex>, ops': seq<Trie>)
    requires Aligned(vs, ops) && Live(vs, ops) && FiltersOk(vs, tracked)
    requires |vs| == |ops| && |vs'| == |ops'| && |c| == |tracked| && Distinct(tracked)
    requires x in DataVars(vs)
    requires JoinStep(vs, ops, x, v, keep, vs', ops')
    ensures |ResolvedIn(Matching(vs, ops, tracked, c, k), x, {v})|
         == |Matching(vs', ops', tracked, Assigned(tracked, c, x, v), k)|
  {
    hide JoinStep, Matching, Aligned, Live, FiltersOk, Assigned;
    var s := ResolvedIn(Matching(vs, ops, tracked, c, k), x, {v});
    var t := Matching(vs', ops', tracked, Assigned(tracked, c, x, v), k);
    var f := (m: Binding) => m - {x};
    var g := (m: Binding) => m[x := v];
    StepDataVars(vs, ops, x, v, keep, vs', ops');
    forall m | m in s ensures f(m) in t && g(f(m)) == m {
      MatchingStep(vs, ops, tracked, c, k, x, m, keep, vs', ops');
    }
    forall m | m in t ensures g(m) in s && f(g(m)) == m {
      MatchingLacks(vs', ops', tracked, Assigned(tracked, c, x, v), k, m, x);
      assert g(m) - {x} == m;
      MatchingStep(vs, ops, tracked, c, k, x, g(m), keep, vs', ops');
    }
    BijectionCard(s, t, f, g);
  }

  lemma ResolvedSplit(s: set<Binding>, x: VarId, done: set<Term>, v: Term)
    requires v !in done
    ensures |ResolvedIn(s, x, done + {v})| == |ResolvedIn(s, x, done)| + |ResolvedIn(s, x, {v})|
  {
    SplitCard(ResolvedIn(s, x, done + {v}), ResolvedIn(s, x, done), ResolvedIn(s, x, {v}));
  }

  /** With all join keys done, every solution is counted. */
  lemma ResolvedAll(vs: seq<Vertex>, ops: seq<Trie>, tracked: seq<VarId>, c: Key, k: Key, x: VarId)
    requires |vs| == |ops| && |c| == |tracked| && x in DataVars(vs)
    ensures ResolvedIn(Matching(vs, ops, tracked, c, k), x, JoinKeys(ops, VarPositions(vs, x)))
         == Matching(vs, ops, tracked, c, k)
  {
    hide JoinKeys;
    var s := Matching(vs, ops, tracked, c, k);
    forall m | m in s ensures x in m && m[x] in JoinKeys(ops, VarPositions(vs, x)) {
      MatchingIff(vs, ops, tracked, c, k, m);
      JoinKeyOfSolution(vs, ops, x, m);
    }
  }
}
