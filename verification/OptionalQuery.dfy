/**
 A group of mutually dependent triple patterns followed by OPTIONAL with one
 triple pattern, from the graph that is built for it to the entries it yields.
 */
module OptionalQuery {
  import opened Reachability
  import opened Graphs
  import opened Tries
  import opened Semantics
  import opened Projection
  import opened DependencyGraph
  import opened EngineSteps
  import opened ProductProof
  import opened Evaluation
  import opened Entries
  import opened GraphBuilder
  import opened SourceComponents
  import opened UnionNormalForm
  import opened OptionalNormalForm
  import opened Preparation
  import opened Selections
  import opened LeafProof
  import opened LeftJoinProof
  import opened LeftJoinSteps
  import opened LeftJoinEngine

  function Lone(opt: Vertex): Graph {
    Graph([opt], {})
  }

  ghost predicate IsOptional(opt: Vertex) {
    opt.Operand? && NO_VAR !in opt.vars
  }

  /** The group, and the optional pattern depending on all of it. */
  ghost function Depending(first: Graph, opt: Vertex): Graph {
    LinkedBy(first, Lone(opt), Below(|first.vertices|), {|first.vertices|}, false)
  }

  lemma MergeNothing(h: Graph)
    ensures Merge(EMPTY_GRAPH, h) == h
  {
    assert forall e :: e in h.edges ==> Edge(e.src + 0, e.dst + 0, e.varId, e.opt) == e;
    assert ShiftEdges(h.edges, 0) == h.edges;
  }

  lemma LoneSources(opt: Vertex)
    ensures WellFormed(Lone(opt)) && UnionParts(Lone(opt)) == [Range(1)] && PartsWithin(Lone(opt), [Range(1)])
    ensures LocalSources(Lone(opt), [Range(1)]) == {0}
  {
    var h := Lone(opt);
    assert Clique(h);
    CliqueParts(h);
    PartsAreOf(h);
    WholeInduced(h);
    CliqueSources(h);
    hide *;
    OneLocals(h);
    OneBelow();
  }

  lemma OneBelow()
    ensures Below(1) == {0}
  {
  }

  lemma OneLocals(h: Graph)
    requires |h.vertices| == 1 && PartsWithin(h, [Range(1)]) && Indices(Range(1), |h.vertices|) && Induced(h, Range(1)) == h
    ensures LocalSources(h, [Range(1)]) == Sources(h)
  {
    hide Sources, Induced, Range;
    assert Last([Range(1)]) == Range(1) && Init([Range(1)]) == [];
  }

  /** Combining makes the optional pattern depend on every pattern of the group. */
  lemma CombinedIs(first: Graph, opt: Vertex)
    requires Plain(first) && Clique(first) && first.vertices != []
    ensures PartsWithin(first, UnionParts(first)) && PartsWithin(Lone(opt), UnionParts(Lone(opt)))
    ensures OptionalCombined(first, UnionParts(first), Lone(opt), UnionParts(Lone(opt))) == Depending(first, opt)
  {
    hide *;
    var n := |first.vertices|;
    PartsAreOf(first);
    PartsAreOf(Lone(opt));
    CliqueParts(first);
    PlainIs(first);
    CliqueSources(first);
    WholeInduced(first);
    LoneSources(opt);
    RangeIndices(n);
    OnePartCombined(first, Range(n), Lone(opt), [Range(1)]);
    OptionalLinkIs(first, Lone(opt), [Range(1)]);
    OneShift(n);
    MergeNothing(OptionalLink(first, Lone(opt), [Range(1)]));
    DependingIs(first, opt);
  }

  lemma DependingIs(first: Graph, opt: Vertex)
    ensures Depending(first, opt) == LinkedBy(first, Lone(opt), Below(|first.vertices|), {|first.vertices|}, false)
  {
  }

  lemma OneShift(n: nat)
    ensures ShiftSet({0}, n) == {n}
  {
  }

  lemma OnePartCombined(first: Graph, part: seq<nat>, second: Graph, secondParts: seq<seq<nat>>)
    requires PartsWithin(first, [part]) && PartsWithin(second, secondParts) && Indices(part, |first.vertices|)
    ensures OptionalCombined(first, [part], second, secondParts)
         == Merge(EMPTY_GRAPH, OptionalLink(Induced(first, part), second, secondParts))
  {
    hide OptionalLink, Merge, Induced;
    assert Last([part]) == part && Init([part]) == [];
  }

  /** That graph has the shape the left join operator evaluates. */
  lemma DependingLeft(first: Graph, opt: Vertex)
    requires Plain(first) && Clique(first) && first.vertices != [] && IsOptional(opt)
    ensures LeftGraph(Depending(first, opt)) && Depending(first, opt).vertices == first.vertices + [opt]
  {
    var n, r := |first.vertices|, Depending(first, opt);
    LoneWellFormed(opt);
    PlainIs(first);
    assert LinkSets(n, 1, Below(n), {n});
    LinkedByWellFormed(first, Lone(opt), Below(n), {n}, false);
    DependingEdges(first, opt);
    DependingLabels(first, opt);
    DependingVars(first, opt);
    assert OptPos(r) == n;
    hide Depending, Plain, Clique, LabelsExact, ProperVars, Adj, LinkedBy;
    forall u: nat, v: nat | u < n && v <= n && u != v ensures Adj(r, u, v) {
      DependingAdj(first, opt, u, v);
    }
    forall u: nat ensures !Adj(r, n, u) {
      DependingAdj(first, opt, n, u);
    }
  }

  lemma LoneWellFormed(opt: Vertex)
    ensures WellFormed(Lone(opt)) && |Lone(opt).vertices| == 1 && forall u: nat, v: nat :: !Adj(Lone(opt), u, v)
  {
  }

  lemma DependingVars(first: Graph, opt: Vertex)
    requires Plain(first) && IsOptional(opt)
    ensures ProperVars(Depending(first, opt).vertices)
  {
  }

  lemma DependingAdj(first: Graph, opt: Vertex, u: nat, v: nat)
    requires Plain(first) && Clique(first)
    ensures u < |first.vertices| && v <= |first.vertices| && u != v ==> Adj(Depending(first, opt), u, v)
    ensures !Adj(Depending(first, opt), |first.vertices|, v)
  {
    var n := |first.vertices|;
    LoneWellFormed(opt);
    PlainIs(first);
    hide Adj, Merge, LinkedBy, Plain;
    LinkedByAdj(first, Lone(opt), Below(n), {n}, false, u, v);
    LinkedByAdj(first, Lone(opt), Below(n), {n}, false, n, v);
    MergeAdj(first, Lone(opt), u, v);
    MergeAdj(first, Lone(opt), n, v);
  }

  lemma DependingEdges(first: Graph, opt: Vertex)
    requires Plain(first)
    ensures Mandatory(Depending(first, opt))
  {
    var n := |first.vertices|;
    forall e | e in Depending(first, opt).edges ensures !e.opt {
      LinkEdge(first.vertices + [opt], Below(n), {n}, false, e);
    }
  }

  lemma DependingLabels(first: Graph, opt: Vertex)
    requires Plain(first)
    ensures LabelsExact(Depending(first, opt))
  {
    var n, r, m := |first.vertices|, Depending(first, opt), Merge(first, Lone(opt));
    LoneWellFormed(opt);
    MergeLabels(first, Lone(opt));
    hide Adj, Plain, Merge;
    forall e | e in r.edges && e.varId != NO_VAR ensures SharedVar(r, e.src, e.dst, e.varId) {
      LinkEdge(first.vertices + [opt], Below(n), {n}, false, e);
      if e in m.edges {
        assert SharedVar(m, e.src, e.dst, e.varId);
      }
    }
    forall u: nat, v: nat, x: VarId | Adj(r, u, v) && SharedVar(r, u, v, x) ensures Edge(u, v, x, false) in r.edges {
      LinkedByAdj(first, Lone(opt), Below(n), {n}, false, u, v);
      LinkEdge(first.vertices + [opt], Below(n), {n}, false, Edge(u, v, x, false));
      if Adj(m, u, v) {
        assert SharedVar(m, u, v, x);
      } else {
        assert x in SharedVars((first.vertices + [opt])[u], (first.vertices + [opt])[v]);
      }
    }
  }

  /* ---------- the operands ---------- */

  /** A group and an optional pattern with their operands, which may be empty or have no variables, and all variables tracked. */
  ghost predicate OptionalGroup(first: Graph, ops: seq<Trie>, opt: Vertex, trie: Trie, tracked: seq<VarId>) {
    && Plain(first) && Clique(first) && |first.vertices| == |ops| && Aligned(first.vertices, ops)
    && (forall i :: 0 <= i < |first.vertices| ==> first.vertices[i].Operand?)
    && IsOptional(opt) && AlignedAt(opt, trie) && Distinct(opt.vars)
    && Distinct(tracked) && DataVars(first.vertices) + Elements(opt.vars) <= Elements(tracked)
    && |first.vertices| + 1 < 0x100
  }

  /** The graph that is built for the group: beside an empty group the optional pattern is left alone. */
  ghost function Whole(first: Graph, opt: Vertex): Graph {
    if first.vertices == [] then Lone(opt) else Depending(first, opt)
  }

  lemma WholeIs(first: Graph, opt: Vertex)
    requires Plain(first) && Clique(first) && IsOptional(opt)
    ensures WellFormed(Whole(first, opt)) && Whole(first, opt).vertices == first.vertices + [opt]
  {
    hide Depending, LeftGraph, Plain, Clique;
    LoneWellFormed(opt);
    if first.vertices != [] {
      DependingLeft(first, opt);
      OptLength(Depending(first, opt));
    } else {
      assert first.vertices + [opt] == [opt];
    }
  }

  lemma WholeAligned(first: Graph, ops: seq<Trie>, opt: Vertex, trie: Trie)
    requires Aligned(first.vertices, ops) && |first.vertices| == |ops| && AlignedAt(opt, trie)
    ensures Aligned(first.vertices + [opt], ops + [trie])
  {
    hide AlignedAt;
    forall i: nat | i < |first.vertices| + 1 ensures AlignedAt((first.vertices + [opt])[i], (ops + [trie])[i]) {
      if i < |ops| {
        assert AlignedAt(first.vertices[i], ops[i]);
      }
    }
  }

  predicate SomeEmpty(ops: seq<Trie>) {
    exists i :: 0 <= i < |ops| && ops[i].rows == {}
  }

  /* ---------- an empty mandatory pattern ---------- */

  /** With an empty mandatory operand nothing survives. */
  lemma NothingSurvives(first: Graph, ops: seq<Trie>, opt: Vertex, trie: Trie, v: nat)
    requires Plain(first) && Clique(first) && IsOptional(opt) && |first.vertices| == |ops| && SomeEmpty(ops)
    ensures !Survives(Whole(first, opt), EmptyOperands(ops + [trie]), v)
  {
    var g, us := Whole(first, opt), ops + [trie];
    var e: nat :| e < |ops| && ops[e].rows == {};
    hide Depending;
    DependingLeft(first, opt);
    MandatoryAll(g);
    assert us[e].rows == {};
    assert e in EmptyOperands(us);
    if v < |g.vertices| {
      if v == e {
        ReachRefl(ArcsOf(g.edges), v);
      } else {
        assert Adj(g, e, v);
        ReachArc(ArcsOf(g.edges), e, v);
      }
      assert ReachedFrom(MandatoryArcs(g), EmptyOperands(us), v);
    }
  }

  lemma {:induction false} EmptyJoin(vs: seq<Vertex>, ops: seq<Trie>)
    requires |vs| == |ops| && (forall i :: 0 <= i < |vs| ==> vs[i].Operand?) && SomeEmpty(ops)
    ensures NaiveJoin(vs, ops) == {}
    decreases |vs|
  {
    assert forall i :: 0 <= i < |vs| - 1 ==> Init(vs)[i] == vs[i];
    if Last(ops).rows == {} {
      assert OperandBindings(Last(vs).vars, Last(ops)) == {};
    } else {
      var e :| 0 <= e < |ops| && ops[e].rows == {};
      assert Init(ops)[e].rows == {};
      EmptyJoin(Init(vs), Init(ops));
    }
  }

  /** An empty mandatory part has no left join. */
  lemma NoLeftJoin(p: LeftProblem, tracked: seq<VarId>, c: Key)
    requires |p.vs| == |p.ops| && (forall i :: 0 <= i < |p.vs| ==> p.vs[i].Operand?) && SomeEmpty(p.ops) && |c| == |tracked|
    ensures LeftYielded(p, tracked, c, [])
  {
    EmptyJoin(p.vs, p.ops);
    hide NaiveJoin, OperandBindings;
    assert LeftSolutions(p) == {};
    forall k: Key | |k| == |tracked| ensures |LeftMatching(p, tracked, c, k)| == 0 {
      assert LeftMatching(p, tracked, c, k) == {};
    }
  }

  /** An empty group has its one solution even if the optional pattern has none. */
  lemma SolutionMissed(p: LeftProblem, tracked: seq<VarId>)
    requires p.vs == [] && p.ops == [] && p.opt.Operand? && AlignedAt(p.opt, p.trie) && p.trie.rows == {}
    ensures !LeftYielded(p, tracked, UnboundKey(|tracked|), [])
  {
    var c := UnboundKey(|tracked|);
    LeftWithout(p);
    hide LeftSolutions;
    assert NaiveJoin([], []) == {map[]};
    assert KeyOf(tracked, c, map[]) == c;
    assert map[] in LeftMatching(p, tracked, c, c);
    EmptyTotal(c);
  }

  /* ---------- patterns without variables ---------- */

  /** The positions of the vertices that have variables. */
  ghost function Varied(vs: seq<Vertex>): (keep: seq<nat>)
    ensures Indices(keep, |vs|) && Increasing(keep)
    ensures forall v: nat :: v in keep <==> v < |vs| && vs[v].vars != []
  {
    if vs == [] then []
    else
      KeptAppend(Varied(Init(vs)), |vs| - 1);
      Varied(Init(vs)) + if Last(vs).vars != [] then [|vs| - 1] else []
  }

  lemma VariedPick<T>(vs: seq<Vertex>, s: seq<T>)
    requires |vs| == |s| && vs != []
    ensures Pick(s, Varied(vs)) == Pick(Init(s), Varied(Init(vs))) + if Last(vs).vars != [] then [Last(s)] else []
  {
    PickSnoc(Init(s), Last(s), Varied(Init(vs)));
  }

  /** Patterns without variables that hold can be dropped from a join. */
  lemma {:induction false} ScalarsDropped(vs: seq<Vertex>, ops: seq<Trie>)
    requires Aligned(vs, ops) && |vs| == |ops| && (forall i :: 0 <= i < |vs| ==> vs[i].Operand?) && !SomeEmpty(ops)
    ensures NaiveJoin(Pick(vs, Varied(vs)), Pick(ops, Varied(vs))) == NaiveJoin(vs, ops)
    decreases |vs|
  {
    if vs != [] {
      FrontOperands(vs, ops);
      hide *;
      ScalarsDropped(Init(vs), Init(ops));
      VariedPick(vs, vs);
      VariedPick(vs, ops);
      NaiveJoinLast(vs, ops);
      if Last(vs).vars == [] {
        OneRow(Last(vs).vars, Last(ops));
        JoinUnit(NaiveJoin(Init(vs), Init(ops)));
        NothingMore(Pick(Init(vs), Varied(Init(vs))));
        NothingMore(Pick(Init(ops), Varied(Init(vs))));
      } else {
        SnocParts(Pick(Init(vs), Varied(Init(vs))), Last(vs));
        SnocParts(Pick(Init(ops), Varied(Init(vs))), Last(ops));
        NaiveJoinLast(Pick(vs, Varied(vs)), Pick(ops, Varied(vs)));
      }
    }
  }

  lemma FrontOperands(vs: seq<Vertex>, ops: seq<Trie>)
    requires Aligned(vs, ops) && |vs| == |ops| && (forall i :: 0 <= i < |vs| ==> vs[i].Operand?) && !SomeEmpty(ops) && vs != []
    ensures Aligned(Init(vs), Init(ops)) && (forall i :: 0 <= i < |Init(vs)| ==> Init(vs)[i].Operand?) && !SomeEmpty(Init(ops))
    ensures Last(vs).Operand? && Last(ops).Valid() && Last(ops).depth == |Last(vs).vars| && Last(ops).rows != {}
  {
    assert forall i :: 0 <= i < |vs| - 1 ==> Init(vs)[i] == vs[i] && Init(ops)[i] == ops[i];
    assert AlignedAt(Last(vs), Last(ops));
  }

  lemma NaiveJoinLast(vs: seq<Vertex>, ops: seq<Trie>)
    requires |vs| == |ops| && vs != [] && Last(vs).Operand?
    ensures NaiveJoin(vs, ops) == Semantics.Join(NaiveJoin(Init(vs), Init(ops)), OperandBindings(Last(vs).vars, Last(ops)))
  {
  }

  /* ---------- what is left to evaluate ---------- */

  /** The left join of the mandatory operands that have variables. */
  ghost function Varying(first: Graph, ops: seq<Trie>, opt: Vertex, trie: Trie): LeftProblem
    requires |first.vertices| == |ops|
  {
    LeftProblem(Pick(first.vertices, Varied(first.vertices)), Pick(ops, Varied(first.vertices)), opt, trie)
  }

  lemma VariedIs(vs: seq<Vertex>)
    ensures Indices(Varied(vs), |vs|) && Increasing(Varied(vs))
  {
  }

  lemma VaryingIs(first: Graph, ops: seq<Trie>, opt: Vertex, trie: Trie)
    requires |first.vertices| == |ops|
    ensures var q := Varying(first, ops, opt, trie);
            && q.vs == Pick(first.vertices, Varied(first.vertices)) && q.ops == Pick(ops, Varied(first.vertices))
            && q.opt == opt && q.trie == trie
  {
  }

  lemma VaryingShape(first: Graph, ops: seq<Trie>, opt: Vertex, trie: Trie, tracked: seq<VarId>)
    requires OptionalGroup(first, ops, opt, trie, tracked) && |first.vertices| == |ops| && !SomeEmpty(ops)
    ensures var q := Varying(first, ops, opt, trie);
            && |q.vs| == |q.ops| && q.Valid() && Live(q.vs, q.ops) && (forall i :: 0 <= i < |q.vs| ==> q.vs[i].Operand?)
            && DataVars(q.vs) <= Elements(tracked)
            && LeftSolutions(q) == LeftSolutions(LeftProblem(first.vertices, ops, opt, trie))
  {
    hide *;
    var q, p := Varying(first, ops, opt, trie), LeftProblem(first.vertices, ops, opt, trie);
    GroupParts(first, ops, opt, trie, tracked);
    VariedIs(first.vertices);
    VaryingIs(first, ops, opt, trie);
    PickAligned(first.vertices, ops, Varied(first.vertices));
    VariedLive(first.vertices, ops);
    PickedVars(first.vertices, Varied(first.vertices));
    ScalarsDropped(first.vertices, ops);
    SameLeft(p, q);
    MakeValid(q);
    TrackedPart(DataVars(q.vs), DataVars(first.vertices), Elements(opt.vars), Elements(tracked));
  }

  lemma TrackedPart(a: set<VarId>, b: set<VarId>, d: set<VarId>, t: set<VarId>)
    requires a <= b && b + d <= t
    ensures a <= t
  {
  }

  lemma VariedLive(vs: seq<Vertex>, ops: seq<Trie>)
    requires |vs| == |ops| && (forall i :: 0 <= i < |vs| ==> vs[i].Operand?) && !SomeEmpty(ops)
    ensures Live(Pick(vs, Varied(vs)), Pick(ops, Varied(vs)))
    ensures forall i :: 0 <= i < |Varied(vs)| ==> Pick(vs, Varied(vs))[i].Operand?
  {
    var keep := Varied(vs);
    hide Varied;
    forall j: nat | j < |keep| ensures vs[keep[j]].vars != [] && ops[keep[j]].rows != {} {
      assert keep[j] in keep;
    }
  }

  lemma SameLeft(p: LeftProblem, q: LeftProblem)
    requires |p.vs| == |p.ops| && |q.vs| == |q.ops| && NaiveJoin(q.vs, q.ops) == NaiveJoin(p.vs, p.ops)
    requires q.opt == p.opt && q.trie == p.trie
    ensures LeftSolutions(q) == LeftSolutions(p)
  {
    hide NaiveJoin, LeftJoinProof.LeftJoin;
  }

  lemma MakeValid(q: LeftProblem)
    requires |q.vs| == |q.ops| && Aligned(q.vs, q.ops) && q.opt.Operand? && AlignedAt(q.opt, q.trie)
    ensures q.Valid()
  {
  }

  /** What both steps keep: the mandatory vertices with variables, and the optional one unless it is empty or without any. */
  lemma KeptShape(first: Graph, ops: seq<Trie>, opt: Vertex, trie: Trie, keep: seq<nat>)
    requires Plain(first) && Clique(first) && IsOptional(opt) && |first.vertices| == |ops| && !SomeEmpty(ops)
    requires (forall i :: 0 <= i < |first.vertices| ==> first.vertices[i].Operand?)
    requires |Whole(first, opt).vertices| == |ops + [trie]| && Prepared(Whole(first, opt), ops + [trie], keep)
    ensures keep == Varied(first.vertices) + if trie.rows != {} && opt.vars != [] then [|ops|] else []
  {
    hide *;
    var n := |ops|;
    OptionalIs(opt);
    WholeIs(first, opt);
    VariedIs(first.vertices);
    KeptAppend(Varied(first.vertices), n);
    var all := Varied(first.vertices) + if trie.rows != {} && opt.vars != [] then [n] else [];
    PreparedIncreasing(Whole(first, opt), ops + [trie], keep);
    NothingMore(Varied(first.vertices));
    forall v: nat ensures v in keep <==> v in all {
      WholeSurvives(first, ops, opt, trie, v);
      PreparedHas(Whole(first, opt), ops + [trie], keep, v);
      VariedHas(first.vertices, v);
      WholeAt(first.vertices, opt, v);
      InSnoc(Varied(first.vertices), n, v);
    }
    IncreasingUnique(keep, all);
  }

  lemma OptionalIs(opt: Vertex)
    requires IsOptional(opt)
    ensures opt.Operand?
  {
  }

  lemma PreparedIncreasing(g: Graph, us: seq<Trie>, keep: seq<nat>)
    requires |g.vertices| == |us| && Prepared(g, us, keep)
    ensures Increasing(keep)
  {
  }

  lemma PreparedHas(g: Graph, us: seq<Trie>, keep: seq<nat>, v: nat)
    requires |g.vertices| == |us| && Prepared(g, us, keep)
    ensures Survives(g, EmptyOperands(us), v) ==> v < |g.vertices|
    ensures v in keep <==> Survives(g, EmptyOperands(us), v) && !(g.vertices[v].Operand? && g.vertices[v].vars == [])
  {
  }

  lemma VariedHas(vs: seq<Vertex>, v: nat)
    ensures v in Varied(vs) <==> v < |vs| && vs[v].vars != []
  {
  }

  lemma WholeAt(vs: seq<Vertex>, opt: Vertex, v: nat)
    ensures v < |vs| ==> (vs + [opt])[v] == vs[v]
    ensures v == |vs| ==> (vs + [opt])[v] == opt
  {
  }

  lemma InSnoc(s: seq<nat>, n: nat, v: nat)
    ensures v in s + [n] <==> v in s || v == n
  {
  }

  lemma WholeSurvives(first: Graph, ops: seq<Trie>, opt: Vertex, trie: Trie, v: nat)
    requires Plain(first) && Clique(first) && IsOptional(opt) && |first.vertices| == |ops| && !SomeEmpty(ops)
    ensures Survives(Whole(first, opt), EmptyOperands(ops + [trie]), v) <==> v < |ops| || (v == |ops| && trie.rows != {})
  {
    var g, us := Whole(first, opt), ops + [trie];
    WholeIs(first, opt);
    hide Depending;
    if first.vertices == [] {
      LoneSurvives(g, us, v);
    } else {
      DependingLeft(first, opt);
      MandatoryAll(g);
      assert forall i :: 0 <= i < |us| - 1 ==> us[i] == ops[i];
      assert Last(us) == trie;
      OptionalPruned(g, us, v);
    }
  }

  lemma LoneSurvives(g: Graph, us: seq<Trie>, v: nat)
    requires |g.vertices| == |us| == 1 && g.edges == {}
    ensures Survives(g, EmptyOperands(us), v) <==> v == 0 && us[0].rows != {}
  {
    assert MandatoryArcs(g) == {};
    if v == 0 {
      ReachRefl(MandatoryArcs(g), 0);
    }
  }

  /** Mandatory vertices alone. */
  lemma MandatoryLeft(first: Graph, opt: Vertex, keep: seq<nat>)
    requires Plain(first) && Clique(first) && IsOptional(opt) && Indices(keep, |first.vertices|) && Increasing(keep)
    ensures |Whole(first, opt).vertices| == |first.vertices| + 1 && Indices(keep, |Whole(first, opt).vertices|)
    ensures var sub := Induced(Whole(first, opt), keep);
            sub.vertices == Pick(first.vertices, keep) && Plain(sub) && Clique(sub)
  {
    WholeIs(first, opt);
    hide Depending, Plain, Clique;
    PickFront(first.vertices, opt, keep);
    if first.vertices == [] {
      IncreasingShort(keep, 0);
      EmptyInduced(Whole(first, opt));
    } else {
      DependingLeft(first, opt);
      MandatoryPart(Whole(first, opt), keep);
    }
  }

  lemma EmptyInduced(g: Graph)
    requires WellFormed(g)
    ensures Indices([], |g.vertices|) && Plain(Induced(g, [])) && Clique(Induced(g, []))
  {
    InducedWellFormed(g, []);
    assert forall e :: e !in Induced(g, []).edges;
    assert forall u: nat, v: nat :: !Adj(Induced(g, []), u, v);
  }

  /** The optional operand is empty or has no variable: the mandatory ones go on alone. */
  lemma MandatoryRemains(first: Graph, ops: seq<Trie>, opt: Vertex, trie: Trie, tracked: seq<VarId>)
    requires OptionalGroup(first, ops, opt, trie, tracked) && |first.vertices| == |ops| && !SomeEmpty(ops)
    requires trie.rows == {} || opt.vars == []
    ensures Indices(Varied(first.vertices), |Whole(first, opt).vertices|)
    ensures Remainder(Induced(Whole(first, opt), Varied(first.vertices)), Pick(ops, Varied(first.vertices)), tracked,
                      Varying(first, ops, opt, trie))
  {
    hide *;
    var q := Varying(first, ops, opt, trie);
    GroupParts(first, ops, opt, trie, tracked);
    VaryingShape(first, ops, opt, trie, tracked);
    VaryingIs(first, ops, opt, trie);
    VariedIs(first.vertices);
    MandatoryLeft(first, opt, Varied(first.vertices));
    ValidOptional(q);
    ValidAligned(q);
    LeftWithout(q);
    var sub := Induced(Whole(first, opt), Varied(first.vertices));
    OperandsEvaluable(sub, q.ops, tracked);
    CliqueRemains(sub, q.ops, tracked, q);
  }

  lemma ValidAligned(q: LeftProblem)
    requires q.Valid()
    ensures Aligned(q.vs, q.ops) && |q.vs| == |q.ops|
  {
  }

  /** Mandatory operands and the optional one are left. */
  lemma BothRemain(first: Graph, ops: seq<Trie>, opt: Vertex, trie: Trie, tracked: seq<VarId>)
    requires OptionalGroup(first, ops, opt, trie, tracked) && |first.vertices| == |ops| && !SomeEmpty(ops)
    requires trie.rows != {} && opt.vars != []
    ensures var keep := Varied(first.vertices) + [|ops|];
            && Indices(keep, |Whole(first, opt).vertices|) && Indices(keep, |ops + [trie]|)
            && Remainder(Induced(Whole(first, opt), keep), Pick(ops + [trie], keep), tracked, Varying(first, ops, opt, trie))
  {
    hide *;
    var front, keep, q := Varied(first.vertices), Varied(first.vertices) + [|ops|], Varying(first, ops, opt, trie);
    GroupParts(first, ops, opt, trie, tracked);
    VaryingShape(first, ops, opt, trie, tracked);
    VaryingIs(first, ops, opt, trie);
    ValidAligned(q);
    VariedIs(first.vertices);
    WholeIs(first, opt);
    KeptAppend(front, |ops|);
    PickSnoc(first.vertices, opt, front);
    PickSnoc(ops, trie, front);
    var g, sub := Whole(first, opt), Induced(Whole(first, opt), keep);
    InducedWellFormed(g, keep);
    InducedVertices(g, keep);
    NothingMore(q.vs);
    NothingMore(q.ops);
    if q.vs == [] {
      AloneRemains(q, tracked, sub);
    } else {
      SomeMandatory(first, ops, opt, trie, tracked);
      DependingLeft(first, opt);
      LeftWhole(first, opt, keep, |ops|);
      LeftSelected(g, keep);
      DataVarsConcat(q.vs, [opt]);
      SingleVars(opt);
      BothOperands(sub, Pick(ops + [trie], keep), tracked, q);
      BothRemainder(sub, Pick(ops + [trie], keep), tracked, q);
    }
  }

  lemma InducedVertices(g: Graph, keep: seq<nat>)
    requires Indices(keep, |g.vertices|)
    ensures Induced(g, keep).vertices == Pick(g.vertices, keep)
  {
  }

  lemma SomeMandatory(first: Graph, ops: seq<Trie>, opt: Vertex, trie: Trie, tracked: seq<VarId>)
    requires |first.vertices| == |ops| && Varying(first, ops, opt, trie).vs != []
    ensures first.vertices != [] && Varied(first.vertices) != []
  {
  }

  lemma LeftWhole(first: Graph, opt: Vertex, keep: seq<nat>, n: nat)
    requires first.vertices != [] && n == |first.vertices| && LeftGraph(Depending(first, opt))
    requires Varied(first.vertices) != [] && keep == Varied(first.vertices) + [n] && Whole(first, opt).vertices == first.vertices + [opt]
    ensures LeftGraph(Whole(first, opt)) && |keep| >= 2 && Last(keep) == OptPos(Whole(first, opt))
  {
    hide LeftGraph, Depending, Varied;
  }

  lemma BothRemainder(sub: Graph, subOps: seq<Trie>, tracked: seq<VarId>, q: LeftProblem)
    requires LeftGraph(sub) && LeftOperands(sub, subOps, tracked) && sub.vertices != [] && subOps != [] && q == LeftOf(sub, subOps)
    requires |q.vs| == |q.ops| && |sub.vertices| == |subOps|
    ensures Remainder(sub, subOps, tracked, q)
  {
    hide LeftGraph, LeftOperands;
  }

  lemma GroupParts(first: Graph, ops: seq<Trie>, opt: Vertex, trie: Trie, tracked: seq<VarId>)
    requires OptionalGroup(first, ops, opt, trie, tracked)
    ensures Plain(first) && Clique(first) && IsOptional(opt) && WellFormed(first) && |first.vertices| == |ops|
    ensures Aligned(first.vertices, ops) && opt.Operand? && AlignedAt(opt, trie) && Distinct(opt.vars) && NO_VAR !in opt.vars
    ensures forall i :: 0 <= i < |first.vertices| ==> first.vertices[i].Operand?
    ensures Distinct(tracked) && DataVars(first.vertices) + Elements(opt.vars) <= Elements(tracked)
    ensures Elements(opt.vars) <= Elements(tracked) && |ops| + 1 < 0x100
  {
    hide DataVars;
  }

  /** What is evaluated after both steps has the solutions of the left join. */
  lemma PreparedRemains(first: Graph, ops: seq<Trie>, opt: Vertex, trie: Trie, tracked: seq<VarId>, keep: seq<nat>)
    requires OptionalGroup(first, ops, opt, trie, tracked) && |first.vertices| == |ops| && !SomeEmpty(ops)
    requires |Whole(first, opt).vertices| == |ops + [trie]| && Prepared(Whole(first, opt), ops + [trie], keep)
    requires Indices(keep, |Whole(first, opt).vertices|) && Indices(keep, |ops + [trie]|)
    ensures Remainder(Induced(Whole(first, opt), keep), Pick(ops + [trie], keep), tracked, Varying(first, ops, opt, trie))
  {
    hide *;
    GroupParts(first, ops, opt, trie, tracked);
    KeptShape(first, ops, opt, trie, keep);
    if trie.rows != {} && opt.vars != [] {
      BothRemain(first, ops, opt, trie, tracked);
    } else {
      NothingMore(Varied(first.vertices));
      VariedIs(first.vertices);
      PickSnoc(ops, trie, Varied(first.vertices));
      MandatoryRemains(first, ops, opt, trie, tracked);
    }
  }

  /* ---------- built and evaluated ---------- */

  /** With nothing left after pruning, a mandatory operand was empty, or the optional one beside an empty group. */
  lemma PrunedQuery(first: Graph, ops: seq<Trie>, opt: Vertex, trie: Trie, tracked: seq<VarId>, a: seq<nat>)
    requires OptionalGroup(first, ops, opt, trie, tracked) && |first.vertices| == |ops|
    requires forall v: nat :: v in a <==> Survives(Whole(first, opt), EmptyOperands(ops + [trie]), v)
    ensures a == [] <==> SomeEmpty(ops) || (first.vertices == [] && trie.rows == {})
  {
    hide Survives, Whole, SomeEmpty;
    GroupParts(first, ops, opt, trie, tracked);
    if SomeEmpty(ops) {
      if a != [] {
        assert a[0] in a;
        NothingSurvives(first, ops, opt, trie, a[0]);
      }
    } else {
      WholeSurvives(first, ops, opt, trie, 0);
      if a != [] {
        assert a[0] in a;
        WholeSurvives(first, ops, opt, trie, a[0]);
      }
    }
  }

  lemma NoEmptyGroup(ops: seq<Trie>)
    requires SomeEmpty(ops)
    ensures ops != []
  {
  }

  /** Both steps together. */
  lemma WholePrepared(first: Graph, ops: seq<Trie>, opt: Vertex, trie: Trie, tracked: seq<VarId>, a: seq<nat>, b: seq<nat>)
    requires OptionalGroup(first, ops, opt, trie, tracked) && |first.vertices| == |ops|
    requires |Whole(first, opt).vertices| == |ops + [trie]|
    requires Indices(a, |Whole(first, opt).vertices|) && Increasing(a) && Indices(b, |a|) && Increasing(b)
    requires forall v: nat :: v in a <==> Survives(Whole(first, opt), EmptyOperands(ops + [trie]), v)
    requires forall j: nat :: j in b <==> j < |a| && !(Induced(Whole(first, opt), a).vertices[j].Operand? && Pick(ops + [trie], a)[j].depth == 0)
    ensures Indices(Pick(a, b), |Whole(first, opt).vertices|) && Prepared(Whole(first, opt), ops + [trie], Pick(a, b))
    ensures Induced(Induced(Whole(first, opt), a), b) == Induced(Whole(first, opt), Pick(a, b))
    ensures Pick(Pick(ops + [trie], a), b) == Pick(ops + [trie], Pick(a, b))
  {
    var g, us := Whole(first, opt), ops + [trie];
    GroupParts(first, ops, opt, trie, tracked);
    WholeIs(first, opt);
    WholeAligned(first, ops, opt, trie);
    hide Whole, Aligned, Survives, OptionalGroup, Prepared;
    InducedInduced(g, a, b);
    PickPick(us, a, b);
    PreparedBoth(g, us, a, b);
  }

  lemma SameYielded(p: LeftProblem, q: LeftProblem, tracked: seq<VarId>, c: Key, ys: seq<CountedEntry>)
    requires LeftYielded(q, tracked, c, ys) && |p.vs| == |p.ops| && |q.vs| == |q.ops| && LeftSolutions(q) == LeftSolutions(p)
    ensures LeftYielded(p, tracked, c, ys)
  {
    hide LeftSolutions;
    forall k: Key | |k| == |tracked| ensures LeftMatching(p, tracked, c, k) == LeftMatching(q, tracked, c, k) {
    }
  }

  /**
   The graph built for a group with an optional pattern, prepared and evaluated
   with all variables tracked, yields the left join of the group with the
   pattern: the values yielded for each key sum to the number of its solutions
   there. It does so exactly if the group is not empty or the pattern matches.
   */
  method EvaluateOptional(first: Graph, ops: seq<Trie>, opt: Vertex, trie: Trie, tracked: seq<VarId>)
    returns (ys: seq<CountedEntry>)
    requires OptionalGroup(first, ops, opt, trie, tracked) && |first.vertices| == |ops|
    ensures LeftYielded(LeftProblem(first.vertices, ops, opt, trie), tracked, UnboundKey(|tracked|), ys)
       <==> first.vertices != [] || trie.rows != {}
    ensures first.vertices == [] && trie.rows == {} ==> ys == []
  {
    hide *;
    ghost var p := LeftProblem(first.vertices, ops, opt, trie);
    GroupParts(first, ops, opt, trie, tracked);
    WholeIs(first, opt);
    var g := CombineGroup(first, opt);
    var entry := new Entry(UnboundKey(|tracked|), 1);
    var pruned, prunedOps, a := PruneEmptyOperands(g, ops + [trie]);
    PrunedWellFormed(g, a);
    InducedVertices(g, a);
    PrunedQuery(first, ops, opt, trie, tracked, a);
    var final, finalOps, b := RemoveRankZeroOperands(pruned, prunedOps);
    WholePrepared(first, ops, opt, trie, tracked, a, b);
    if pruned.vertices == [] {
      ys := [];
      if SomeEmpty(ops) {
        NoEmptyGroup(ops);
        NoLeftJoin(p, tracked, UnboundKey(|tracked|));
      } else {
        SolutionMissed(p, tracked);
      }
    } else {
      ghost var q := Varying(first, ops, opt, trie);
      PreparedRemains(first, ops, opt, trie, tracked, Pick(a, b));
      VaryingShape(first, ops, opt, trie, tracked);
      UnboundCleared(tracked, DataVars(final.vertices));
      ys := EvaluateRest(final, finalOps, tracked, entry, q);
      SameYielded(p, q, tracked, UnboundKey(|tracked|), ys);
    }
  }

  /** The graph of the group. */
  method CombineGroup(first: Graph, opt: Vertex) returns (g: Graph)
    requires Plain(first) && Clique(first) && IsOptional(opt)
    ensures g == Whole(first, opt)
  {
    hide *;
    PlainIs(first);
    LoneWellFormed(opt);
    g := CombineOptional(first, Lone(opt));
    WholeCases(first, opt, g);
    if first.vertices != [] {
      CombinedIs(first, opt);
    }
  }

  lemma WholeCases(first: Graph, opt: Vertex, g: Graph)
    ensures first.vertices == [] && g.vertices == Lone(opt).vertices && g.edges == Lone(opt).edges ==> g == Whole(first, opt)
    ensures first.vertices != [] ==> Whole(first, opt) == Depending(first, opt) && Lone(opt).vertices != []
  {
  }
}
