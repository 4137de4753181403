/**
 Graphs of mutually dependent operands on which one optional operand depends:
 the operator chosen for them, and what a join value leaves of them.
 */
module LeftJoinSteps {
  import opened Reachability
  import opened Graphs
  import opened Tries
  import opened Semantics
  import opened Projection
  import opened JoinProof
  import opened ProductProof
  import opened LeafProof
  import opened DependencyGraph
  import opened EngineFacts
  import opened EngineSteps
  import opened GraphBuilder
  import opened Preparation
  import opened LeftJoinProof
  import opened Engine

  /* ---------- the shape of the graph ---------- */

  /** The place of the last vertex. */
  function OptPos(g: Graph): nat {
    if g.vertices == [] then 0 else |g.vertices| - 1
  }

  /** The last vertex is optional: all others depend on each other, and it depends on all of them. */
  ghost predicate LeftGraph(g: Graph) {
    var n: nat := OptPos(g);
    && n >= 1 && WellFormed(g) && Mandatory(g) && LabelsExact(g) && ProperVars(g.vertices)
    && (forall u: nat, v: nat :: u < n && v <= n && u != v ==> Adj(g, u, v))
    && (forall u: nat :: !Adj(g, n, u))
  }

  /** Operands with rows and variables, all of them tracked, and no variable twice in the optional one. */
  ghost predicate LeftOperands(g: Graph, ops: seq<Trie>, tracked: seq<VarId>) {
    && |g.vertices| == |ops| && Distinct(tracked)
    && Aligned(g.vertices, ops) && Live(g.vertices, ops)
    && (forall i :: 0 <= i < |g.vertices| ==> g.vertices[i].Operand?)
    && DataVars(g.vertices) <= Elements(tracked)
    && g.vertices != [] && Distinct(Last(g.vertices).vars)
  }

  function LeftOf(g: Graph, ops: seq<Trie>): LeftProblem
    requires g.vertices != [] && ops != []
  {
    LeftProblem(Init(g.vertices), Init(ops), Last(g.vertices), Last(ops))
  }

  /** The values yielded for each key sum to the number of solutions of the left join that project to it. */
  ghost predicate LeftYielded(p: LeftProblem, tracked: seq<VarId>, c: Key, ys: seq<CountedEntry>) {
    && |p.vs| == |p.ops| && |c| == |tracked| && Proper(ys, |tracked|)
    && forall k: Key :: |k| == |tracked| ==> Total(ys, k) == |LeftMatching(p, tracked, c, k)|
  }

  /* ---------- the operator is chosen ---------- */

  lemma LeftSources(g: Graph)
    requires LeftGraph(g)
    ensures forall v: nat :: InIsc(g, v) <==> v < |g.vertices| - 1
  {
    var n: nat := OptPos(g);
    var es := ArcsOf(g.edges);
    WellFormedArcs(g);
    forall v: nat | v < n ensures IsSource(es, v) {
      LeftSource(g, v);
    }
    assert Adj(g, 0, n);
    ReachArc(es, 0, n);
    NothingFrom(g, n);
    if Reach(es, n, 0) {
      ClosedReach(es, {n}, n, 0);
    }
  }

  lemma LeftSource(g: Graph, v: nat)
    requires LeftGraph(g) && v < |g.vertices| - 1
    ensures IsSource(ArcsOf(g.edges), v)
  {
    var n: nat := OptPos(g);
    var es := ArcsOf(g.edges);
    forall w: nat | Reach(es, w, v) ensures Reach(es, v, w) {
      if v == w {
        ReachRefl(es, v);
      } else if w < n {
        assert Adj(g, v, w);
        ReachArc(es, v, w);
      } else {
        NothingFrom(g, w);
        ClosedReach(es, {w}, w, v);
      }
    }
  }

  lemma NothingFrom(g: Graph, w: nat)
    requires LeftGraph(g) && w >= |g.vertices| - 1
    ensures forall b: nat :: (w, b) !in ArcsOf(g.edges)
  {
    WellFormedArcs(g);
    forall b: nat ensures (w, b) !in ArcsOf(g.edges) {
      if w == OptPos(g) {
        assert !Adj(g, w, b);
      } else {
        assert (w, b) in ArcsOf(g.edges) ==> (w, b).0 < |g.vertices|;
      }
    }
  }

  lemma StarConnected(es: Arcs, n: nat)
    requires forall u: nat :: u < n ==> (u, n) in es
    ensures |Components(es, n + 1)| == 1
  {
    forall u: nat, v: nat | u < n + 1 && v < n + 1 ensures Connected(es, u, v) {
      StarMiddle(es, n, u);
      StarMiddle(es, n, v);
      ConnectedSym(es, v, n);
      ReachTrans(Undirected(es), u, n, v);
    }
    ComponentsSingle(es, n + 1);
  }

  lemma StarMiddle(es: Arcs, n: nat, u: nat)
    requires u <= n && forall u: nat :: u < n ==> (u, n) in es
    ensures Connected(es, u, n)
  {
    if u == n {
      ReachRefl(Undirected(es), n);
    } else {
      ReachArc(Undirected(es), u, n);
    }
  }

  /** A graph of this shape is left-joined: it has one union component and one cartesian component. */
  lemma LeftConnected(g: Graph)
    requires LeftGraph(g)
    ensures |UnionParts(g)| == 1 && |Components(CartesianArcs(g, IscSet(g)), |g.vertices|)| == 1
  {
    var n: nat := OptPos(g);
    LeftSources(g);
    forall u: nat | u < n ensures (u, n) in ArcsOf(g.edges) && (u, n) in CartesianArcs(g, IscSet(g)) {
      assert Adj(g, u, n);
      var e := AdjEdge(g, u, n);
      assert n !in IscSet(g);
    }
    hide CartesianArcs, IscSet, ArcsOf;
    StarConnected(ArcsOf(g.edges), n);
    StarConnected(CartesianArcs(g, IscSet(g)), n);
  }

  lemma NoFilterReady(g: Graph)
    requires forall i :: 0 <= i < |g.vertices| ==> g.vertices[i].Operand?
    ensures !SomeReady(g)
  {
  }

  /* ---------- removing the optional vertex, and resolving a variable ---------- */

  /** The mandatory operands alone are mutually dependent. */
  lemma MandatoryPart(g: Graph, keep: seq<nat>)
    requires LeftGraph(g) && Indices(keep, |g.vertices| - 1) && Increasing(keep)
    ensures Indices(keep, |g.vertices|) && Plain(Induced(g, keep)) && Clique(Induced(g, keep))
  {
    var h := Induced(g, keep);
    InducedWellFormed(g, keep);
    InducedLabels(g, keep);
    forall e | e in h.edges ensures !e.opt {
      InducedEdgeBack(g, keep, e);
    }
    forall a: nat, b: nat | a in keep && b in keep && a != b ensures Adj(g, a, b) {
    }
    InducedClique(g, keep);
    CliqueCliques(h);
  }

  lemma KeptSnoc(vs: seq<Vertex>, w: Vertex, x: VarId)
    requires w.Operand?
    ensures Kept(vs + [w], x) == Kept(vs, x) + if RemoveFrom(w.vars, x) != [] then [|vs|] else []
  {
    assert Init(vs + [w]) == vs;
  }

  /** Resolving a variable keeps the shape, if a mandatory operand and the optional one are left. */
  lemma LeftWithoutVar(g: Graph, x: VarId)
    requires LeftGraph(g) && x != NO_VAR && Last(g.vertices).Operand?
    requires RemoveFrom(Last(g.vertices).vars, x) != [] && Kept(Init(g.vertices), x) != []
    ensures LeftGraph(RemoveVar(g, x))
  {
    var n: nat := OptPos(g);
    var front := Kept(Init(g.vertices), x);
    KeptSnoc(Init(g.vertices), Last(g.vertices), x);
    var keep := Kept(g.vertices, x);
    assert g.vertices == Init(g.vertices) + [Last(g.vertices)];
    assert keep == front + [n];
    hide Kept, LeftGraph;
    LeftSelected(g, keep);
    LeftErased(Induced(g, keep), x);
  }

  /** A selection of such a graph that has the optional vertex last. */
  lemma LeftSelected(g: Graph, keep: seq<nat>)
    requires LeftGraph(g) && Indices(keep, |g.vertices|) && Increasing(keep) && |keep| >= 2 && Last(keep) == OptPos(g)
    ensures LeftGraph(Induced(g, keep))
  {
    var h := Induced(g, keep);
    var m: nat := |keep| - 1;
    InducedWellFormed(g, keep);
    InducedLabels(g, keep);
    forall e | e in h.edges ensures !e.opt {
      InducedEdgeBack(g, keep, e);
    }
    hide Induced;
    forall u: nat, v: nat | u < m && v <= m && u != v ensures Adj(h, u, v) {
      SelectedAdj(g, keep, u, v);
    }
    forall u: nat ensures !Adj(h, m, u) {
      SelectedOpt(g, keep, u);
    }
  }

  lemma SelectedAdj(g: Graph, keep: seq<nat>, u: nat, v: nat)
    requires LeftGraph(g) && Indices(keep, |g.vertices|) && Increasing(keep) && |keep| >= 2 && Last(keep) == OptPos(g)
    requires u < |keep| - 1 && v < |keep| && u != v
    ensures Adj(Induced(g, keep), u, v)
  {
    hide Induced;
    InducedAdj(g, keep, u, v);
    assert keep[u] < Last(keep) && keep[v] <= Last(keep) && keep[u] != keep[v];
  }

  lemma SelectedOpt(g: Graph, keep: seq<nat>, u: nat)
    requires LeftGraph(g) && Indices(keep, |g.vertices|) && Increasing(keep) && |keep| >= 2 && Last(keep) == OptPos(g)
    ensures !Adj(Induced(g, keep), |keep| - 1, u)
  {
    if u < |keep| {
      InducedAdj(g, keep, |keep| - 1, u);
      NothingFrom(g, OptPos(g));
    } else {
      InducedWellFormed(g, keep);
      WellFormedArcs(Induced(g, keep));
    }
  }

  /** Erasing a variable changes labels only. */
  lemma LeftErased(h: Graph, x: VarId)
    requires LeftGraph(h) && x != NO_VAR
    ensures LeftGraph(Without(h, x))
  {
    WithoutLabels(h, x);
    EdgesWithoutArcs(h.edges, x);
    assert forall u: nat, v: nat :: Adj(Without(h, x), u, v) <==> Adj(h, u, v);
    assert OptPos(Without(h, x)) == OptPos(h);
  }

  /* ---------- the operands of a join value ---------- */

  /** The operands that are left with a variable. */
  function DeepOperands(vs: seq<Vertex>, ops: seq<Trie>): seq<Trie>
    requires |vs| == |ops|
  {
    if vs == [] then []
    else DeepOperands(Init(vs), Init(ops)) + (if Last(ops).depth > 0 || Last(vs).FilterVertex? then [Last(ops)] else [])
  }

  lemma DeepSnoc(vs: seq<Vertex>, ops: seq<Trie>, v: Vertex, t: Trie)
    requires |vs| == |ops| && v.Operand?
    ensures DeepOperands(vs + [v], ops + [t]) == DeepOperands(vs, ops) + if t.depth > 0 then [t] else []
  {
    assert Init(vs + [v]) == vs && Init(ops + [t]) == ops;
  }

  lemma SlicesSnoc(vs: seq<Vertex>, ops: seq<Trie>, x: VarId, v: Term)
    requires |vs| == |ops| && vs != []
    ensures VarPositions(vs, x) == VarPositions(Init(vs), x) + [OwnPositions(Last(vs), x)]
    ensures AllSlices(ops, VarPositions(vs, x), v)
         == AllSlices(Init(ops), VarPositions(Init(vs), x), v) + [SliceOrKeep(Last(ops), OwnPositions(Last(vs), x), v)]
  {
    var poss := VarPositions(vs, x);
    assert poss == VarPositions(Init(vs), x) + [OwnPositions(Last(vs), x)];
    assert Init(poss) == VarPositions(Init(vs), x) && Last(poss) == OwnPositions(Last(vs), x);
  }

  lemma DepthLeft(v: Vertex, t: Trie, x: VarId, value: Term)
    requires v.Operand? && AlignedAt(v, t) && v.vars != []
    ensures SliceOrKeep(t, OwnPositions(v, x), value).depth == |RemoveFrom(v.vars, x)|
  {
    assert |v.vars| == |OwnPositions(v, x)| + |RemoveFrom(v.vars, x)|;
  }

  /** Dropping the operands without a variable leaves what the join without an optional part leaves. */
  lemma {:induction false} DeepAgree(vs: seq<Vertex>, ops: seq<Trie>, x: VarId, v: Term)
    requires Aligned(vs, ops) && Live(vs, ops) && |vs| == |ops|
    requires forall i :: 0 <= i < |vs| ==> vs[i].Operand?
    ensures Kept(vs, x) == JoinKept(ops, VarPositions(vs, x))
    ensures DeepOperands(vs, AllSlices(ops, VarPositions(vs, x), v)) == JoinSlices(ops, VarPositions(vs, x), v)
    decreases |vs|
  {
    hide *;
    if vs == [] {
      DeepBase(vs, ops, x, v);
    } else {
      AlignedInit(vs, ops);
      InitOperands(vs);
      DeepAgree(Init(vs), Init(ops), x, v);
      KeptAgree(vs, ops, x);
      DeepStep(vs, ops, x, v);
    }
  }

  lemma InitOperands(vs: seq<Vertex>)
    requires vs != [] && forall i :: 0 <= i < |vs| ==> vs[i].Operand?
    ensures forall i :: 0 <= i < |Init(vs)| ==> Init(vs)[i].Operand?
  {
  }

  lemma DeepBase(vs: seq<Vertex>, ops: seq<Trie>, x: VarId, v: Term)
    requires vs == [] && ops == []
    ensures Kept(vs, x) == JoinKept(ops, VarPositions(vs, x))
    ensures DeepOperands(vs, AllSlices(ops, VarPositions(vs, x), v)) == JoinSlices(ops, VarPositions(vs, x), v)
  {
  }

  lemma DeepStep(vs: seq<Vertex>, ops: seq<Trie>, x: VarId, v: Term)
    requires Aligned(vs, ops) && Live(vs, ops) && |vs| == |ops| && vs != []
    requires forall i :: 0 <= i < |vs| ==> vs[i].Operand?
    requires Kept(vs, x) == JoinKept(ops, VarPositions(vs, x))
    requires Kept(Init(vs), x) == JoinKept(Init(ops), VarPositions(Init(vs), x))
    requires DeepOperands(Init(vs), AllSlices(Init(ops), VarPositions(Init(vs), x), v))
          == JoinSlices(Init(ops), VarPositions(Init(vs), x), v)
    ensures DeepOperands(vs, AllSlices(ops, VarPositions(vs, x), v)) == JoinSlices(ops, VarPositions(vs, x), v)
  {
    var before, last := AllSlices(Init(ops), VarPositions(Init(vs), x), v), SliceOrKeep(Last(ops), OwnPositions(Last(vs), x), v);
    assert AlignedAt(Last(vs), Last(ops)) && Last(vs).vars != [];
    KeptSnoc(Init(vs), Last(vs), x);
    assert vs == Init(vs) + [Last(vs)];
    hide Kept, JoinKept, Aligned, Live, AllSlices, VarPositions, SliceOrKeep, OwnPositions, RemoveFrom, DeepOperands, Pick;
    SlicesSnoc(vs, ops, x, v);
    DepthLeft(Last(vs), Last(ops), x, v);
    DeepSnoc(Init(vs), before, Last(vs), last);
    PickSnoc(before, last, Kept(Init(vs), x));
  }

  lemma PickSnoc<T>(s: seq<T>, t: T, keep: seq<nat>)
    requires Indices(keep, |s|)
    ensures Indices(keep, |s + [t]|) && Pick(s + [t], keep) == Pick(s, keep)
    ensures Indices(keep + [|s|], |s + [t]|) && Pick(s + [t], keep + [|s|]) == Pick(s, keep) + [t]
  {
    assert Init(keep + [|s|]) == keep;
  }

  /** Finds the empty operands, and removes them and what depends on them. */
  method PruneEmpty(g: Graph, operands: seq<Trie>) returns (pruned: Graph, prunedOperands: seq<Trie>, ghost keep: seq<nat>)
    requires WellFormed(g) && |g.vertices| == |operands|
    ensures Indices(keep, |g.vertices|) && Increasing(keep)
    ensures forall v: nat :: v in keep <==> Survives(g, EmptyOperands(operands), v)
    ensures pruned == Induced(g, keep) && prunedOperands == DeepOperands(Pick(g.vertices, keep), Pick(operands, keep))
  {
    hide Survives, WellFormed, Induced, Pick;
    var emptyOps := [];
    for pos := 0 to |operands|
      invariant emptyOps == EmptyOperands(operands[..pos])
    {
      assert Init(operands[..pos + 1]) == operands[..pos];
      if operands[pos].rows == {} {
        emptyOps := emptyOps + [pos];
      }
    }
    assert operands[..|operands|] == operands;
    var originalPositions;
    pruned, originalPositions := PruneGraph(g, emptyOps);
    keep := originalPositions;
    prunedOperands := [];
    ghost var vs, us := Pick(g.vertices, keep), Pick(operands, keep);
    DeepNone();
    for i := 0 to |originalPositions|
      invariant prunedOperands == DeepOperands(vs[..i], us[..i])
    {
      var pos := originalPositions[i];
      DeepNext(vs, us, i);
      if operands[pos].depth > 0 || g.vertices[pos].FilterVertex? {
        prunedOperands := prunedOperands + [operands[pos]];
      }
    }
    assert vs[..|vs|] == vs && us[..|us|] == us;
  }

  lemma DeepNone()
    ensures DeepOperands([], []) == []
  {
  }

  lemma DeepNext(vs: seq<Vertex>, us: seq<Trie>, i: nat)
    requires |vs| == |us| && i < |vs|
    ensures DeepOperands(vs[..i + 1], us[..i + 1])
         == DeepOperands(vs[..i], us[..i]) + if us[i].depth > 0 || vs[i].FilterVertex? then [us[i]] else []
  {
    assert Init(vs[..i + 1]) == vs[..i] && Init(us[..i + 1]) == us[..i];
  }

  /** Of this shape, only the optional operand is pruned by being empty. */
  lemma PrunedLeft(g: Graph, operands: seq<Trie>, keep: seq<nat>)
    requires LeftGraph(g) && |g.vertices| == |operands| && Indices(keep, |g.vertices|) && Increasing(keep)
    requires forall v: nat :: v in keep <==> Survives(g, EmptyOperands(operands), v)
    requires forall i :: 0 <= i < |operands| - 1 ==> operands[i].rows != {}
    ensures keep == if Last(operands).rows == {} then Range(|g.vertices| - 1) else Range(|g.vertices|)
  {
    var n: nat := OptPos(g);
    MandatoryAll(g);
    forall v: nat ensures v in keep <==> v < n || (v == n && Last(operands).rows != {}) {
      OptionalPruned(g, operands, v);
    }
    IncreasingUnique(keep, if Last(operands).rows == {} then Range(n) else Range(n + 1));
  }

  lemma OptReaches(g: Graph, v: nat)
    requires LeftGraph(g)
    ensures Reach(ArcsOf(g.edges), OptPos(g), v) <==> v == OptPos(g)
  {
    var n := OptPos(g);
    NothingFrom(g, n);
    if Reach(ArcsOf(g.edges), n, v) {
      ClosedReach(ArcsOf(g.edges), {n}, n, v);
    }
    ReachRefl(ArcsOf(g.edges), n);
  }

  lemma OptionalPruned(g: Graph, operands: seq<Trie>, v: nat)
    requires LeftGraph(g) && |g.vertices| == |operands| && MandatoryArcs(g) == ArcsOf(g.edges)
    requires forall i :: 0 <= i < |operands| - 1 ==> operands[i].rows != {}
    ensures Survives(g, EmptyOperands(operands), v) <==> v < OptPos(g) || (v == OptPos(g) && Last(operands).rows != {})
  {
    hide LeftGraph, Reach;
    OptReaches(g, v);
    OptLength(g);
    var empties := EmptyOperands(operands);
    assert forall e: nat :: e in empties <==> e == OptPos(g) && Last(operands).rows == {};
  }

  lemma OptLength(g: Graph)
    requires LeftGraph(g)
    ensures |g.vertices| == OptPos(g) + 1 && OptPos(g) >= 1 && WellFormed(g) && Mandatory(g)
  {
  }

  /* ---------- one join value ---------- */

  lemma OperandsOf(g: Graph, ops: seq<Trie>, tracked: seq<VarId>)
    requires LeftOperands(g, ops, tracked) && |g.vertices| > 1
    ensures g.vertices != [] && ops != []
    ensures var p := LeftOf(g, ops);
            && p.Valid() && Live(p.vs, p.ops) && Distinct(p.opt.vars) && p.opt.vars != [] && p.trie.rows != {}
            && p.vs != [] && g.vertices == p.vs + [p.opt] && ops == p.ops + [p.trie]
            && (forall i :: 0 <= i < |p.vs| ==> p.vs[i].Operand?)
            && DataVars(g.vertices) == DataVars(p.vs) + Elements(p.opt.vars)
  {
    AlignedInit(g.vertices, ops);
    DataVarsInit(g.vertices);
  }

  /** The problem that is left when x is v. */
  ghost function Resolved(p: LeftProblem, x: VarId, v: Term): (q: LeftProblem)
    requires |p.vs| == |p.ops|
  {
    LeftProblem(VerticesWithout(Pick(p.vs, Kept(p.vs, x)), x), JoinSlices(p.ops, VarPositions(p.vs, x), v),
                VertexWithout(p.opt, x), SliceOrKeep(p.trie, OwnPositions(p.opt, x), v))
  }

  lemma ResolvedStep(p: LeftProblem, x: VarId, v: Term)
    requires p.Valid() && Live(p.vs, p.ops) && |p.vs| == |p.ops|
    requires v in JoinKeys(p.ops, VarPositions(p.vs, x))
    ensures LeftStep(p, x, v, Resolved(p, x, v)) && Resolved(p, x, v).Valid() && Live(Resolved(p, x, v).vs, Resolved(p, x, v).ops)
    ensures |Resolved(p, x, v).vs| == |Resolved(p, x, v).ops|
  {
    hide JoinStep, Aligned, Live, JoinSlices;
    MakeJoinStep(p.vs, p.ops, x, v);
    var q := Resolved(p, x, v);
    JoinStepAligned(p.vs, p.ops, x, v, Kept(p.vs, x), q.vs, q.ops);
    OptionalAligned(p.opt, p.trie, x, v);
    AlignedLength(q.vs, q.ops);
  }

  lemma OptionalAligned(opt: Vertex, t: Trie, x: VarId, v: Term)
    requires opt.Operand? && AlignedAt(opt, t)
    ensures AlignedAt(VertexWithout(opt, x), SliceOrKeep(t, OwnPositions(opt, x), v))
  {
    if x in opt.vars {
      SliceAligned(t, opt.vars, x, v);
      var p :| 0 <= p < |opt.vars| && opt.vars[p] == x;
      assert p in PositionsOf(opt.vars, x);
    } else {
      RemoveAbsent(opt.vars, x);
    }
  }

  lemma {:induction false} DistinctRemove(vars: seq<VarId>, x: VarId)
    requires Distinct(vars)
    ensures Distinct(RemoveFrom(vars, x))
  {
    if vars != [] {
      DistinctRemove(Init(vars), x);
      var r := RemoveFrom(Init(vars), x);
      forall i | 0 <= i < |r| ensures r[i] != Last(vars) {
        assert r[i] in r;
        var j :| 0 <= j < |vars| - 1 && Init(vars)[j] == r[i];
      }
    }
  }

  /** What is left to evaluate for a join value, and the left join it stands for. */
  ghost predicate Remainder(sub: Graph, subOps: seq<Trie>, tracked: seq<VarId>, q: LeftProblem) {
    && |sub.vertices| == |subOps| && |q.vs| == |q.ops|
    && (|| (Evaluable(sub, subOps, tracked) && Clique(sub) && DataVars(sub.vertices) <= Elements(tracked)
            && SameSolutions(sub, subOps, q))
        || (LeftGraph(sub) && LeftOperands(sub, subOps, tracked) && q == LeftOf(sub, subOps)))
  }

  /** A clique whose solutions are those of the left join. */
  ghost predicate SameSolutions(sub: Graph, subOps: seq<Trie>, q: LeftProblem)
    requires |sub.vertices| == |subOps| && |q.vs| == |q.ops|
  {
    (forall i :: 0 <= i < |sub.vertices| ==> sub.vertices[i].Operand?) && NaiveJoin(sub.vertices, subOps) == LeftSolutions(q)
  }

  lemma OperandsEvaluable(g: Graph, ops: seq<Trie>, tracked: seq<VarId>)
    requires Plain(g) && Aligned(g.vertices, ops) && Live(g.vertices, ops) && Distinct(tracked)
    requires forall i :: 0 <= i < |g.vertices| ==> g.vertices[i].Operand?
    requires DataVars(g.vertices) <= Elements(tracked)
    ensures Evaluable(g, ops, tracked)
  {
    hide Plain;
    forall i, x | 0 <= i < |g.vertices| && x !in tracked ensures multiset(g.vertices[i].vars)[x] <= 1 {
      assert x in g.vertices[i].vars ==> x in DataVars(g.vertices);
    }
  }

  lemma PickFront(vs: seq<Vertex>, w: Vertex, keep: seq<nat>)
    requires Indices(keep, |vs|)
    ensures Indices(keep, |vs + [w]|) && Pick(vs + [w], keep) == Pick(vs, keep)
  {
    PickSnoc(vs, w, keep);
  }

  lemma StepOperands(p: LeftProblem, x: VarId, v: Term, q: LeftProblem)
    requires LeftStep(p, x, v, q) && forall i :: 0 <= i < |p.vs| ==> p.vs[i].Operand?
    ensures forall i :: 0 <= i < |q.vs| ==> q.vs[i].Operand?
  {
  }

  /* ---------- resolving at a value ---------- */

  /** p is the left join of the graph, and q what is left of it when x is v. */
  ghost predicate AtValue(g: Graph, ops: seq<Trie>, tracked: seq<VarId>, x: VarId, v: Term, p: LeftProblem, q: LeftProblem) {
    && LeftGraph(g) && LeftOperands(g, ops, tracked) && |g.vertices| == |ops|
    && g.vertices == p.vs + [p.opt] && ops == p.ops + [p.trie] && |p.vs| == |p.ops| && p.vs != []
    && x != NO_VAR && v in JoinKeys(p.ops, VarPositions(p.vs, x))
    && q == Resolved(p, x, v)
  }

  lemma AtProblem(g: Graph, ops: seq<Trie>, tracked: seq<VarId>, x: VarId, v: Term, p: LeftProblem, q: LeftProblem)
    requires AtValue(g, ops, tracked, x, v, p, q)
    ensures p.Valid() && Live(p.vs, p.ops) && Distinct(p.opt.vars) && p.opt.vars != [] && p.trie.rows != {}
    ensures forall i :: 0 <= i < |p.vs| ==> p.vs[i].Operand?
    ensures DataVars(g.vertices) == DataVars(p.vs) + Elements(p.opt.vars) && DataVars(g.vertices) <= Elements(tracked)
    ensures Distinct(tracked) && WellFormed(g) && NO_VAR !in p.opt.vars && |g.vertices| == |p.vs| + 1
  {
    SnocParts(p.vs, p.opt);
    SnocParts(p.ops, p.trie);
    OperandsOf(g, ops, tracked);
    assert g.vertices[|p.vs|] == p.opt;
  }

  lemma AtRest(g: Graph, ops: seq<Trie>, tracked: seq<VarId>, x: VarId, v: Term, p: LeftProblem, q: LeftProblem)
    requires AtValue(g, ops, tracked, x, v, p, q)
    ensures LeftStep(p, x, v, q) && q.Valid() && |q.vs| == |q.ops| && Live(q.vs, q.ops) && Distinct(q.opt.vars)
    ensures forall i :: 0 <= i < |q.vs| ==> q.vs[i].Operand?
    ensures DataVars(q.vs) <= Elements(tracked) && Elements(q.opt.vars) <= Elements(tracked) && NO_VAR !in q.opt.vars
  {
    AtProblem(g, ops, tracked, x, v, p, q);
    hide LeftGraph, LeftOperands, JoinKeys, JoinStep, DataVars, Kept, Aligned, Live;
    ResolvedStep(p, x, v);
    DistinctRemove(p.opt.vars, x);
    WithoutElements(p.opt.vars, x);
    StepOperands(p, x, v, q);
    StepDataVars(p.vs, p.ops, x, v, Kept(p.vs, x), q.vs, q.ops);
  }

  /** The mandatory operands that are left, without the optional one. */
  lemma MandatoryRest(g: Graph, ops: seq<Trie>, tracked: seq<VarId>, x: VarId, v: Term, p: LeftProblem, q: LeftProblem)
    requires AtValue(g, ops, tracked, x, v, p, q)
    ensures Indices(Kept(p.vs, x), |g.vertices|) && |q.vs| == |q.ops|
    ensures var sub := Without(Induced(g, Kept(p.vs, x)), x);
            sub.vertices == q.vs && Evaluable(sub, q.ops, tracked) && Clique(sub)
  {
    AtProblem(g, ops, tracked, x, v, p, q);
    AtRest(g, ops, tracked, x, v, p, q);
    MandatorySelected(g, p, q, x);
    OperandsEvaluable(Without(Induced(g, Kept(p.vs, x)), x), q.ops, tracked);
  }

  lemma MandatorySelected(g: Graph, p: LeftProblem, q: LeftProblem, x: VarId)
    requires LeftGraph(g) && g.vertices == p.vs + [p.opt] && x != NO_VAR
    requires q.vs == VerticesWithout(Pick(p.vs, Kept(p.vs, x)), x)
    ensures Indices(Kept(p.vs, x), |g.vertices|)
    ensures var sub := Without(Induced(g, Kept(p.vs, x)), x);
            sub.vertices == q.vs && Plain(sub) && Clique(sub)
  {
    var keep := Kept(p.vs, x);
    MandatoryPart(g, keep);
    WithoutPlain(Induced(g, keep), x);
    WithoutClique(Induced(g, keep), x);
    PickFront(p.vs, p.opt, keep);
  }

  /** The optional operand has no row or no variable left: the mandatory ones go on alone. */
  lemma WithoutOptional(g: Graph, ops: seq<Trie>, tracked: seq<VarId>, x: VarId, v: Term, p: LeftProblem, q: LeftProblem)
    requires AtValue(g, ops, tracked, x, v, p, q) && (q.trie.rows == {} || q.opt.vars == [])
    ensures Indices(Kept(p.vs, x), |g.vertices|)
    ensures Remainder(Without(Induced(g, Kept(p.vs, x)), x), q.ops, tracked, q)
  {
    AtRest(g, ops, tracked, x, v, p, q);
    hide *;
    MandatoryRest(g, ops, tracked, x, v, p, q);
    ValidOptional(q);
    LeftWithout(q);
    CliqueRemains(Without(Induced(g, Kept(p.vs, x)), x), q.ops, tracked, q);
  }

  lemma ValidOptional(q: LeftProblem)
    requires q.Valid()
    ensures q.opt.Operand? && AlignedAt(q.opt, q.trie) && |q.vs| == |q.ops|
  {
  }

  lemma AloneRemains(q: LeftProblem, tracked: seq<VarId>, sub: Graph)
    requires q.Valid() && q.vs == [] && q.ops == [] && q.trie.rows != {} && q.opt.vars != []
    requires Distinct(q.opt.vars) && Distinct(tracked) && Elements(q.opt.vars) <= Elements(tracked)
    requires sub.vertices == [q.opt] && WellFormed(sub) && NO_VAR !in q.opt.vars
    ensures Remainder(sub, [q.trie], tracked, q)
  {
    hide *;
    AloneFacts(q, sub);
    hide *;
    LonePlainGraph(sub);
    SingleVars(q.opt);
    SomeMapping(q.opt.vars, q.trie);
    LeftAlone(q);
    SingleJoin(q.opt, q.trie);
    OperandsEvaluable(sub, [q.trie], tracked);
    CliqueRemains(sub, [q.trie], tracked, q);
  }

  lemma AloneFacts(q: LeftProblem, sub: Graph)
    requires q.Valid() && q.trie.rows != {} && q.opt.vars != [] && sub.vertices == [q.opt]
    ensures q.opt.Operand? && q.trie.Valid() && q.trie.depth == |q.opt.vars|
    ensures Aligned(sub.vertices, [q.trie]) && Live(sub.vertices, [q.trie])
    ensures forall i :: 0 <= i < |sub.vertices| ==> sub.vertices[i].Operand?
  {
  }

  lemma CliqueRemains(sub: Graph, subOps: seq<Trie>, tracked: seq<VarId>, q: LeftProblem)
    requires |sub.vertices| == |subOps| && |q.vs| == |q.ops|
    requires Evaluable(sub, subOps, tracked) && Clique(sub) && DataVars(sub.vertices) <= Elements(tracked)
    requires forall i :: 0 <= i < |sub.vertices| ==> sub.vertices[i].Operand?
    requires NaiveJoin(sub.vertices, subOps) == LeftSolutions(q)
    ensures Remainder(sub, subOps, tracked, q)
  {
  }

  lemma LonePlainGraph(g: Graph)
    requires |g.vertices| == 1 && WellFormed(g)
    ensures g.vertices[0].vars != [] && NO_VAR !in g.vertices[0].vars ==> Plain(g)
    ensures Clique(g)
  {
    assert forall e :: e !in g.edges;
    assert forall u: nat, w: nat :: !Adj(g, u, w);
  }

  lemma SingleJoin(v: Vertex, t: Trie)
    requires v.Operand?
    ensures NaiveJoin([v], [t]) == OperandBindings(v.vars, t)
  {
    assert Init([v]) == [] && Init([t]) == [];
    assert NaiveJoin([], []) == {map[]};
    JoinUnit(OperandBindings(v.vars, t));
  }

  lemma SomeMapping(vars: seq<VarId>, t: Trie)
    requires t.Valid() && t.depth == |vars| && Distinct(vars) && t.rows != {}
    ensures OperandBindings(vars, t) != {}
  {
    var r :| r in t.rows;
    RowOfBinding(vars, r);
    assert RowBinding(vars, r) in OperandBindings(vars, t);
  }

  lemma BothOperands(sub: Graph, subOps: seq<Trie>, tracked: seq<VarId>, q: LeftProblem)
    requires sub.vertices == q.vs + [q.opt] && subOps == q.ops + [q.trie] && q.Valid() && Live(q.vs, q.ops)
    requires q.trie.rows != {} && q.opt.vars != [] && Distinct(q.opt.vars) && Distinct(tracked)
    requires forall i :: 0 <= i < |q.vs| ==> q.vs[i].Operand?
    requires DataVars(sub.vertices) <= Elements(tracked)
    ensures |q.vs| == |q.ops| && LeftOperands(sub, subOps, tracked) && LeftOf(sub, subOps) == q
  {
    hide DataVars;
    assert Init(sub.vertices) == q.vs && Init(subOps) == q.ops;
    forall i: nat | i < |sub.vertices|
      ensures sub.vertices[i].Operand? && AlignedAt(sub.vertices[i], subOps[i]) && subOps[i].rows != {} && sub.vertices[i].vars != []
    {
      if i < |q.vs| {
        assert sub.vertices[i] == q.vs[i] && subOps[i] == q.ops[i];
        assert AlignedAt(q.vs[i], q.ops[i]);
      }
    }
  }

  /** Mandatory operands and the optional one are left: the shape stays. */
  lemma BothLeft(g: Graph, ops: seq<Trie>, tracked: seq<VarId>, x: VarId, v: Term, p: LeftProblem, q: LeftProblem)
    requires AtValue(g, ops, tracked, x, v, p, q) && q.vs != [] && q.trie.rows != {} && q.opt.vars != []
    requires RemoveVar(g, x).vertices == q.vs + [q.opt]
    ensures Remainder(RemoveVar(g, x), q.ops + [q.trie], tracked, q)
  {
    AtProblem(g, ops, tracked, x, v, p, q);
    AtRest(g, ops, tracked, x, v, p, q);
    SnocParts(p.vs, p.opt);
    SnocParts(q.vs, q.opt);
    LeftWithoutVar(g, x);
    DataVarsInit(q.vs + [q.opt]);
    hide LeftGraph, JoinKeys, Resolved, DataVars, RemoveVar, Kept, Aligned, Live;
    BothOperands(RemoveVar(g, x), q.ops + [q.trie], tracked, q);
  }

  /* ---------- what the operator computes for a value ---------- */

  lemma SnocParts<T>(s: seq<T>, t: T)
    ensures s + [t] != [] && Init(s + [t]) == s && Last(s + [t]) == t
  {
  }

  /** The slices of all operands. */
  lemma LeftSlices(p: LeftProblem, x: VarId, v: Term)
    requires |p.vs| == |p.ops|
    ensures AllSlices(p.ops + [p.trie], VarPositions(p.vs + [p.opt], x), v)
         == AllSlices(p.ops, VarPositions(p.vs, x), v) + [SliceOrKeep(p.trie, OwnPositions(p.opt, x), v)]
  {
    hide *;
    SnocParts(p.vs, p.opt);
    SnocParts(p.ops, p.trie);
    SlicesSnoc(p.vs + [p.opt], p.ops + [p.trie], x, v);
  }

  lemma RowsLeft(vs: seq<Vertex>, ops: seq<Trie>, x: VarId, v: Term)
    requires Live(vs, ops) && |vs| == |ops| && v in JoinKeys(ops, VarPositions(vs, x))
    requires forall i :: 0 <= i < |vs| ==> vs[i].Operand?
    ensures forall i :: 0 <= i < |ops| ==> AllSlices(ops, VarPositions(vs, x), v)[i].rows != {}
  {
    var poss := VarPositions(vs, x);
    JoinKeysPresent(ops, poss, v);
    hide JoinKeys, VarPositions, SliceAt;
    forall i | 0 <= i < |ops| ensures SliceOrKeep(ops[i], poss[i], v).rows != {} {
      if poss[i] != [] {
        SliceNonEmpty(ops[i], poss[i], v);
      }
    }
  }

  /** The graph and operands after pruning and resolving. */
  ghost predicate Left(g: Graph, ops: seq<Trie>, x: VarId, v: Term, keep: seq<nat>, sub: Graph, subOps: seq<Trie>)
    requires |g.vertices| == |ops| && Indices(keep, |g.vertices|)
  {
    var slices := AllSlices(ops, VarPositions(g.vertices, x), v);
    && sub == RemoveVar(Induced(g, keep), x)
    && subOps == DeepOperands(Pick(g.vertices, keep), Pick(slices, keep))
  }

  lemma RangePick<T>(s: seq<T>, t: T)
    ensures Indices(Range(|s|), |s + [t]|) && Pick(s + [t], Range(|s|)) == s
  {
    PickAll(s);
    PickSnoc(s, t, Range(|s|));
  }

  lemma FrontInduced(g: Graph, keep: seq<nat>)
    requires g.vertices != [] && Indices(keep, |g.vertices| - 1) && Increasing(keep)
    ensures Indices(Range(|g.vertices| - 1), |g.vertices|)
    ensures Induced(Induced(g, Range(|g.vertices| - 1)), keep) == Induced(g, keep)
  {
    var front := Range(|g.vertices| - 1);
    InducedInduced(g, front, keep);
    assert Pick(front, keep) == keep;
  }

  lemma DeepRest(g: Graph, ops: seq<Trie>, tracked: seq<VarId>, x: VarId, v: Term, p: LeftProblem, q: LeftProblem)
    requires AtValue(g, ops, tracked, x, v, p, q)
    ensures var slices := AllSlices(p.ops, VarPositions(p.vs, x), v);
            && DeepOperands(p.vs, slices) == q.ops
            && DeepOperands(p.vs + [p.opt], slices + [q.trie]) == q.ops + (if q.opt.vars != [] then [q.trie] else [])
  {
    AtProblem(g, ops, tracked, x, v, p, q);
    var slices := AllSlices(p.ops, VarPositions(p.vs, x), v);
    hide LeftGraph, LeftOperands, JoinKeys, DataVars, Aligned, Live, Kept, DeepOperands;
    DeepAgree(p.vs, p.ops, x, v);
    DepthLeft(p.opt, p.trie, x, v);
    DeepSnoc(p.vs, slices, p.opt, q.trie);
  }

  /** The optional operand is pruned. */
  lemma PrunedRest(g: Graph, ops: seq<Trie>, tracked: seq<VarId>, x: VarId, v: Term, p: LeftProblem, q: LeftProblem,
                   sub: Graph, subOps: seq<Trie>)
    requires |g.vertices| == |ops| && Indices(Range(|p.vs|), |g.vertices|) && Left(g, ops, x, v, Range(|p.vs|), sub, subOps)
    requires AtValue(g, ops, tracked, x, v, p, q) && q.trie.rows == {}
    ensures Remainder(sub, subOps, tracked, q)
  {
    AtProblem(g, ops, tracked, x, v, p, q);
    RangePick(p.vs, p.opt);
    FrontInduced(g, Kept(p.vs, x));
    LeftSlices(p, x, v);
    RangePick(AllSlices(p.ops, VarPositions(p.vs, x), v), q.trie);
    hide LeftGraph, LeftOperands, JoinKeys, DeepOperands, Remainder, Kept, DataVars, Aligned, Live;
    DeepRest(g, ops, tracked, x, v, p, q);
    WithoutOptional(g, ops, tracked, x, v, p, q);
  }

  lemma WholeLeft(g: Graph, ops: seq<Trie>, x: VarId, v: Term, sub: Graph, subOps: seq<Trie>)
    requires WellFormed(g) && |g.vertices| == |ops| && Left(g, ops, x, v, Range(|g.vertices|), sub, subOps)
    ensures sub == RemoveVar(g, x) && subOps == DeepOperands(g.vertices, AllSlices(ops, VarPositions(g.vertices, x), v))
  {
    PickAll(g.vertices);
    PickAll(AllSlices(ops, VarPositions(g.vertices, x), v));
    WholeInduced(g);
  }

  lemma RestShape(g: Graph, p: LeftProblem, x: VarId, v: Term, q: LeftProblem)
    requires g.vertices == p.vs + [p.opt] && |p.vs| == |p.ops| && p.opt.Operand? && q == Resolved(p, x, v)
    ensures q.opt.vars == [] ==> Indices(Kept(p.vs, x), |g.vertices|) && RemoveVar(g, x) == Without(Induced(g, Kept(p.vs, x)), x)
    ensures RemoveVar(g, x).vertices == q.vs + if q.opt.vars != [] then [q.opt] else []
  {
    KeptSnoc(p.vs, p.opt, x);
    PickSnoc(p.vs, p.opt, Kept(p.vs, x));
    var vs := Pick(p.vs, Kept(p.vs, x));
    hide Kept, Pick;
    assert VerticesWithout(vs + [p.opt], x) == VerticesWithout(vs, x) + [VertexWithout(p.opt, x)];
  }

  /** Nothing is pruned. */
  lemma UnprunedRest(g: Graph, ops: seq<Trie>, tracked: seq<VarId>, x: VarId, v: Term, p: LeftProblem, q: LeftProblem,
                     sub: Graph, subOps: seq<Trie>)
    requires |g.vertices| == |ops| && Left(g, ops, x, v, Range(|g.vertices|), sub, subOps)
    requires AtValue(g, ops, tracked, x, v, p, q) && q.trie.rows != {}
    ensures Remainder(sub, subOps, tracked, q)
  {
    AtProblem(g, ops, tracked, x, v, p, q);
    WholeLeft(g, ops, x, v, sub, subOps);
    LeftSlices(p, x, v);
    RestShape(g, p, x, v, q);
    hide LeftGraph, LeftOperands, JoinKeys, DeepOperands, Remainder, Kept, DataVars, Aligned, Live, RemoveVar, Without, Induced;
    DeepRest(g, ops, tracked, x, v, p, q);
    UnprunedCases(g, ops, tracked, x, v, p, q);
  }

  lemma UnprunedCases(g: Graph, ops: seq<Trie>, tracked: seq<VarId>, x: VarId, v: Term, p: LeftProblem, q: LeftProblem)
    requires AtValue(g, ops, tracked, x, v, p, q) && q.trie.rows != {}
    requires q.opt.vars == [] ==> Indices(Kept(p.vs, x), |g.vertices|) && RemoveVar(g, x) == Without(Induced(g, Kept(p.vs, x)), x)
    requires RemoveVar(g, x).vertices == q.vs + if q.opt.vars != [] then [q.opt] else []
    ensures Remainder(RemoveVar(g, x), q.ops + (if q.opt.vars != [] then [q.trie] else []), tracked, q)
  {
    hide *;
    AtProblem(g, ops, tracked, x, v, p, q);
    AtRest(g, ops, tracked, x, v, p, q);
    ValidOptional(q);
    RemoveWellFormed(g, x);
    NothingMore<Vertex>(q.vs);
    NothingMore<Trie>(q.ops);
    if q.opt.vars == [] {
      WithoutOptional(g, ops, tracked, x, v, p, q);
    } else if q.vs == [] {
      AloneRemains(q, tracked, RemoveVar(g, x));
    } else {
      BothLeft(g, ops, tracked, x, v, p, q);
    }
  }

  lemma NothingMore<T>(s: seq<T>)
    ensures s + [] == s
    ensures forall t :: s == [] ==> s + [t] == [t]
  {
  }

  lemma RemoveWellFormed(g: Graph, x: VarId)
    requires WellFormed(g)
    ensures WellFormed(RemoveVar(g, x))
  {
    InducedWellFormed(g, Kept(g.vertices, x));
    EdgesWithoutArcs(Induced(g, Kept(g.vertices, x)).edges, x);
    var h := Induced(g, Kept(g.vertices, x));
    forall e | e in EdgesWithout(h.edges, x) ensures e.src < |h.vertices| && e.dst < |h.vertices| && e.src != e.dst {
      var d :| d in h.edges && e == if d.varId == x then d.(varId := NO_VAR) else d;
    }
  }
}
