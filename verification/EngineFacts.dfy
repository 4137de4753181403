/**
 What an evaluation step needs of the graph it is given, and why every smaller
 graph it is given next has it too.
 */
module EngineFacts {
  import opened Reachability
  import opened Graphs
  import opened Tries
  import opened Projection
  import opened JoinProof
  import opened ProductProof
  import opened LeafProof
  import opened DependencyGraph
  import opened Counting

  /** Only tracked variables repeat within an operand. */
  ghost predicate RepeatsTracked(vs: seq<Vertex>, tracked: seq<VarId>) {
    forall i, x :: 0 <= i < |vs| && vs[i].Operand? && x !in tracked ==> multiset(vs[i].vars)[x] <= 1
  }

  /** Graph, operands and tracked variables that the engine evaluates. */
  ghost predicate Evaluable(g: Graph, ops: seq<Trie>, tracked: seq<VarId>) {
    && Plain(g)
    && Aligned(g.vertices, ops) && Live(g.vertices, ops)
    && FiltersOk(g.vertices, tracked) && RepeatsTracked(g.vertices, tracked)
    && Distinct(tracked)
  }

  /** No tracked variable is left in the operands. */
  predicate AllTrackedVarsDone(vs: seq<Vertex>, tracked: seq<VarId>) {
    DataVars(vs) !! Elements(tracked)
  }

  /** The components whose solutions are counted: an empty graph has the one empty solution. */
  ghost function PartsOf(g: Graph): (parts: seq<seq<nat>>)
    ensures forall p :: p in parts ==> Indices(p, |g.vertices|)
  {
    if g.vertices == [] then [[]]
    else
      forall p | p in UnionParts(g) ensures Indices(p, |g.vertices|) { PartShape(g, p); }
      UnionParts(g)
  }

  /** How many solutions of the graph project to k. */
  ghost function GraphCount(g: Graph, ops: seq<Trie>, tracked: seq<VarId>, c: Key, k: Key): nat
    requires |g.vertices| == |ops| && |c| == |tracked|
  {
    BagCount(g.vertices, ops, PartsOf(g), tracked, c, k)
  }

  /** In a graph of mutually dependent vertices the solutions are those of the one join. */
  lemma CliqueCount(g: Graph, ops: seq<Trie>, tracked: seq<VarId>, c: Key, k: Key)
    requires |g.vertices| == |ops| && |c| == |tracked| && Clique(g)
    ensures GraphCount(g, ops, tracked, c, k) == |Matching(g.vertices, ops, tracked, c, k)|
  {
    var all := Range(|g.vertices|);
    PickAll(g.vertices);
    PickAll(ops);
    if g.vertices != [] {
      CliqueParts(g);
    } else {
      assert all == [];
    }
    assert PartsOf(g) == [all];
    BagSingle(g.vertices, ops, all, tracked, c, k);
  }

  lemma BagSingle(vs: seq<Vertex>, ops: seq<Trie>, p: seq<nat>, tracked: seq<VarId>, c: Key, k: Key)
    requires |vs| == |ops| && |c| == |tracked| && Indices(p, |vs|)
    ensures BagCount(vs, ops, [p], tracked, c, k) == |Matching(Pick(vs, p), Pick(ops, p), tracked, c, k)|
  {
    assert Init([p]) == [];
    assert BagCount(vs, ops, [], tracked, c, k) == 0;
  }

  ghost function Measure(g: Graph): nat {
    |g.vertices| + |DataVars(g.vertices)|
  }

  /* ---------- selections ---------- */

  lemma PickSmaller(g: Graph, keep: seq<nat>)
    requires Indices(keep, |g.vertices|) && |keep| < |g.vertices|
    ensures Measure(Induced(g, keep)) < Measure(g)
  {
    PickDataVars(g.vertices, keep, Range(|g.vertices|));
    PickAll(g.vertices);
    SubsetCard(DataVars(Pick(g.vertices, keep)), DataVars(g.vertices));
  }

  lemma EvaluableInduced(g: Graph, ops: seq<Trie>, tracked: seq<VarId>, keep: seq<nat>)
    requires Evaluable(g, ops, tracked) && Indices(keep, |g.vertices|) && Increasing(keep)
    ensures |g.vertices| == |ops|
    ensures Evaluable(Induced(g, keep), Pick(ops, keep), tracked)
    ensures DataVars(Pick(g.vertices, keep)) <= DataVars(g.vertices)
  {
    hide Plain, FiltersOk;
    InducedPlain(g, keep);
    PickAligned(g.vertices, ops, keep);
    PickLive(g.vertices, ops, keep);
    FiltersOkPick(g.vertices, tracked, keep);
    PickDataVars(g.vertices, keep, Range(|g.vertices|));
    PickAll(g.vertices);
  }

  /* ---------- join steps ---------- */

  lemma {:induction false} RemoveFromMultiset(vars: seq<VarId>, x: VarId, y: VarId)
    ensures multiset(RemoveFrom(vars, x))[y] <= multiset(vars)[y]
  {
    if vars != [] {
      RemoveFromMultiset(Init(vars), x, y);
      assert vars == Init(vars) + [Last(vars)];
    }
  }

  lemma RepeatsStep(vs: seq<Vertex>, ops: seq<Trie>, tracked: seq<VarId>, x: VarId, v: Term,
                    keep: seq<nat>, vs': seq<Vertex>, ops': seq<Trie>)
    requires RepeatsTracked(vs, tracked) && JoinStep(vs, ops, x, v, keep, vs', ops')
    ensures RepeatsTracked(vs', tracked)
  {
    hide JoinStep;
    forall j: nat, y | j < |vs'| && vs'[j].Operand? && y !in tracked ensures multiset(vs'[j].vars)[y] <= 1 {
      KeepLength(vs, ops, x, v, keep, vs', ops');
      JoinStepAt(vs, ops, x, v, keep, vs', ops', j);
      RemoveFromMultiset(vs[keep[j]].vars, x, y);
    }
  }

  lemma KeepLength(vs: seq<Vertex>, ops: seq<Trie>, x: VarId, v: Term,
                   keep: seq<nat>, vs': seq<Vertex>, ops': seq<Trie>)
    requires JoinStep(vs, ops, x, v, keep, vs', ops')
    ensures |keep| == |vs'| == |ops'| && |vs| == |ops|
  {
  }

  lemma FiltersStep(vs: seq<Vertex>, ops: seq<Trie>, tracked: seq<VarId>, x: VarId, v: Term,
                    keep: seq<nat>, vs': seq<Vertex>, ops': seq<Trie>)
    requires FiltersOk(vs, tracked) && JoinStep(vs, ops, x, v, keep, vs', ops')
    ensures FiltersOk(vs', tracked)
  {
    hide JoinStep;
    StepDataVars(vs, ops, x, v, keep, vs', ops');
    KeepLength(vs, ops, x, v, keep, vs', ops');
    forall j: nat | j < |vs'| ensures FilterOk(vs'[j], DataVars(vs'), tracked) {
      JoinStepAt(vs, ops, x, v, keep, vs', ops', j);
      assert FilterOk(vs[keep[j]], DataVars(vs), tracked);
      assert Elements(vs'[j].vars) == Elements(vs[keep[j]].vars) - {x};
    }
  }

  /** What the hash join yields for a key, and the graph without the variable, are one join step. */
  lemma JoinStepOf(g: Graph, ops: seq<Trie>, tracked: seq<VarId>, x: VarId, v: Term)
    requires Evaluable(g, ops, tracked) && |g.vertices| == |ops|
    requires PresentInAll(ops, VarPositions(g.vertices, x), v)
    ensures JoinStep(g.vertices, ops, x, v, Kept(g.vertices, x), RemoveVar(g, x).vertices,
                     JoinSlices(ops, VarPositions(g.vertices, x), v))
  {
    hide JoinStep, Kept, VerticesWithout, Pick, JoinSlices;
    MakeJoinStep(g.vertices, ops, x, v);
  }

  /** After resolving x to a join key the engine is given an evaluable, smaller graph. */
  lemma EvaluableJoin(g: Graph, ops: seq<Trie>, tracked: seq<VarId>, x: VarId, v: Term, g': Graph, ops': seq<Trie>)
    requires Evaluable(g, ops, tracked) && Clique(g) && x in DataVars(g.vertices)
    requires g' == RemoveVar(g, x)
    requires JoinStep(g.vertices, ops, x, v, Kept(g.vertices, x), g'.vertices, ops')
    ensures Evaluable(g', ops', tracked) && Clique(g')
    ensures DataVars(g'.vertices) == DataVars(g.vertices) - {x}
    ensures Measure(g') < Measure(g)
  {
    hide Plain, FiltersOk, Aligned, Live, Clique, RepeatsTracked, JoinStep, Distinct, Kept, RemoveVar, DataVars;
    ProperVar(g, x);
    RemoveVarPlain(g, x);
    RemoveVarClique(g, x);
    var keep := Kept(g.vertices, x);
    JoinStepAligned(g.vertices, ops, x, v, keep, g'.vertices, ops');
    FiltersStep(g.vertices, ops, tracked, x, v, keep, g'.vertices, ops');
    RepeatsStep(g.vertices, ops, tracked, x, v, keep, g'.vertices, ops');
    StepDataVars(g.vertices, ops, x, v, keep, g'.vertices, ops');
  }

  lemma ProperVar(g: Graph, x: VarId)
    requires Plain(g) && x in DataVars(g.vertices)
    ensures x != NO_VAR
  {
    var i :| 0 <= i < |g.vertices| && g.vertices[i].Operand? && x in g.vertices[i].vars;
  }

  lemma DistinctWhenUntracked(vs: seq<Vertex>, tracked: seq<VarId>, i: nat)
    requires RepeatsTracked(vs, tracked) && i < |vs| && vs[i].Operand?
    requires Elements(vs[i].vars) !! Elements(tracked)
    ensures Distinct(vs[i].vars)
  {
    var vars := vs[i].vars;
    forall a, b | 0 <= a < b < |vars| ensures vars[a] != vars[b] {
      assert vars[a] in Elements(vars);
      RepeatedTwice(vars, a, b);
    }
  }

  lemma RepeatedTwice(vars: seq<VarId>, a: nat, b: nat)
    requires a < b < |vars|
    ensures vars[a] == vars[b] ==> multiset(vars)[vars[a]] >= 2
  {
    assert vars == vars[..b] + [vars[b]] + vars[b + 1..];
    assert vars[..b][a] == vars[a];
  }

  /* ---------- independent parts ---------- */

  /** In a graph of mutually dependent vertices, vertices of different cartesian components share no variable. */
  lemma CartesianApart(g: Graph, p: seq<nat>, u: nat, w: nat, x: VarId)
    requires Plain(g) && Clique(g)
    requires p in Components(CartesianArcs(g, Elements(Range(|g.vertices|))), |g.vertices|)
    requires u in p && w < |g.vertices| && SharedVar(g, u, w, x)
    ensures w in p
  {
    var es := CartesianArcs(g, Elements(Range(|g.vertices|)));
    if u != w {
      assert Adj(g, u, w);
      var e := Edge(u, w, x, false);
      assert e in g.edges && e.varId != NO_VAR;
      assert (e.src, e.dst) in es;
      ReachArc(Undirected(es), u, w);
      ComponentClosed(es, |g.vertices|, p, u, w);
    }
  }
}
