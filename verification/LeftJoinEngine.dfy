/**
 The left join operator, for mutually dependent operands on which one optional
 operand depends, with every variable tracked.
 */
module LeftJoinEngine {
  import opened Reachability
  import opened Graphs
  import opened Tries
  import opened Semantics
  import opened Projection
  import opened JoinProof
  import opened ProductProof
  import opened DependencyGraph
  import opened EngineFacts
  import opened EngineSteps
  import opened CountElimination
  import opened Entries
  import opened Preparation
  import opened LeftJoinProof
  import opened LeftJoinSteps
  import opened Engine
  import opened Counting

  /* ---------- the sums of a left join ---------- */

  /** The solutions whose value at x is in done have been enumerated. */
  ghost predicate LeftSoFar(p: LeftProblem, tracked: seq<VarId>, c: Key, x: VarId, done: set<Term>, ys: seq<CountedEntry>) {
    && |p.vs| == |p.ops| && |c| == |tracked| && Proper(ys, |tracked|)
    && forall k: Key :: |k| == |tracked| ==> Total(ys, k) == |ResolvedIn(LeftMatching(p, tracked, c, k), x, done)|
  }

  lemma LeftStart(p: LeftProblem, tracked: seq<VarId>, c: Key, x: VarId)
    requires |p.vs| == |p.ops| && |c| == |tracked|
    ensures LeftSoFar(p, tracked, c, x, {}, [])
  {
    forall k: Key | |k| == |tracked| ensures ResolvedIn(LeftMatching(p, tracked, c, k), x, {}) == {} {
    }
  }

  lemma LeftNext(p: LeftProblem, tracked: seq<VarId>, c: Key, x: VarId, done: set<Term>, v: Term, q: LeftProblem,
                 ys: seq<CountedEntry>, zs: seq<CountedEntry>)
    requires LeftSoFar(p, tracked, c, x, done, ys) && v !in done && |c| == |tracked| && Distinct(tracked)
    requires p.Valid() && Live(p.vs, p.ops) && |p.vs| == |p.ops| && x in DataVars(p.vs) && LeftStep(p, x, v, q) && |q.vs| == |q.ops|
    requires LeftYielded(q, tracked, Assigned(tracked, c, x, v), zs)
    ensures LeftSoFar(p, tracked, c, x, done + {v}, ys + zs)
  {
    hide LeftMatching, ResolvedIn, Total, Live, LeftStep, DataVars, Aligned, Distinct, Assigned;
    ProperAppend(ys, zs, |tracked|);
    forall k: Key | |k| == |tracked|
      ensures Total(ys + zs, k) == |ResolvedIn(LeftMatching(p, tracked, c, k), x, done + {v})|
    {
      TotalAppend(ys, zs, k);
      LeftStepCard(p, tracked, c, k, x, v, q);
      ResolvedSplit(LeftMatching(p, tracked, c, k), x, done, v);
    }
  }

  lemma LeftDone(p: LeftProblem, tracked: seq<VarId>, c: Key, x: VarId, ys: seq<CountedEntry>)
    requires |p.vs| == |p.ops| && |c| == |tracked| && x in DataVars(p.vs)
    requires LeftSoFar(p, tracked, c, x, JoinKeys(p.ops, VarPositions(p.vs, x)), ys)
    ensures LeftYielded(p, tracked, c, ys)
  {
    hide LeftMatching, ResolvedIn, Total, DataVars, JoinKeys, VarPositions;
    forall k: Key | |k| == |tracked| ensures Total(ys, k) == |LeftMatching(p, tracked, c, k)| {
      LeftResolvedAll(p, tracked, c, k, x);
    }
  }

  /* ---------- evaluating what is left ---------- */

  /** A clique that has the solutions of the left join yields the left join. */
  lemma CliqueYields(sub: Graph, subOps: seq<Trie>, tracked: seq<VarId>, c: Key, q: LeftProblem, zs: seq<CountedEntry>)
    requires Yielded(sub, subOps, tracked, c, zs) && Clique(sub) && |sub.vertices| == |subOps| && |q.vs| == |q.ops|
    requires SameSolutions(sub, subOps, q)
    ensures LeftYielded(q, tracked, c, zs)
  {
    hide Clique, GraphCount, Total, LeftSolutions, NaiveJoin;
    forall k: Key | |k| == |tracked| ensures Total(zs, k) == |LeftMatching(q, tracked, c, k)| {
      CliqueCount(sub, subOps, tracked, c, k);
      SameMatching(sub, subOps, tracked, c, k, q);
    }
  }

  lemma SameMatching(sub: Graph, subOps: seq<Trie>, tracked: seq<VarId>, c: Key, k: Key, q: LeftProblem)
    requires |sub.vertices| == |subOps| && |q.vs| == |q.ops| && |c| == |tracked| && SameSolutions(sub, subOps, q)
    ensures Matching(sub.vertices, subOps, tracked, c, k) == LeftMatching(q, tracked, c, k)
  {
    hide NaiveJoin, LeftSolutions;
    assert forall m :: PassesAll(sub.vertices, AsBinding(tracked, c), m);
  }

  lemma LeftChosen(g: Graph, ops: seq<Trie>, tracked: seq<VarId>)
    requires LeftGraph(g) && LeftOperands(g, ops, tracked)
    ensures |g.vertices| > 1 && WellFormed(g) && |UnionParts(g)| == 1 && !SomeReady(g)
    ensures |Components(CartesianArcs(g, IscSet(g)), |g.vertices|)| == 1
    ensures !(forall v: nat :: v < |g.vertices| ==> InIsc(g, v))
    ensures InIsc(g, 0) && g.vertices[0].Operand? && g.vertices[0].vars != []
    ensures !AllTrackedVarsDone(g.vertices, tracked)
  {
    OptLength(g);
    LeftConnected(g);
    NoFilterReady(g);
    FirstOperand(g, ops, tracked);
    LeftSources(g);
    hide UnionParts, CartesianArcs, LeftGraph, LeftOperands, IscSet, Components, InIsc, DataVars;
    assert !InIsc(g, OptPos(g));
  }

  lemma FirstOperand(g: Graph, ops: seq<Trie>, tracked: seq<VarId>)
    requires LeftOperands(g, ops, tracked)
    ensures g.vertices[0].Operand? && g.vertices[0].vars != [] && !AllTrackedVarsDone(g.vertices, tracked)
  {
    var x := g.vertices[0].vars[0];
    assert x in DataVars(g.vertices);
  }

  lemma RemainderCases(sub: Graph, subOps: seq<Trie>, tracked: seq<VarId>, q: LeftProblem)
    requires Remainder(sub, subOps, tracked, q)
    ensures |sub.vertices| == |subOps| && |q.vs| == |q.ops| && WellFormed(sub)
    ensures (LeftGraph(sub) && LeftOperands(sub, subOps, tracked) && sub.vertices != [] && q == LeftOf(sub, subOps))
         || (Evaluable(sub, subOps, tracked) && Clique(sub) && DataVars(sub.vertices) <= Elements(tracked) && SameSolutions(sub, subOps, q))
  {
    hide DataVars, SameSolutions, Clique, Aligned, Live, FiltersOk, RepeatsTracked, LabelsExact, ProperVars, Distinct;
  }

  /** Graphs of this shape are left-joined. */
  lemma LeftDispatch(g: Graph, ops: seq<Trie>, tracked: seq<VarId>, op: Operation)
    requires LeftGraph(g) && LeftOperands(g, ops, tracked)
    requires op.EntryGenerator? <==> g.vertices == []
    requires op.Union? <==> |g.vertices| > 1 && |UnionParts(g)| > 1
    requires |g.vertices| > 1 && !op.Union? ==> (op.Filter? <==> SomeReady(g))
    requires op.Cartesian? ==> |g.vertices| > 1 && |Components(CartesianArcs(g, IscSet(g)), |g.vertices|)| > 1
    requires |g.vertices| > 1 && op.Join? ==> forall v: nat :: v < |g.vertices| ==> InIsc(g, v)
    requires op.FilterAlt? ==> forall v: nat :: InIsc(g, v) && g.vertices[v].Operand? ==> g.vertices[v].vars == []
    requires |g.vertices| > 1 ==> !op.Count? && !op.Resolve?
    ensures op.LeftJoin?
  {
    hide *;
    LeftChosen(g, ops, tracked);
  }

  lemma CliqueDispatch(g: Graph, op: Operation)
    requires Clique(g) && WellFormed(g)
    requires op.LeftJoin? ==> exists v: nat :: v < |g.vertices| && !InIsc(g, v)
    ensures !op.LeftJoin?
  {
    hide *;
    CliqueIsc(g);
  }

  /** Evaluates what is left for a join value. */
  method EvaluateRest(sub: Graph, subOps: seq<Trie>, tracked: seq<VarId>, entry: Entry, ghost q: LeftProblem)
    returns (zs: seq<CountedEntry>)
    requires Remainder(sub, subOps, tracked, q) && |entry.key| == |tracked|
    modifies entry
    ensures LeftYielded(q, tracked, Cleared(tracked, old(entry.key), DataVars(sub.vertices)), zs)
    ensures AgreesOutside(tracked, old(entry.key), entry.key, DataVars(sub.vertices))
    decreases Measure(sub), 3
  {
    hide *;
    RemainderCases(sub, subOps, tracked, q);
    ghost var c := Cleared(tracked, entry.key, DataVars(sub.vertices));
    if !AllTrackedVarsDone(sub.vertices, tracked) {
      var op := NextOp(sub, tracked);
      if op.LeftJoin? {
        if Clique(sub) {
          CliqueDispatch(sub, op);
        }
        OptionalLast(sub, subOps, tracked);
        zs := LeftJoinOperator(sub, subOps, tracked, entry);
        return;
      }
      if LeftGraph(sub) && LeftOperands(sub, subOps, tracked) {
        LeftDispatch(sub, subOps, tracked, op);
      }
    } else if LeftGraph(sub) && LeftOperands(sub, subOps, tracked) {
      LeftChosen(sub, subOps, tracked);
    }
    CliqueReady(sub, subOps, tracked, entry.key);
    zs := SubEntries(sub, subOps, tracked, ByOperand, entry, AllTrackedVarsDone(sub.vertices, tracked));
    CliqueYields(sub, subOps, tracked, c, q, zs);
  }

  lemma OptionalLast(g: Graph, ops: seq<Trie>, tracked: seq<VarId>)
    requires LeftGraph(g) && LeftOperands(g, ops, tracked)
    ensures |g.vertices| > 1 && |g.vertices| == |ops|
  {
    OptLength(g);
  }

  lemma CliqueReady(sub: Graph, subOps: seq<Trie>, tracked: seq<VarId>, key: Key)
    requires Evaluable(sub, subOps, tracked) && |sub.vertices| == |subOps| && |key| == |tracked|
    ensures Ready(sub, subOps, tracked, ByOperand, key)
  {
    hide Evaluable, DataVars;
  }

  /* ---------- the operator ---------- */

  /** The variables of all vertices, filters included. */
  function AllVars(vs: seq<Vertex>): set<VarId> {
    if vs == [] then {} else AllVars(Init(vs)) + Elements(Last(vs).vars)
  }

  /** Whether the mandatory vertices have at most one variable left. */
  method NonOptEvaluated(g: Graph, isc: seq<nat>) returns (b: bool)
    requires Indices(isc, |g.vertices|)
    ensures b <==> |AllVars(Pick(g.vertices, isc))| <= 1
  {
    var vars: set<VarId> := {};
    ghost var vs := Pick(g.vertices, isc);
    for i := 0 to |isc|
      invariant vars == AllVars(vs[..i]) && |vars| <= 1
    {
      assert Init(vs[..i + 1]) == vs[..i];
      vars := vars + Elements(g.vertices[isc[i]].vars);
      if |vars| > 1 {
        AllVarsPrefix(vs, i + 1);
        SubsetCard(vars, AllVars(vs));
        return false;
      }
    }
    assert vs[..|vs|] == vs;
    return true;
  }

  lemma {:induction false} AllVarsPrefix(vs: seq<Vertex>, i: nat)
    requires i <= |vs|
    ensures AllVars(vs[..i]) <= AllVars(vs)
    decreases |vs|
  {
    if i < |vs| {
      AllVarsPrefix(Init(vs), i);
      assert Init(vs)[..i] == vs[..i];
    } else {
      assert vs[..i] == vs;
    }
  }

  lemma {:induction false} AllVarsData(vs: seq<Vertex>)
    requires forall i :: 0 <= i < |vs| ==> vs[i].Operand?
    ensures AllVars(vs) == DataVars(vs)
  {
    if vs != [] {
      assert forall i :: 0 <= i < |vs| - 1 ==> Init(vs)[i] == vs[i];
      AllVarsData(Init(vs));
      DataVarsInit(vs);
    }
  }

  /** With one variable left, resolving it leaves no mandatory operand, so there is a solution. */
  lemma EvaluatedYields(p: LeftProblem, tracked: seq<VarId>, c: Key, x: VarId, v: Term, q: LeftProblem, zs: seq<CountedEntry>)
    requires |p.vs| == |p.ops| && x in DataVars(p.vs) && |DataVars(p.vs)| <= 1 && LeftStep(p, x, v, q)
    requires forall i :: 0 <= i < |p.vs| ==> p.vs[i].Operand?
    requires q.Valid() && Distinct(q.opt.vars) && LeftYielded(q, tracked, c, zs)
    ensures zs != []
  {
    NoneKept(p.vs, x);
    assert q.vs == [] && q.ops == [];
    SomeSolution(q);
    var m :| m in LeftSolutions(q);
    assert m in LeftMatching(q, tracked, c, KeyOf(tracked, c, m));
    hide LeftMatching, LeftSolutions;
    assert Total(zs, KeyOf(tracked, c, m)) == |LeftMatching(q, tracked, c, KeyOf(tracked, c, m))|;
    EmptyTotal(KeyOf(tracked, c, m));
  }

  lemma NoneKept(vs: seq<Vertex>, x: VarId)
    requires x in DataVars(vs) && |DataVars(vs)| <= 1 && forall i :: 0 <= i < |vs| ==> vs[i].Operand?
    ensures Kept(vs, x) == []
  {
    OnlyVar(DataVars(vs), x);
    forall i: nat | i < |vs| ensures RemoveFrom(vs[i].vars, x) == [] {
      OnlyOwnVar(vs, i, x);
    }
    KeptNone(vs, x);
  }

  lemma OnlyVar(d: set<VarId>, x: VarId)
    requires x in d && |d| <= 1
    ensures d == {x}
  {
    forall y | y in d ensures y == x {
      if y != x {
        SubsetCard({x, y}, d);
      }
    }
  }

  lemma OnlyOwnVar(vs: seq<Vertex>, i: nat, x: VarId)
    requires i < |vs| && vs[i].Operand? && DataVars(vs) == {x}
    ensures RemoveFrom(vs[i].vars, x) == []
  {
    SatKeys(vs, i);
    hide DataVars;
    var rest := RemoveFrom(vs[i].vars, x);
    assert forall y :: y !in rest;
    NoElement(rest);
  }

  lemma NoElement(s: seq<VarId>)
    requires forall y :: y !in s
    ensures s == []
  {
    if s != [] {
      FirstIn(s);
    }
  }

  lemma {:induction false} KeptNone(vs: seq<Vertex>, x: VarId)
    requires forall i: nat :: i < |vs| ==> vs[i].Operand? && RemoveFrom(vs[i].vars, x) == []
    ensures Kept(vs, x) == []
    decreases |vs|
  {
    hide RemoveFrom;
    if vs != [] {
      assert Last(vs) == vs[|vs| - 1];
      KeptNone(Init(vs), x);
    }
  }

  lemma FirstIn(keep: seq<nat>)
    requires keep != []
    ensures exists i: nat :: i in keep
  {
    assert keep[0] in keep;
  }

  lemma SomeSolution(q: LeftProblem)
    requires q.vs == [] && q.ops == [] && q.Valid() && Distinct(q.opt.vars)
    ensures LeftSolutions(q) != {}
  {
    if q.trie.rows == {} {
      LeftWithout(q);
      assert map[] in NaiveJoin([], []);
    } else {
      SomeMapping(q.opt.vars, q.trie);
      LeftAlone(q);
    }
  }

  /** Yields the entry as it is, if nothing was yielded and the mandatory part is resolved. */
  method YieldCurrent(zs: seq<CountedEntry>, evaluated: bool, entry: Entry) returns (ys: seq<CountedEntry>)
    modifies entry
    ensures entry.key == old(entry.key)
    ensures zs != [] || !evaluated ==> ys == zs
    ensures zs == [] && evaluated ==> ys == [CountedEntry(entry.key, 1)]
  {
    if zs == [] && evaluated {
      entry.SetValue(1);
      return [entry.Snapshot()];
    }
    return zs;
  }

  lemma AssignedCleared(tracked: seq<VarId>, c: Key, data: set<VarId>, d: set<VarId>, x: VarId, v: Term)
    requires |c| == |tracked| && Distinct(tracked) && c == Cleared(tracked, c, data) && d <= data - {x} && x in data
    ensures Cleared(tracked, Assigned(tracked, c, x, v), d) == Assigned(tracked, c, x, v)
    ensures AgreesOutside(tracked, c, Assigned(tracked, c, x, v), data)
  {
    var k := Assigned(tracked, c, x, v);
    assert forall i :: 0 <= i < |tracked| && tracked[i] in data ==> c[i] == Cleared(tracked, c, data)[i];
    assert x in tracked ==> tracked[IndexIn(tracked, x)] == x;
    if x in tracked {
      forall i: nat | i < |tracked| && i != IndexIn(tracked, x) ensures k[i] == c[i] && tracked[i] != x {
        if tracked[i] == x {
          DistinctIndex(tracked, i);
        }
      }
    }
  }

  lemma RemovedVars(g: Graph, keep: seq<nat>, x: VarId)
    requires Indices(keep, |g.vertices|)
    ensures DataVars(RemoveVar(Induced(g, keep), x).vertices) <= DataVars(g.vertices) - {x}
  {
    hide *;
    RemovedVertices(g, keep, x);
    PickedVars(g.vertices, keep);
    PickedVars(Pick(g.vertices, keep), Kept(Pick(g.vertices, keep), x));
    ErasedVars(Pick(Pick(g.vertices, keep), Kept(Pick(g.vertices, keep), x)), x);
  }

  lemma RemovedVertices(g: Graph, keep: seq<nat>, x: VarId)
    requires Indices(keep, |g.vertices|)
    ensures RemoveVar(Induced(g, keep), x).vertices
         == VerticesWithout(Pick(Pick(g.vertices, keep), Kept(Pick(g.vertices, keep), x)), x)
  {
    hide Kept, Pick, VerticesWithout, Indices;
  }

  lemma PickedVars(vs: seq<Vertex>, keep: seq<nat>)
    requires Indices(keep, |vs|)
    ensures DataVars(Pick(vs, keep)) <= DataVars(vs)
  {
    hide Pick;
    forall y | y in DataVars(Pick(vs, keep)) ensures y in DataVars(vs) {
      var i :| 0 <= i < |keep| && Pick(vs, keep)[i].Operand? && y in Pick(vs, keep)[i].vars;
      SatKeys(vs, keep[i]);
    }
  }

  lemma ErasedVars(vs: seq<Vertex>, x: VarId)
    ensures DataVars(VerticesWithout(vs, x)) <= DataVars(vs) - {x}
  {
    var r := VerticesWithout(vs, x);
    hide VerticesWithout, RemoveFrom;
    forall y | y in DataVars(r) ensures y in DataVars(vs) - {x} {
      var i :| 0 <= i < |r| && r[i].Operand? && y in r[i].vars;
      assert r[i] == VertexWithout(vs[i], x);
      SatKeys(vs, i);
    }
  }

  /** p is the left join of the graph, and x one of its mandatory variables. */
  ghost predicate LeftReady(g: Graph, ops: seq<Trie>, tracked: seq<VarId>, x: VarId, p: LeftProblem) {
    && LeftGraph(g) && LeftOperands(g, ops, tracked) && |g.vertices| == |ops|
    && g.vertices == p.vs + [p.opt] && ops == p.ops + [p.trie] && |p.vs| == |p.ops| && p.vs != []
    && x != NO_VAR && x in DataVars(p.vs)
  }

  /** The left join has the solutions of the mandatory part, one value of a mandatory variable after the other. */
  method LeftJoinOperator(g: Graph, ops: seq<Trie>, tracked: seq<VarId>, entry: Entry) returns (ys: seq<CountedEntry>)
    requires LeftGraph(g) && LeftOperands(g, ops, tracked) && |entry.key| == |tracked|
    requires |g.vertices| > 1 && |g.vertices| == |ops|
    modifies entry
    ensures LeftYielded(LeftOf(g, ops), tracked, Cleared(tracked, old(entry.key), DataVars(g.vertices)), ys)
    ensures AgreesOutside(tracked, old(entry.key), entry.key, DataVars(g.vertices))
    decreases Measure(g), 2
  {
    hide *;
    ghost var p := LeftOf(g, ops);
    LeftFacts(g, ops, tracked, p);
    ClearUsedEntryPoss(entry, tracked, DataVars(g.vertices));
    ClearedAgrees(tracked, old(entry.key), DataVars(g.vertices));
    var isc := IscOperands(g);
    IscIs(g, isc, p.vs, p.opt);
    IscPicks(isc, p, g, ops);
    var evalVar := GetMinCardLabelOf(g, isc);
    ProperOperand(g, ops, tracked, p, evalVar);
    MakeReady(g, ops, tracked, evalVar, p);
    var evaluated := NonOptEvaluated(g, isc);
    var poss := VarPositions(g.vertices, evalVar);
    FrontPositions(g, ops, p, evalVar);
    var keys := JoinKeys(Pick(ops, isc), Pick(poss, isc));
    ys := LeftValues(g, ops, tracked, entry, evalVar, keys, evaluated, p);
  }

  /** The values of the joined variable, one after the other. */
  method LeftValues(g: Graph, ops: seq<Trie>, tracked: seq<VarId>, entry: Entry, evalVar: VarId, keys: set<Term>,
                    evaluated: bool, ghost p: LeftProblem)
    returns (ys: seq<CountedEntry>)
    requires LeftReady(g, ops, tracked, evalVar, p) && |p.vs| == |p.ops|
    requires keys == JoinKeys(p.ops, VarPositions(p.vs, evalVar))
    requires evaluated <==> |AllVars(p.vs)| <= 1
    requires |entry.key| == |tracked| && entry.key == Cleared(tracked, entry.key, DataVars(g.vertices))
    modifies entry
    ensures entry.key == old(entry.key) && LeftYielded(p, tracked, old(entry.key), ys)
    decreases Measure(g), 1, 1
  {
    hide *;
    ghost var c := entry.key;
    var rest := keys;
    ys := [];
    ReadyVar(g, ops, tracked, evalVar, p);
    LeftStart(p, tracked, c, evalVar);
    DoneNone(keys);
    while rest != {}
      invariant rest <= keys && entry.key == c
      invariant LeftSoFar(p, tracked, c, evalVar, keys - rest, ys)
      decreases rest
    {
      var v :| v in rest;
      ghost var q := Resolved(p, evalVar, v);
      MakeAtValue(g, ops, tracked, evalVar, v, p, q);
      var zs := LeftValue(g, ops, tracked, entry, evalVar, v, evaluated, p, q);
      ReadyNext(g, ops, tracked, c, evalVar, keys - rest, v, p, q, ys, zs);
      DoneStep(keys, rest, v);
      ys := ys + zs;
      rest := rest - {v};
    }
    DoneNothing(keys, rest);
    ReadyDone(g, ops, tracked, c, evalVar, p, ys);
  }

  lemma DoneNone(keys: set<Term>)
    ensures keys - keys == {}
  {
  }

  lemma DoneNothing(keys: set<Term>, rest: set<Term>)
    requires rest == {}
    ensures keys - rest == keys
  {
  }

  lemma IscPicks(isc: seq<nat>, p: LeftProblem, g: Graph, ops: seq<Trie>)
    requires isc == Range(|p.vs|) && Indices(isc, |g.vertices|) && Pick(g.vertices, isc) == p.vs
    requires ops == p.ops + [p.trie] && |p.vs| == |p.ops|
    ensures Indices(isc, |ops|) && Pick(ops, isc) == p.ops
  {
    hide *;
    RangePick(p.ops, p.trie);
  }

  lemma MakeReady(g: Graph, ops: seq<Trie>, tracked: seq<VarId>, x: VarId, p: LeftProblem)
    requires LeftGraph(g) && LeftOperands(g, ops, tracked) && |g.vertices| == |ops|
    requires g.vertices == p.vs + [p.opt] && ops == p.ops + [p.trie] && |p.vs| == |p.ops| && p.vs != []
    requires x != NO_VAR && x in DataVars(p.vs)
    ensures LeftReady(g, ops, tracked, x, p)
  {
    hide LeftGraph, LeftOperands, DataVars;
  }

  lemma ReadyNext(g: Graph, ops: seq<Trie>, tracked: seq<VarId>, c: Key, x: VarId, done: set<Term>, v: Term,
                  p: LeftProblem, q: LeftProblem, ys: seq<CountedEntry>, zs: seq<CountedEntry>)
    requires AtValue(g, ops, tracked, x, v, p, q) && LeftReady(g, ops, tracked, x, p) && v !in done
    requires |c| == |tracked| && LeftSoFar(p, tracked, c, x, done, ys) && LeftYielded(q, tracked, Assigned(tracked, c, x, v), zs)
    ensures LeftSoFar(p, tracked, c, x, done + {v}, ys + zs)
  {
    hide *;
    AtProblem(g, ops, tracked, x, v, p, q);
    AtRest(g, ops, tracked, x, v, p, q);
    AtLengths(g, ops, tracked, x, v, p, q);
    ReadyVar(g, ops, tracked, x, p);
    LeftNext(p, tracked, c, x, done, v, q, ys, zs);
  }

  lemma ReadyVar(g: Graph, ops: seq<Trie>, tracked: seq<VarId>, x: VarId, p: LeftProblem)
    requires LeftReady(g, ops, tracked, x, p)
    ensures x in DataVars(p.vs) && x != NO_VAR && |p.vs| == |p.ops|
  {
  }

  lemma ReadyDone(g: Graph, ops: seq<Trie>, tracked: seq<VarId>, c: Key, x: VarId, p: LeftProblem, ys: seq<CountedEntry>)
    requires LeftReady(g, ops, tracked, x, p) && |p.vs| == |p.ops| && |c| == |tracked|
    requires LeftSoFar(p, tracked, c, x, JoinKeys(p.ops, VarPositions(p.vs, x)), ys)
    ensures LeftYielded(p, tracked, c, ys)
  {
    hide *;
    ReadyVar(g, ops, tracked, x, p);
    LeftDone(p, tracked, c, x, ys);
  }

  /** One variable of the mandatory operands. */
  method GetMinCardLabelOf(g: Graph, isc: seq<nat>) returns (x: VarId)
    requires Indices(isc, |g.vertices|) && DataVars(Pick(g.vertices, isc)) != {}
    ensures x in DataVars(Pick(g.vertices, isc))
  {
    x :| x in DataVars(Pick(g.vertices, isc));
  }

  lemma LeftFacts(g: Graph, ops: seq<Trie>, tracked: seq<VarId>, p: LeftProblem)
    requires LeftGraph(g) && LeftOperands(g, ops, tracked) && |g.vertices| > 1 && |g.vertices| == |ops|
    requires p == LeftOf(g, ops)
    ensures WellFormed(g) && Distinct(tracked) && DataVars(g.vertices) <= Elements(tracked)
    ensures g.vertices == p.vs + [p.opt] && ops == p.ops + [p.trie] && |p.vs| == |p.ops| && p.vs != []
    ensures DataVars(p.vs) <= DataVars(g.vertices) && DataVars(p.vs) != {}
    ensures forall i :: 0 <= i < |p.vs| ==> p.vs[i].Operand?
  {
    OperandsOf(g, ops, tracked);
    assert p.vs[0].vars[0] in DataVars(p.vs);
  }

  lemma IscIs(g: Graph, isc: seq<nat>, vs: seq<Vertex>, opt: Vertex)
    requires LeftGraph(g) && g.vertices == vs + [opt] && Increasing(isc) && forall v: nat :: v in isc <==> InIsc(g, v)
    ensures isc == Range(|vs|) && Indices(isc, |g.vertices|) && Pick(g.vertices, isc) == vs
  {
    LeftSources(g);
    IncreasingUnique(isc, Range(|vs|));
    hide LeftGraph;
    RangePick(vs, opt);
  }

  lemma ProperOperand(g: Graph, ops: seq<Trie>, tracked: seq<VarId>, p: LeftProblem, x: VarId)
    requires LeftGraph(g) && g.vertices == p.vs + [p.opt] && x in DataVars(p.vs)
    ensures x != NO_VAR
  {
    var i :| 0 <= i < |p.vs| && p.vs[i].Operand? && x in p.vs[i].vars;
    assert g.vertices[i] == p.vs[i];
  }

  lemma FrontPositions(g: Graph, ops: seq<Trie>, p: LeftProblem, x: VarId)
    requires g.vertices == p.vs + [p.opt]
    ensures Indices(Range(|p.vs|), |VarPositions(g.vertices, x)|)
    ensures Pick(VarPositions(g.vertices, x), Range(|p.vs|)) == VarPositions(p.vs, x)
  {
  }

  lemma MakeAtValue(g: Graph, ops: seq<Trie>, tracked: seq<VarId>, x: VarId, v: Term, p: LeftProblem, q: LeftProblem)
    requires LeftReady(g, ops, tracked, x, p) && |p.vs| == |p.ops| && v in JoinKeys(p.ops, VarPositions(p.vs, x))
    requires q == Resolved(p, x, v)
    ensures AtValue(g, ops, tracked, x, v, p, q)
  {
    hide LeftGraph, LeftOperands, JoinKeys, Resolved;
  }

  /** The entries for one value of the joined variable; afterwards the entry is as before. */
  method LeftValue(g: Graph, ops: seq<Trie>, tracked: seq<VarId>, entry: Entry, evalVar: VarId, v: Term, evaluated: bool,
                   ghost p: LeftProblem, ghost q: LeftProblem)
    returns (zs: seq<CountedEntry>)
    requires AtValue(g, ops, tracked, evalVar, v, p, q) && evalVar in DataVars(p.vs)
    requires evaluated <==> |AllVars(p.vs)| <= 1
    requires |entry.key| == |tracked| && entry.key == Cleared(tracked, entry.key, DataVars(g.vertices))
    modifies entry
    ensures entry.key == old(entry.key)
    ensures LeftYielded(q, tracked, Assigned(tracked, old(entry.key), evalVar, v), zs)
    decreases Measure(g), 1, 0
  {
    hide *;
    ghost var c := entry.key;
    AtLengths(g, ops, tracked, evalVar, v, p, q);
    AtProblem(g, ops, tracked, evalVar, v, p, q);
    AtRest(g, ops, tracked, evalVar, v, p, q);
    if evalVar in tracked {
      entry.SetPart(IndexIn(tracked, evalVar), Some(v));
    }
    WrittenIs(tracked, c, evalVar, v);
    assert entry.key == Assigned(tracked, c, evalVar, v);
    var slices := AllSlices(ops, VarPositions(g.vertices, evalVar), v);
    var pruned, prunedOps, keep := PruneEmpty(g, slices);
    var sub := RemoveVarId(pruned, evalVar);
    RestRemains(g, ops, tracked, evalVar, v, p, q, keep, sub, prunedOps);
    RemovedVars(g, keep, evalVar);
    SmallerRest(g, keep, evalVar);
    AssignedCleared(tracked, c, DataVars(g.vertices), DataVars(sub.vertices), evalVar, v);
    var ys := EvaluateRest(sub, prunedOps, tracked, entry, q);
    zs := YieldCurrent(ys, evaluated, entry);
    if evaluated {
      AllVarsData(p.vs);
      EvaluatedYields(p, tracked, Assigned(tracked, c, evalVar, v), evalVar, v, q, ys);
    }
    AgreesThrough(tracked, c, Assigned(tracked, c, evalVar, v), entry.key, DataVars(g.vertices), DataVars(sub.vertices));
    ClearedBack(tracked, c, DataVars(g.vertices), DataVars(g.vertices));
    ClearUsedEntryPoss(entry, tracked, DataVars(g.vertices));
    entry.SetValue(1);
  }

  lemma AtLengths(g: Graph, ops: seq<Trie>, tracked: seq<VarId>, x: VarId, v: Term, p: LeftProblem, q: LeftProblem)
    requires AtValue(g, ops, tracked, x, v, p, q)
    ensures |g.vertices| == |ops| && |p.vs| == |p.ops| && LeftGraph(g) && DataVars(p.vs) <= DataVars(g.vertices)
  {
    DataVarsConcat(p.vs, [p.opt]);
  }

  lemma WrittenIs(tracked: seq<VarId>, c: Key, x: VarId, v: Term)
    requires |c| == |tracked|
    ensures Assigned(tracked, c, x, v) == if x in tracked then c[IndexIn(tracked, x) := Some(v)] else c
  {
  }

  lemma SmallerRest(g: Graph, keep: seq<nat>, x: VarId)
    requires Indices(keep, |g.vertices|) && Increasing(keep) && x in DataVars(g.vertices)
    requires DataVars(RemoveVar(Induced(g, keep), x).vertices) <= DataVars(g.vertices) - {x}
    ensures Measure(RemoveVar(Induced(g, keep), x)) < Measure(g)
  {
    IncreasingShort(keep, |g.vertices|);
    SubsetCard(DataVars(RemoveVar(Induced(g, keep), x).vertices), DataVars(g.vertices) - {x});
  }

  lemma RestRemains(g: Graph, ops: seq<Trie>, tracked: seq<VarId>, x: VarId, v: Term, p: LeftProblem, q: LeftProblem,
                    keep: seq<nat>, sub: Graph, subOps: seq<Trie>)
    requires AtValue(g, ops, tracked, x, v, p, q) && |g.vertices| == |ops|
    requires Indices(keep, |g.vertices|) && Increasing(keep)
    requires forall u: nat :: u in keep <==> Survives(g, EmptyOperands(AllSlices(ops, VarPositions(g.vertices, x), v)), u)
    requires sub == RemoveVar(Induced(g, keep), x)
    requires subOps == DeepOperands(Pick(g.vertices, keep), Pick(AllSlices(ops, VarPositions(g.vertices, x), v), keep))
    ensures Remainder(sub, subOps, tracked, q)
  {
    MakeLeft(g, ops, x, v, keep, sub, subOps);
    hide *;
    var slices := AllSlices(ops, VarPositions(g.vertices, x), v);
    AtLengths(g, ops, tracked, x, v, p, q);
    AtProblem(g, ops, tracked, x, v, p, q);
    SliceRows(g, ops, tracked, x, v, p, q);
    PrunedAtValue(g, slices, keep, q.trie);
    if q.trie.rows == {} {
      PrunedRest(g, ops, tracked, x, v, p, q, sub, subOps);
    } else {
      UnprunedRest(g, ops, tracked, x, v, p, q, sub, subOps);
    }
  }

  lemma PrunedAtValue(g: Graph, slices: seq<Trie>, keep: seq<nat>, last: Trie)
    requires LeftGraph(g) && |g.vertices| == |slices| && Indices(keep, |g.vertices|) && Increasing(keep)
    requires SlicesOf(slices, last)
    requires forall u: nat :: u in keep <==> Survives(g, EmptyOperands(slices), u)
    ensures keep == if last.rows == {} then Range(|g.vertices| - 1) else Range(|g.vertices|)
  {
    hide LeftGraph, Survives, EmptyOperands;
    PrunedLeft(g, slices, keep);
  }

  lemma MakeLeft(g: Graph, ops: seq<Trie>, x: VarId, v: Term, keep: seq<nat>, sub: Graph, subOps: seq<Trie>)
    requires |g.vertices| == |ops| && Indices(keep, |g.vertices|)
    requires sub == RemoveVar(Induced(g, keep), x)
    requires subOps == DeepOperands(Pick(g.vertices, keep), Pick(AllSlices(ops, VarPositions(g.vertices, x), v), keep))
    ensures Left(g, ops, x, v, keep, sub, subOps)
  {
  }

  lemma SliceRows(g: Graph, ops: seq<Trie>, tracked: seq<VarId>, x: VarId, v: Term, p: LeftProblem, q: LeftProblem)
    requires AtValue(g, ops, tracked, x, v, p, q) && |g.vertices| == |ops|
    ensures SlicesOf(AllSlices(ops, VarPositions(g.vertices, x), v), q.trie)
  {
    hide *;
    AtProblem(g, ops, tracked, x, v, p, q);
    AtParts(g, ops, tracked, x, v, p, q);
    LeftSlices(p, x, v);
    RowsLeft(p.vs, p.ops, x, v);
    SnocSlices(AllSlices(p.ops, VarPositions(p.vs, x), v), q.trie);
  }

  /** The slice of the optional operand comes last, and no other slice is empty. */
  predicate SlicesOf(slices: seq<Trie>, last: Trie) {
    slices != [] && Last(slices) == last && forall i :: 0 <= i < |slices| - 1 ==> slices[i].rows != {}
  }

  lemma SnocSlices(s: seq<Trie>, t: Trie)
    requires forall i :: 0 <= i < |s| ==> s[i].rows != {}
    ensures SlicesOf(s + [t], t)
  {
  }

  lemma AtParts(g: Graph, ops: seq<Trie>, tracked: seq<VarId>, x: VarId, v: Term, p: LeftProblem, q: LeftProblem)
    requires AtValue(g, ops, tracked, x, v, p, q)
    ensures g.vertices == p.vs + [p.opt] && ops == p.ops + [p.trie] && |p.vs| == |p.ops|
    ensures v in JoinKeys(p.ops, VarPositions(p.vs, x)) && q.trie == SliceOrKeep(p.trie, OwnPositions(p.opt, x), v)
  {
    hide LeftGraph, LeftOperands, JoinKeys, VarPositions, Kept, JoinSlices, VerticesWithout;
  }
}
