/**
 From a query graph and the store to the operands of an evaluation: slicing,
 pruning what depends on empty operands, and dropping patterns without variables.
 */
module Preparation {
  import opened Reachability
  import opened Graphs
  import opened Tries
  import opened Semantics
  import opened Projection
  import opened ProductProof
  import opened DependencyGraph
  import opened CartesianProof
  import opened Selections

  /* ---------- slicing the store ---------- */

  /** A row of the store has the constants of the pattern. */
  predicate Agrees(r: Row, slice: SliceKey) {
    |r| == |slice| && forall i :: 0 <= i < |slice| && slice[i].Some? ==> r[i] == slice[i].value
  }

  function Free(slice: SliceKey): nat {
    if slice == [] then 0 else Free(Init(slice)) + (if Last(slice).None? then 1 else 0)
  }

  /** The parts of a row where the pattern has variables. */
  function FreeParts(r: Row, slice: SliceKey): (f: Row)
    requires |r| == |slice|
    ensures |f| == Free(slice)
  {
    if slice == [] then [] else FreeParts(Init(r), Init(slice)) + (if Last(slice).None? then [Last(r)] else [])
  }

  /** The rows of the store that match the pattern. */
  function SliceOf(store: set<Row>, slice: SliceKey): Trie {
    Trie(Free(slice), set r | r in store && Agrees(r, slice) :: FreeParts(r, slice))
  }

  /** The pattern with its variables replaced. */
  function Instance(slice: SliceKey, vars: seq<VarId>, m: Binding): (r: Row)
    requires |vars| == Free(slice) && forall x :: x in vars ==> x in m
    ensures |r| == |slice|
  {
    if slice == [] then []
    else match Last(slice)
      case Some(t) => Instance(Init(slice), vars, m) + [t]
      case None => Instance(Init(slice), Init(vars), m) + [m[Last(vars)]]
  }

  lemma {:induction false} InstanceOf(slice: SliceKey, vars: seq<VarId>, m: Binding, r: Row)
    requires |vars| == Free(slice) && forall x :: x in vars ==> x in m
    requires |r| == |slice|
    ensures Agrees(r, slice) && FreeParts(r, slice) == RowOf(vars, m) <==> r == Instance(slice, vars, m)
  {
    if slice != [] {
      var s, q := Init(slice), Init(r);
      assert r == q + [Last(r)];
      assert Agrees(r, slice) <==> Agrees(q, s) && (Last(slice).Some? ==> Last(r) == Last(slice).value) by {
        AgreesLast(r, slice);
      }
      match Last(slice) {
        case Some(t) =>
          InstanceOf(s, vars, m, q);
          SnocCancel(q, Instance(s, vars, m), Last(r), t);
          assert FreeParts(r, slice) == FreeParts(q, s);
        case None =>
          InstanceOf(s, Init(vars), m, q);
          SnocCancel(q, Instance(s, Init(vars), m), Last(r), m[Last(vars)]);
          SnocCancel(FreeParts(q, s), RowOf(Init(vars), m), Last(r), m[Last(vars)]);
      }
    }
  }

  lemma AgreesLast(r: Row, slice: SliceKey)
    requires |r| == |slice| && slice != []
    ensures Agrees(r, slice) <==> Agrees(Init(r), Init(slice)) && (Last(slice).Some? ==> Last(r) == Last(slice).value)
  {
    if Agrees(Init(r), Init(slice)) && (Last(slice).Some? ==> Last(r) == Last(slice).value) {
      forall i | 0 <= i < |slice| && slice[i].Some? ensures r[i] == slice[i].value {
        if i < |slice| - 1 {
          assert Init(slice)[i] == slice[i] && Init(r)[i] == r[i];
        }
      }
    }
    if Agrees(r, slice) {
      assert forall i :: 0 <= i < |slice| - 1 ==> Init(slice)[i] == slice[i] && Init(r)[i] == r[i];
    }
  }

  /** The solutions of a triple pattern: the mappings of its variables under which the store holds it. */
  lemma PatternSolutions(store: set<Row>, slice: SliceKey, vars: seq<VarId>, m: Binding)
    requires |vars| == Free(slice)
    ensures m in OperandBindings(vars, SliceOf(store, slice)) <==>
            m.Keys == Elements(vars) && Instance(slice, vars, m) in store
  {
    OperandBindingsIff(vars, SliceOf(store, slice), m);
    if m.Keys == Elements(vars) {
      if RowOf(vars, m) in SliceOf(store, slice).rows {
        var r :| r in store && Agrees(r, slice) && FreeParts(r, slice) == RowOf(vars, m);
        InstanceOf(slice, vars, m, r);
      }
      InstanceOf(slice, vars, m, Instance(slice, vars, m));
    }
  }

  /** Every pattern has as many variables as its slice has open parts. */
  ghost predicate PatternsFit(vs: seq<Vertex>) {
    forall i :: 0 <= i < |vs| && vs[i].Operand? ==> |vs[i].vars| == Free(vs[i].slice)
  }

  /** The operands of a query: slices of the store, and the true scalar for expressions. */
  method GenerateQueryOperands(g: Graph, store: set<Row>) returns (ops: seq<Trie>)
    requires PatternsFit(g.vertices)
    ensures Aligned(g.vertices, ops)
    ensures forall i :: 0 <= i < |g.vertices| ==>
              ops[i] == if g.vertices[i].FilterVertex? then TRUE_SCALAR else SliceOf(store, g.vertices[i].slice)
  {
    ops := [];
    for i := 0 to |g.vertices|
      invariant |ops| == i
      invariant forall j :: 0 <= j < i ==>
                  ops[j] == if g.vertices[j].FilterVertex? then TRUE_SCALAR else SliceOf(store, g.vertices[j].slice)
    {
      ops := ops + [match g.vertices[i]
                    case FilterVertex(_, _) => TRUE_SCALAR
                    case Operand(_, slice) => SliceOf(store, slice)];
    }
  }

  /* ---------- pruning ---------- */

  lemma MandatoryAll(g: Graph)
    requires Mandatory(g)
    ensures MandatoryArcs(g) == ArcsOf(g.edges)
  {
  }

  /** Mandatory edges lead from every vertex of a union component to every other. */
  ghost predicate MandatoryStrong(g: Graph) {
    forall u: nat, v: nat :: u < |g.vertices| && v < |g.vertices| && Connected(ArcsOf(g.edges), u, v) ==> Reach(MandatoryArcs(g), u, v)
  }

  /** On such a graph a vertex survives exactly when no empty operand lies in its union component. */
  lemma SurvivesExactly(g: Graph, empties: seq<nat>, v: nat)
    requires MandatoryStrong(g) && forall e :: e in empties ==> e < |g.vertices|
    ensures Survives(g, empties, v) <==>
            v < |g.vertices| && forall e :: e in empties ==> !Connected(ArcsOf(g.edges), e, v)
  {
    var es := ArcsOf(g.edges);
    assert MandatoryArcs(g) <= es && es <= Undirected(es);
    if v < |g.vertices| {
      forall e | e in empties ensures Reach(MandatoryArcs(g), e, v) <==> Connected(es, e, v) {
        if Reach(MandatoryArcs(g), e, v) {
          ReachMonotone(MandatoryArcs(g), Undirected(es), e, v);
        }
      }
    }
  }

  lemma PlainStrong(g: Graph)
    requires Plain(g)
    ensures MandatoryStrong(g)
  {
    var es := ArcsOf(g.edges);
    MandatoryAll(g);
    forall u: nat, v: nat | u < |g.vertices| && v < |g.vertices| && Connected(es, u, v) ensures Reach(es, u, v) {
      PlainConnected(g, u, v);
      if u == v {
        ReachRefl(es, v);
      } else {
        ReachArc(es, u, v);
      }
    }
  }

  /** The positions of the empty operands. */
  function EmptyOperands(ops: seq<Trie>): (empties: seq<nat>)
    ensures forall i: nat :: i in empties <==> i < |ops| && ops[i].rows == {}
  {
    if ops == [] then []
    else EmptyOperands(Init(ops)) + (if Last(ops).rows == {} then [|ops| - 1] else [])
  }

  /** The type of a position. */
  newtype uint8 = x: int | 0 <= x < 0x100

  /** The loop's index is a position, so that it can pass fewer than 256 operands only. */
  method FindEmptyOperands(ops: seq<Trie>) returns (emptyOps: seq<nat>)
    requires |ops| < 0x100
    ensures emptyOps == EmptyOperands(ops)
  {
    emptyOps := [];
    var i: uint8 := 0;
    while i as int < |ops|
      invariant i as int <= |ops| && emptyOps == EmptyOperands(ops[..i])
      decreases |ops| - i as int
    {
      assert Init(ops[..i as int + 1]) == ops[..i];
      if ops[i].rows == {} {
        emptyOps := emptyOps + [i as int];
      }
      i := i + 1;
    }
    assert ops[..|ops|] == ops;
  }

  /** The index of that loop after so many rounds: it wraps around. */
  function IndexAfter(rounds: nat): nat {
    if rounds == 0 then 0 else (IndexAfter(rounds - 1) + 1) % 0x100
  }

  lemma {:induction false} IndexWraps(rounds: nat)
    ensures IndexAfter(rounds) < 0x100 && (rounds < 0x100 ==> IndexAfter(rounds) == rounds)
  {
    if rounds > 0 {
      IndexWraps(rounds - 1);
    }
  }

  /** The loop over so many operands ends exactly when there are fewer than 256. */
  lemma ScanEnds(size: nat)
    ensures (exists rounds: nat :: !(IndexAfter(rounds) < size)) <==> size < 0x100
  {
    if size < 0x100 {
      IndexWraps(size);
    }
    if rounds: nat :| !(IndexAfter(rounds) < size) {
      IndexWraps(rounds);
    }
  }

  lemma AllSurvive(g: Graph, v: nat)
    ensures Survives(g, [], v) <==> v < |g.vertices|
  {
  }

  /** Removes the empty operands and their dependents. */
  method PruneEmptyOperands(g: Graph, ops: seq<Trie>) returns (sub: Graph, newOps: seq<Trie>, ghost keep: seq<nat>)
    requires WellFormed(g) && |g.vertices| == |ops| && |ops| < 0x100
    ensures Indices(keep, |g.vertices|) && Increasing(keep)
    ensures forall v: nat :: v in keep <==> Survives(g, EmptyOperands(ops), v)
    ensures sub == Induced(g, keep) && newOps == Pick(ops, keep)
  {
    hide Survives, WellFormed, Induced, Pick;
    var emptyOps := FindEmptyOperands(ops);
    if emptyOps == [] {
      keep := Range(|ops|);
      WholeInduced(g);
      PickAll(ops);
      forall v: nat ensures Survives(g, [], v) <==> v < |g.vertices| { AllSurvive(g, v); }
      return g, ops, keep;
    }
    var originalPositions;
    sub, originalPositions := PruneGraph(g, emptyOps);
    keep := originalPositions;
    newOps := Pick(ops, originalPositions);
  }

  lemma WholeInduced(g: Graph)
    requires WellFormed(g)
    ensures Induced(g, Range(|g.vertices|)) == g
  {
    var keep := Range(|g.vertices|);
    PickAll(g.vertices);
    forall e ensures e in Induced(g, keep).edges <==> e in g.edges {
      if e in Induced(g, keep).edges {
        InducedEdgeBack(g, keep, e);
      }
      if e in g.edges {
        InducedEdge(g, keep, e.src, e.dst, e.varId, e.opt);
      }
    }
  }

  /** Removes the operands without variables. */
  method RemoveRankZeroOperands(g: Graph, ops: seq<Trie>) returns (sub: Graph, newOps: seq<Trie>, ghost keep: seq<nat>)
    requires WellFormed(g) && |g.vertices| == |ops|
    ensures Indices(keep, |g.vertices|) && Increasing(keep)
    ensures forall v: nat :: v in keep <==> v < |ops| && !(g.vertices[v].Operand? && ops[v].depth == 0)
    ensures sub == Induced(g, keep) && newOps == Pick(ops, keep)
  {
    var rankZero: seq<nat> := [];
    for i := 0 to |ops|
      invariant forall v: nat :: v in rankZero <==> v < i && g.vertices[v].Operand? && ops[v].depth == 0
    {
      if ops[i].depth == 0 && !g.vertices[i].FilterVertex? {
        rankZero := rankZero + [i];
      }
    }
    if rankZero == [] {
      keep := Range(|ops|);
      WholeInduced(g);
      PickAll(ops);
      forall v: nat | v < |ops| ensures !(g.vertices[v].Operand? && ops[v].depth == 0) {
        assert v !in rankZero;
      }
      return g, ops, keep;
    }
    var originalPositions;
    sub, originalPositions := RemoveVertices(g, rankZero);
    keep := originalPositions;
    newOps := Pick(ops, originalPositions);
  }

  /* ---------- both together ---------- */

  lemma PickIncreasing(a: seq<nat>, b: seq<nat>)
    requires Increasing(a) && Increasing(b) && Indices(b, |a|)
    ensures Increasing(Pick(a, b))
  {
  }

  lemma InducedInduced(g: Graph, a: seq<nat>, b: seq<nat>)
    requires Indices(a, |g.vertices|) && Increasing(a) && Indices(b, |a|) && Increasing(b)
    ensures Indices(Pick(a, b), |g.vertices|) && Increasing(Pick(a, b))
    ensures Induced(Induced(g, a), b) == Induced(g, Pick(a, b))
  {
    PickIncreasing(a, b);
    PickPick(g.vertices, a, b);
    var h, k := Induced(Induced(g, a), b), Induced(g, Pick(a, b));
    assert h.vertices == k.vertices;
    forall e ensures e in h.edges <==> e in k.edges {
      InducedTwice(g, a, b, e);
    }
  }

  lemma InducedTwice(g: Graph, a: seq<nat>, b: seq<nat>, e: Edge)
    requires Indices(a, |g.vertices|) && Increasing(a) && Indices(b, |a|) && Increasing(b)
    requires Indices(Pick(a, b), |g.vertices|) && Increasing(Pick(a, b))
    ensures e in Induced(Induced(g, a), b).edges <==> e in Induced(g, Pick(a, b)).edges
  {
    assert |Induced(g, a).vertices| == |a|;
    hide Induced, Pick;
    if e in Induced(Induced(g, a), b).edges {
      InducedEdgeBack(Induced(g, a), b, e);
    }
    if e in Induced(g, Pick(a, b)).edges {
      InducedEdgeBack(g, Pick(a, b), e);
    }
    if e.src < |b| && e.dst < |b| {
      InducedEdge(Induced(g, a), b, e.src, e.dst, e.varId, e.opt);
      InducedEdge(g, a, b[e.src], b[e.dst], e.varId, e.opt);
      InducedEdge(g, Pick(a, b), e.src, e.dst, e.varId, e.opt);
    }
  }

  /** No operand of the part is empty. */
  predicate Alive(ops: seq<Trie>, p: seq<nat>)
    requires Indices(p, |ops|)
  {
    forall i :: 0 <= i < |p| ==> ops[p[i]].rows != {}
  }

  /** The part has patterns without variables only. */
  predicate OnlyScalars(vs: seq<Vertex>, p: seq<nat>)
    requires Indices(p, |vs|)
  {
    forall i :: 0 <= i < |p| ==> vs[p[i]].Operand? && vs[p[i]].vars == []
  }

  /** What the two steps keep: vertices whose component is alive, unless they are patterns without variables. */
  ghost predicate Prepared(g: Graph, ops: seq<Trie>, keep: seq<nat>)
    requires |g.vertices| == |ops|
  {
    && Indices(keep, |g.vertices|) && Increasing(keep)
    && forall v: nat :: v in keep <==>
         Survives(g, EmptyOperands(ops), v) && !(g.vertices[v].Operand? && g.vertices[v].vars == [])
  }

  lemma AlignedDepth(vs: seq<Vertex>, ops: seq<Trie>, v: nat)
    requires Aligned(vs, ops) && v < |vs| && vs[v].Operand?
    ensures v < |ops| && (ops[v].depth == 0 <==> vs[v].vars == [])
  {
    AlignedHere(vs, ops, v);
  }

  lemma PreparedBoth(g: Graph, ops: seq<Trie>, a: seq<nat>, b: seq<nat>)
    requires Aligned(g.vertices, ops) && |g.vertices| == |ops|
    requires Indices(a, |g.vertices|) && Increasing(a) && Indices(b, |a|) && Increasing(b)
    requires forall v: nat :: v in a <==> Survives(g, EmptyOperands(ops), v)
    requires forall j: nat :: j in b <==> j < |a| && !(g.vertices[a[j]].Operand? && ops[a[j]].depth == 0)
    ensures Prepared(g, ops, Pick(a, b))
    ensures Pick(a, b) == [] <==> b == []
  {
    PickIncreasing(a, b);
    forall v: nat ensures Survives(g, EmptyOperands(ops), v) ==> v < |g.vertices| {
    }
    hide Aligned, EmptyOperands, Survives, Prepared, Increasing, Pick;
    forall j: nat | j < |a|
      ensures a[j] < |g.vertices| && (j in b <==> !(g.vertices[a[j]].Operand? && g.vertices[a[j]].vars == []))
    {
      if g.vertices[a[j]].Operand? {
        AlignedDepth(g.vertices, ops, a[j]);
      }
    }
    forall v: nat
      ensures v in Pick(a, b) <==>
              v < |g.vertices| && Survives(g, EmptyOperands(ops), v) && !(g.vertices[v].Operand? && g.vertices[v].vars == [])
    {
      PreparedAt(g.vertices, a, b, v);
    }
    PreparedFrom(g, ops, Pick(a, b));
  }

  lemma PreparedFrom(g: Graph, ops: seq<Trie>, keep: seq<nat>)
    requires |g.vertices| == |ops| && Indices(keep, |g.vertices|) && Increasing(keep)
    requires forall v: nat ::
               v in keep <==>
               v < |g.vertices| && Survives(g, EmptyOperands(ops), v) && !(g.vertices[v].Operand? && g.vertices[v].vars == [])
    ensures Prepared(g, ops, keep)
  {
  }

  lemma PreparedAt(vs: seq<Vertex>, a: seq<nat>, b: seq<nat>, v: nat)
    requires Indices(a, |vs|) && Indices(b, |a|)
    requires forall j: nat :: j < |a| ==> a[j] < |vs| && (j in b <==> !(vs[a[j]].Operand? && vs[a[j]].vars == []))
    ensures v in Pick(a, b) <==> v in a && v < |vs| && !(vs[v].Operand? && vs[v].vars == [])
  {
    hide Pick;
    PickMember(a, b, v);
    if v in a {
      var j: nat :| j < |a| && a[j] == v;
      assert v < |vs|;
    }
  }

  lemma PickMember(a: seq<nat>, b: seq<nat>, v: nat)
    requires Indices(b, |a|)
    ensures v in Pick(a, b) <==> exists j: nat :: j < |a| && a[j] == v && j in b
  {
    if v in Pick(a, b) {
      var i :| 0 <= i < |b| && Pick(a, b)[i] == v;
      assert b[i] in b;
    }
    if j: nat :| j < |a| && a[j] == v && j in b {
      var i :| 0 <= i < |b| && b[i] == j;
      assert Pick(a, b)[i] == v;
    }
  }

  lemma AliveAt(ops: seq<Trie>, p: seq<nat>)
    requires Indices(p, |ops|) && Alive(ops, p)
    ensures forall e :: e in p ==> ops[e].rows != {}
  {
  }

  lemma PartSurvives(g: Graph, ops: seq<Trie>, p: seq<nat>, v: nat)
    requires Plain(g) && |g.vertices| == |ops| && p in UnionParts(g) && v in p
    ensures Indices(p, |ops|) && (Survives(g, EmptyOperands(ops), v) <==> Alive(ops, p))
  {
    hide Plain, Survives, Connected;
    PartShape(g, p);
    var es, n := ArcsOf(g.edges), |g.vertices|;
    PlainStrong(g);
    SurvivesExactly(g, EmptyOperands(ops), v);
    if Alive(ops, p) {
      AliveAt(ops, p);
      forall e | e in EmptyOperands(ops) ensures !Connected(es, e, v) {
        if Connected(es, e, v) {
          ConnectedSym(es, e, v);
          ComponentClosed(es, n, p, v, e);
        }
      }
    } else {
      var i :| 0 <= i < |p| && ops[p[i]].rows == {};
      assert p[i] in p;
      ComponentConnected(es, n, p, p[i], v);
    }
  }

  lemma PreparedDrops(g: Graph, ops: seq<Trie>, keep: seq<nat>)
    requires Plain(g) && Aligned(g.vertices, ops) && |g.vertices| == |ops| && Prepared(g, ops, keep)
    ensures DropsScalars(g, ops, keep)
  {
    hide Plain, UnionParts, Survives, Aligned;
    forall p, v | p in UnionParts(g) && Touches(p, keep) && v in p && v !in keep
      ensures 0 <= v < |g.vertices| && TrueScalar(g.vertices[v], ops[v])
    {
      PartShape(g, p);
      var w: nat :| w in p && w in keep;
      PartSurvives(g, ops, p, w);
      PartSurvives(g, ops, p, v);
      var i :| 0 <= i < |p| && p[i] == v;
      ScalarHolds(g.vertices, ops, v);
    }
  }

  lemma ScalarHolds(vs: seq<Vertex>, ops: seq<Trie>, v: nat)
    requires Aligned(vs, ops) && |vs| == |ops| && v < |vs| && vs[v].Operand? && vs[v].vars == [] && ops[v].rows != {}
    ensures TrueScalar(vs[v], ops[v])
  {
    AlignedHere(vs, ops, v);
    var r :| r in ops[v].rows;
    assert r == [];
  }

  /** What a lost part contributes: nothing if an operand is empty, the empty solution if it only has patterns that hold. */
  lemma LostPart(g: Graph, ops: seq<Trie>, tracked: seq<VarId>, c: Key, k: Key, keep: seq<nat>, p: seq<nat>)
    requires Plain(g) && Aligned(g.vertices, ops) && |g.vertices| == |ops| && Prepared(g, ops, keep)
    requires |c| == |tracked| == |k| && p in LostParts(UnionParts(g), keep)
    ensures Indices(p, |g.vertices|)
    ensures |Matching(Pick(g.vertices, p), Pick(ops, p), tracked, c, k)| ==
            if Alive(ops, p) && k == c then 1 else 0
    ensures Alive(ops, p) ==> OnlyScalars(g.vertices, p)
  {
    hide Plain, UnionParts, Survives, Aligned, Matching, Prepared, LostParts, Pick;
    PartShape(g, p);
    if Alive(ops, p) {
      LostAlive(g, ops, keep, p);
      assert forall v :: v in p && v !in [] ==> TrueScalar(g.vertices[v], ops[v]);
      MatchingWithoutScalars(g.vertices, ops, tracked, c, k, p, []);
      NoVertices(tracked, c, k);
      assert |Pick(g.vertices, [])| == 0 && |Pick(ops, [])| == 0;
      assert Pick(g.vertices, []) == [] && Pick(ops, []) == [];
    } else {
      var i :| 0 <= i < |p| && ops[p[i]].rows == {};
      AlignedHere(g.vertices, ops, p[i]);
      assert g.vertices[p[i]].Operand?;
      EmptyNone(Pick(g.vertices, p), Pick(ops, p), tracked, c, k, i);
    }
  }

  lemma LostAlive(g: Graph, ops: seq<Trie>, keep: seq<nat>, p: seq<nat>)
    requires Plain(g) && Aligned(g.vertices, ops) && |g.vertices| == |ops| && Prepared(g, ops, keep)
    requires p in LostParts(UnionParts(g), keep) && Indices(p, |ops|) && Alive(ops, p)
    ensures OnlyScalars(g.vertices, p)
    ensures forall v :: v in p ==> TrueScalar(g.vertices[v], ops[v])
  {
    hide Plain, UnionParts, Survives, Aligned;
    forall i | 0 <= i < |p|
      ensures g.vertices[p[i]].Operand? && g.vertices[p[i]].vars == [] && TrueScalar(g.vertices[p[i]], ops[p[i]])
    {
      assert p[i] in p && p[i] !in keep;
      PartSurvives(g, ops, p, p[i]);
      ScalarHolds(g.vertices, ops, p[i]);
    }
  }

  lemma NoVertices(tracked: seq<VarId>, c: Key, k: Key)
    requires |c| == |tracked| == |k|
    ensures |Matching([], [], tracked, c, k)| == if k == c then 1 else 0
  {
    if k == c {
      EmptyMatching(tracked, c);
    } else {
      assert DataVars([]) == {};
      MatchingOutside([], [], tracked, c, k);
    }
  }

  lemma EmptyNone(vs: seq<Vertex>, ops: seq<Trie>, tracked: seq<VarId>, c: Key, k: Key, i: nat)
    requires |vs| == |ops| && |c| == |tracked| && i < |vs| && ops[i].rows == {}
    requires vs[i].Operand?
    ensures Matching(vs, ops, tracked, c, k) == {}
  {
    hide Matching, SatJoin;
    forall m ensures m !in Matching(vs, ops, tracked, c, k) {
      MatchingIff(vs, ops, tracked, c, k, m);
      EmptyUnsatisfied(vs, ops, m, i);
    }
  }

  lemma EmptyUnsatisfied(vs: seq<Vertex>, ops: seq<Trie>, m: Binding, i: nat)
    requires |vs| == |ops| && i < |vs| && ops[i].rows == {} && vs[i].Operand?
    ensures !SatJoin(vs, ops, m)
  {
    if m.Keys == DataVars(vs) {
      SatKeys(vs, i);
      assert !FitsAt(vs[i], ops[i], m);
    }
  }
}
