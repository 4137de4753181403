/**
 The visitor that turns property paths into operand dependency graphs.
 */
module PathCompiler {
  import opened Graphs
  import opened Tries
  import opened Semantics
  import opened ProductProof
  import opened LeafProof
  import opened Preparation
  import opened GraphBuilder
  import opened GraphUnions
  import opened SourceComponents
  import opened UnionNormalForm
  import opened BranchBags
  import opened BranchLives
  import opened PathMeaning
  import opened Counting

  /* ---------- one triple pattern ---------- */

  function SlicePart(n: Node): Option<Term> {
    match n
    case Const(t) => Some(t)
    case Var(_) => None
  }

  function VarPart(n: Node): seq<VarId> {
    match n
    case Const(_) => []
    case Var(x) => [x]
  }

  function TriplePattern(subj: Node, pred: Node, obj: Node): Vertex {
    Operand(VarPart(subj) + VarPart(pred) + VarPart(obj), [SlicePart(subj), SlicePart(pred), SlicePart(obj)])
  }

  lemma FreeThree(a: Option<Term>, b: Option<Term>, c: Option<Term>)
    ensures Free([a, b, c]) == (if a.None? then 1 else 0) + (if b.None? then 1 else 0) + (if c.None? then 1 else 0)
  {
    assert Init([a, b, c]) == [a, b] && Init([a, b]) == [a] && Init([a]) == [];
    assert Free([]) == 0 && Free([a]) == if a.None? then 1 else 0;
    assert Free([a, b]) == Free([a]) + if b.None? then 1 else 0;
  }

  lemma PatternFits(subj: Node, pred: Node, obj: Node)
    ensures |TriplePattern(subj, pred, obj).vars| == Free(TriplePattern(subj, pred, obj).slice)
  {
    FreeThree(SlicePart(subj), SlicePart(pred), SlicePart(obj));
  }

  function EndBinding(subj: Node, obj: Node, s: Term, o: Term): Binding {
    (if subj.Var? then map[subj.id := s] else map[]) + (if obj.Var? then map[obj.id := o] else map[])
  }

  lemma PatternInstance(subj: Node, t: Term, obj: Node, m: Binding, s: Term, o: Term)
    requires ValueOf(subj, m) == Some(s) && ValueOf(obj, m) == Some(o)
    ensures var v := TriplePattern(subj, Const(t), obj);
            |v.vars| == Free(v.slice) && (forall x :: x in v.vars ==> x in m) && Instance(v.slice, v.vars, m) == [s, t, o]
  {
    hide *;
    PatternFits(subj, Const(t), obj);
    Joined(VarPart(subj), VarPart(obj), SlicePart(subj), t, SlicePart(obj), s, o);
    PartInstance(subj, m, s);
    PartInstance(obj, m, o);
    PatternIs(subj, t, obj);
    InstanceEmpty(m);
    InstanceAppend([], [], subj, m, [], s);
    InstanceConst([SlicePart(subj)], VarPart(subj), t, m);
    InstanceAppend([SlicePart(subj), Some(t)], VarPart(subj), obj, m, [s, t], o);
  }

  lemma PatternIs(subj: Node, t: Term, obj: Node)
    ensures TriplePattern(subj, Const(t), obj).vars == VarPart(subj) + VarPart(obj)
    ensures TriplePattern(subj, Const(t), obj).slice == [SlicePart(subj), Some(t), SlicePart(obj)]
  {
  }

  lemma PartInstance(n: Node, m: Binding, v: Term)
    requires ValueOf(n, m) == Some(v)
    ensures forall x :: x in VarPart(n) ==> x in m
  {
  }

  lemma InstanceEmpty(m: Binding)
    ensures Free([]) == 0 && Instance([], [], m) == []
  {
  }

  /** One more position for a node. */
  lemma InstanceAppend(slice: SliceKey, vars: seq<VarId>, n: Node, m: Binding, r: Row, v: Term)
    requires |vars| == Free(slice) && (forall x :: x in vars ==> x in m) && Instance(slice, vars, m) == r
    requires ValueOf(n, m) == Some(v)
    ensures forall x :: x in vars + VarPart(n) ==> x in m
    ensures |vars + VarPart(n)| == Free(slice + [SlicePart(n)])
    ensures Instance(slice + [SlicePart(n)], vars + VarPart(n), m) == r + [v]
  {
    hide Instance, Free;
    match n {
      case Const(t) =>
        InstanceConst(slice, vars, t, m);
        assert vars + VarPart(n) == vars;
      case Var(x) =>
        InstanceVar(slice, vars, x, m);
    }
  }

  lemma InstanceVar(slice: SliceKey, vars: seq<VarId>, x: VarId, m: Binding)
    requires |vars| == Free(slice) && (forall y :: y in vars ==> y in m) && x in m
    ensures |vars + [x]| == Free(slice + [None])
    ensures Instance(slice + [None], vars + [x], m) == Instance(slice, vars, m) + [m[x]]
  {
    assert Init(slice + [None]) == slice && Init(vars + [x]) == vars;
  }

  lemma InstanceConst(slice: SliceKey, vars: seq<VarId>, t: Term, m: Binding)
    requires |vars| == Free(slice) && forall x :: x in vars ==> x in m
    ensures |vars| == Free(slice + [Some(t)]) && Instance(slice + [Some(t)], vars, m) == Instance(slice, vars, m) + [t]
  {
    assert Init(slice + [Some(t)]) == slice;
  }

  lemma Joined(a: seq<VarId>, b: seq<VarId>, x: Option<Term>, t: Term, y: Option<Term>, s: Term, o: Term)
    ensures [] + a == a && [] + [x] == [x] && [x] + [Some(t)] == [x, Some(t)] && [x, Some(t)] + [y] == [x, Some(t), y]
    ensures [] + [s] == [s] && [s] + [t] == [s, t] && [s, t] + [o] == [s, t, o]
  {
  }

  lemma PatternJoin(store: set<Row>, v: Vertex, m: Binding)
    requires v.Operand? && |v.vars| == Free(v.slice)
    ensures m in BranchJoin(store, [v]) <==> m.Keys == Elements(v.vars) && Instance(v.slice, v.vars, m) in store
  {
    assert SlicesOf(store, [v]) == [SliceOf(store, v.slice)];
    NaiveJoinIff([v], [SliceOf(store, v.slice)], m);
    SingleSat(v, SliceOf(store, v.slice), m);
    PatternSolutions(store, v.slice, v.vars, m);
    OperandBindingsIff(v.vars, SliceOf(store, v.slice), m);
  }

  lemma PatternVars(subj: Node, t: Term, obj: Node)
    ensures Elements(TriplePattern(subj, Const(t), obj).vars) == NodeVars(subj) + NodeVars(obj)
  {
    assert TriplePattern(subj, Const(t), obj).vars == VarPart(subj) + VarPart(obj);
  }

  /** A triple pattern connects s to o once if the store holds the triple. */
  lemma PatternTotal(store: set<Row>, subj: Node, t: Term, obj: Node, s: Term, o: Term)
    requires Consistent(subj, obj, s, o)
    ensures |EndSet(store, [TriplePattern(subj, Const(t), obj)], subj, obj, s, o)| == if [s, t, o] in store then 1 else 0
  {
    hide BranchJoin, Elements;
    var v := TriplePattern(subj, Const(t), obj);
    var ends := EndSet(store, [v], subj, obj, s, o);
    var only := EndBinding(subj, obj, s, o);
    PatternFits(subj, Const(t), obj);
    PatternVars(subj, t, obj);
    forall m ensures m in ends <==> m == only && [s, t, o] in store {
      PatternJoin(store, v, m);
      if Ends(m, subj, obj, s, o) {
        PatternInstance(subj, t, obj, m, s, o);
        OnlyEnds(m, subj, obj, s, o);
      } else {
        OnlyHasEnds(subj, obj, s, o);
      }
    }
    assert ends == if [s, t, o] in store then {only} else {};
  }

  lemma OnlyEnds(m: Binding, subj: Node, obj: Node, s: Term, o: Term)
    requires Ends(m, subj, obj, s, o)
    ensures m.Keys == NodeVars(subj) + NodeVars(obj) <==> m == EndBinding(subj, obj, s, o)
  {
    var only := EndBinding(subj, obj, s, o);
    assert only.Keys == NodeVars(subj) + NodeVars(obj);
  }

  lemma OnlyHasEnds(subj: Node, obj: Node, s: Term, o: Term)
    requires Consistent(subj, obj, s, o)
    ensures Ends(EndBinding(subj, obj, s, o), subj, obj, s, o)
  {
  }

  /* ---------- what a visit builds ---------- */

  /** A pattern between these ends: it lacks a variable only between constants, and repeats one only at both ends. */
  ghost predicate PatternOk(v: Vertex, subj: Node, obj: Node) {
    && v.Operand? && |v.vars| == Free(v.slice)
    && (v.vars == [] ==> subj.Const? && obj.Const?)
    && forall x :: multiset(v.vars)[x] > 1 ==> subj == Var(x) && obj == Var(x)
  }

  /** A branch binds its ends, and otherwise only variables made between lo and hi. */
  ghost predicate BuiltBranch(b: seq<Vertex>, subj: Node, obj: Node, lo: VarId, hi: VarId) {
    && NodeVars(subj) + NodeVars(obj) <= DataVars(b)
    && (forall x :: x in DataVars(b) ==> x in NodeVars(subj) + NodeVars(obj) || lo <= x < hi)
    && forall i :: 0 <= i < |b| ==> PatternOk(b[i], subj, obj)
  }

  ghost predicate BuiltAll(branches: seq<seq<Vertex>>, subj: Node, obj: Node, lo: VarId, hi: VarId) {
    forall b :: b in branches ==> BuiltBranch(b, subj, obj, lo, hi)
  }

  ghost predicate Built(g: Graph, subj: Node, obj: Node, lo: VarId, hi: VarId) {
    Plain(g) && g.vertices != [] && BuiltAll(Branches(g), subj, obj, lo, hi)
  }

  ghost predicate SizeIs(g: Graph, size: Size) {
    |Branches(g)| == size.branches && TotalLength(Branches(g)) == size.patterns
  }

  /** So many branches of the graph are live over the store, and so many of them lack variables. */
  ghost predicate LifeIs(store: set<Row>, g: Graph, life: Life) {
    LiveNumber(store, Branches(g)) == life.live && ScalarNumber(store, Branches(g)) == life.scalars
  }

  ghost predicate AlternativesLives(g: Graph, p: Path, n: nat, a: Option<Term>, b: Option<Term>)
    requires n <= |p.alternatives|
  {
    forall store: set<Row> :: LifeIs(store, g, AlternativesLife(store, p, n, a, b))
  }

  ghost predicate PathLives(g: Graph, p: Path, a: Option<Term>, b: Option<Term>) {
    forall store: set<Row> :: LifeIs(store, g, PathLife(store, p, a, b))
  }

  ghost predicate SequenceLives(g: Graph, q: PathSequence, n: nat, a: Option<Term>, b: Option<Term>)
    requires n <= |q.elements|
  {
    forall store: set<Row> :: LifeIs(store, g, SequenceLife(store, q, n, a, b))
  }

  ghost predicate EltLives(g: Graph, e: PathElt, a: Option<Term>, b: Option<Term>) {
    forall store: set<Row> :: LifeIs(store, g, EltLife(store, e, a, b))
  }

  ghost predicate PrimaryLives(g: Graph, p: PathPrimary, a: Option<Term>, b: Option<Term>) {
    forall store: set<Row> :: LifeIs(store, g, PrimaryLife(store, p, a, b))
  }

  ghost predicate MeansAlternatives(g: Graph, subj: Node, obj: Node, p: Path, n: nat)
    requires n <= |p.alternatives|
  {
    && SizeIs(g, AlternativesSize(p, n))
    && AlternativesLives(g, p, n, SlicePart(subj), SlicePart(obj))
    && forall store: set<Row>, s: Term, o: Term :: Consistent(subj, obj, s, o) ==>
         BranchTotal(store, Branches(g), subj, obj, s, o) == AlternativesCount(store, p, n, s, o)
  }

  ghost predicate MeansPath(g: Graph, subj: Node, obj: Node, p: Path) {
    && SizeIs(g, PathSize(p))
    && PathLives(g, p, SlicePart(subj), SlicePart(obj))
    && forall store: set<Row>, s: Term, o: Term :: Consistent(subj, obj, s, o) ==>
         BranchTotal(store, Branches(g), subj, obj, s, o) == PathCount(store, p, s, o)
  }

  ghost predicate MeansSequence(g: Graph, subj: Node, obj: Node, q: PathSequence, n: nat)
    requires n <= |q.elements|
  {
    && SizeIs(g, SequenceSize(q, n))
    && SequenceLives(g, q, n, SlicePart(subj), SlicePart(obj))
    && forall store: set<Row>, s: Term, o: Term :: Consistent(subj, obj, s, o) ==>
         BranchTotal(store, Branches(g), subj, obj, s, o) == SequenceCount(store, q, n, s, o)
  }

  ghost predicate MeansElt(g: Graph, subj: Node, obj: Node, e: PathElt) {
    && SizeIs(g, EltSize(e))
    && EltLives(g, e, SlicePart(subj), SlicePart(obj))
    && forall store: set<Row>, s: Term, o: Term :: Consistent(subj, obj, s, o) ==>
         BranchTotal(store, Branches(g), subj, obj, s, o) == EltCount(store, e, s, o)
  }

  ghost predicate MeansPrimary(g: Graph, subj: Node, obj: Node, p: PathPrimary) {
    && SizeIs(g, PrimarySize(p))
    && PrimaryLives(g, p, SlicePart(subj), SlicePart(obj))
    && forall store: set<Row>, s: Term, o: Term :: Consistent(subj, obj, s, o) ==>
         BranchTotal(store, Branches(g), subj, obj, s, o) == PrimaryCount(store, p, s, o)
  }

  ghost predicate KnownNode(n: Node, bound: VarId) {
    n.Var? ==> NO_VAR < n.id < bound
  }

  lemma SinglePattern(subj: Node, t: Term, obj: Node, lo: VarId)
    requires KnownNode(subj, lo) && KnownNode(obj, lo)
    ensures var g := Graph([TriplePattern(subj, Const(t), obj)], {});
            Built(g, subj, obj, lo, lo) && MeansPrimary(g, subj, obj, Iri(t))
  {
    hide Plain, Clique, Branches, BuiltBranch, TriplePattern, MeansPrimary;
    var v := TriplePattern(subj, Const(t), obj);
    var g := Graph([v], {});
    PatternProper(subj, t, obj, lo);
    LonePlain(g);
    CliqueBranches(g);
    PatternBranch(subj, t, obj, lo);
    PatternMeans(g, subj, t, obj);
  }

  lemma PatternProper(subj: Node, t: Term, obj: Node, lo: VarId)
    requires KnownNode(subj, lo) && KnownNode(obj, lo)
    ensures NO_VAR !in TriplePattern(subj, Const(t), obj).vars
  {
  }

  lemma PatternMeans(g: Graph, subj: Node, t: Term, obj: Node)
    requires Branches(g) == [[TriplePattern(subj, Const(t), obj)]]
    ensures MeansPrimary(g, subj, obj, Iri(t))
  {
    hide Branches, EndSet, TriplePattern, BranchTotal, Consistent, PrimaryLives, SlicePart;
    LoneSize(g, TriplePattern(subj, Const(t), obj));
    LoneLives(g, subj, t, obj);
    forall store: set<Row>, s: Term, o: Term | Consistent(subj, obj, s, o)
      ensures BranchTotal(store, Branches(g), subj, obj, s, o) == PrimaryCount(store, Iri(t), s, o)
    {
      BranchTotalOne(store, [TriplePattern(subj, Const(t), obj)], subj, obj, s, o);
      PatternTotal(store, subj, t, obj, s, o);
    }
  }

  lemma LoneSize(g: Graph, v: Vertex)
    requires Branches(g) == [[v]]
    ensures SizeIs(g, Size(1, 1))
  {
    hide Branches;
    NoLength();
    LengthSnoc([], [v]);
    assert [] + [[v]] == [[v]];
  }

  lemma PatternBranch(subj: Node, t: Term, obj: Node, lo: VarId)
    ensures BuiltBranch([TriplePattern(subj, Const(t), obj)], subj, obj, lo, lo)
  {
    var v := TriplePattern(subj, Const(t), obj);
    assert v.Operand?;
    hide *;
    PatternVars(subj, t, obj);
    SingleVars(v);
    PatternIsOk(subj, t, obj);
    BuiltOne(v, subj, obj, lo);
  }

  lemma BuiltOne(v: Vertex, subj: Node, obj: Node, lo: VarId)
    requires DataVars([v]) == NodeVars(subj) + NodeVars(obj) && PatternOk(v, subj, obj)
    ensures BuiltBranch([v], subj, obj, lo, lo)
  {
    hide DataVars, PatternOk, NodeVars;
  }

  lemma PatternIsOk(subj: Node, t: Term, obj: Node)
    ensures PatternOk(TriplePattern(subj, Const(t), obj), subj, obj)
  {
    PatternFits(subj, Const(t), obj);
    var vars := VarPart(subj) + VarPart(obj);
    assert TriplePattern(subj, Const(t), obj).vars == vars;
    assert multiset(vars) == multiset(VarPart(subj)) + multiset(VarPart(obj));
  }

  /* ---------- steps ---------- */

  lemma BuiltWider(branches: seq<seq<Vertex>>, subj: Node, obj: Node, lo: VarId, hi: VarId, lo': VarId, hi': VarId)
    requires BuiltAll(branches, subj, obj, lo, hi) && lo' <= lo && hi <= hi'
    ensures BuiltAll(branches, subj, obj, lo', hi')
  {
    hide DataVars;
  }

  lemma BuiltUnion(a: seq<seq<Vertex>>, b: seq<seq<Vertex>>, subj: Node, obj: Node, lo: VarId, hi: VarId)
    requires BuiltAll(a, subj, obj, lo, hi) && BuiltAll(b, subj, obj, lo, hi)
    ensures BuiltAll(a + b, subj, obj, lo, hi)
  {
    hide BuiltBranch;
  }

  lemma MergedSize(g: Graph, h: Graph, a: Size, b: Size)
    requires Branches(Merge(g, h)) == Branches(g) + Branches(h) && SizeIs(g, a) && SizeIs(h, b)
    ensures SizeIs(Merge(g, h), BothSizes(a, b))
  {
    hide Branches, Merge, TotalLength;
    TotalLengthAppend(Branches(g), Branches(h));
  }

  lemma JoinedSize(g: Graph, h: Graph, r: Graph, a: Size, b: Size)
    requires Branches(r) == Pairings(Branches(g), Branches(h)) && SizeIs(g, a) && SizeIs(h, b)
    ensures SizeIs(r, CrossedSizes(a, b))
  {
    hide Branches, Pairings, TotalLength;
    PairingsLength(Branches(g), Branches(h));
  }

  lemma MergedLife(store: set<Row>, g: Graph, h: Graph, a: Life, b: Life)
    requires Branches(Merge(g, h)) == Branches(g) + Branches(h) && LifeIs(store, g, a) && LifeIs(store, h, b)
    ensures LifeIs(store, Merge(g, h), BothLives(a, b))
  {
    hide Branches, Merge, LiveNumber, ScalarNumber;
    NumbersAppend(store, Branches(g), Branches(h));
  }

  /** Every pair of branches binds the variable where they meet. */
  lemma JoinedLife(store: set<Row>, g: Graph, h: Graph, r: Graph, a: Life, b: Life, z: VarId)
    requires Branches(r) == Pairings(Branches(g), Branches(h)) && LifeIs(store, g, a) && LifeIs(store, h, b)
    requires forall u :: u in Branches(g) ==> z in DataVars(u)
    ensures LifeIs(store, r, CrossedLives(a, b))
  {
    hide Branches, Pairings, LiveNumber, ScalarNumber, ScalarBranch, DataVars;
    PairingsLive(store, Branches(g), Branches(h));
    forall x | x in Branches(r) ensures !ScalarBranch(x) {
      PairingsMember(Branches(g), Branches(h), x);
      var u, w :| u in Branches(g) && w in Branches(h) && x == u + w;
      DataVarsConcat(u, w);
      VariedBranch(x, z);
    }
    NoScalars(store, Branches(r));
  }

  lemma VariedBranch(vs: seq<Vertex>, z: VarId)
    requires z in DataVars(vs)
    ensures !ScalarBranch(vs)
  {
  }

  lemma BoundEnd(branches: seq<seq<Vertex>>, subj: Node, z: VarId, lo: VarId, hi: VarId)
    requires BuiltAll(branches, subj, Var(z), lo, hi)
    ensures forall u :: u in branches ==> z in DataVars(u)
  {
    hide BuiltBranch, DataVars;
    forall u | u in branches ensures z in DataVars(u) {
      BranchVars(u, subj, Var(z), lo, hi);
    }
  }

  lemma LoneLife(store: set<Row>, g: Graph, subj: Node, t: Term, obj: Node)
    requires Branches(g) == [[TriplePattern(subj, Const(t), obj)]]
    ensures LifeIs(store, g, PrimaryLife(store, Iri(t), SlicePart(subj), SlicePart(obj)))
  {
    hide Branches, LiveNumber, ScalarNumber, ScalarBranch, LiveBranch, Stored, TriplePattern;
    var vs := [TriplePattern(subj, Const(t), obj)];
    NoNumbers(store);
    NumbersLast(store, [], vs);
    assert [] + [vs] == [vs];
    LoneLive(store, subj, t, obj);
  }

  lemma LoneLives(g: Graph, subj: Node, t: Term, obj: Node)
    requires Branches(g) == [[TriplePattern(subj, Const(t), obj)]]
    ensures PrimaryLives(g, Iri(t), SlicePart(subj), SlicePart(obj))
  {
    hide Branches, LifeIs, PrimaryLife, TriplePattern, SlicePart;
    forall store: set<Row> ensures LifeIs(store, g, PrimaryLife(store, Iri(t), SlicePart(subj), SlicePart(obj))) {
      LoneLife(store, g, subj, t, obj);
    }
  }

  lemma LoneLive(store: set<Row>, subj: Node, t: Term, obj: Node)
    ensures var vs := [TriplePattern(subj, Const(t), obj)];
            && (LiveBranch(store, vs) <==> Stored(store, SlicePart(subj), t, SlicePart(obj)))
            && (ScalarBranch(vs) <==> SlicePart(subj).Some? && SlicePart(obj).Some?)
  {
    var slice := [SlicePart(subj), Some(t), SlicePart(obj)];
    var vs := [TriplePattern(subj, Const(t), obj)];
    assert vs[0].slice == slice && SlicesOf(store, vs)[0] == SliceOf(store, slice);
    hide Agrees, FreeParts, Free;
    if Stored(store, SlicePart(subj), t, SlicePart(obj)) {
      var r :| r in store && Agrees(r, slice);
      assert FreeParts(r, slice) in SliceOf(store, slice).rows;
    }
  }

  lemma MergedLives(g: Graph, h: Graph, p: Path, n: nat, a: Option<Term>, b: Option<Term>)
    requires n < |p.alternatives| && Branches(Merge(g, h)) == Branches(g) + Branches(h)
    requires AlternativesLives(g, p, n, a, b) && SequenceLives(h, p.alternatives[n], |p.alternatives[n].elements|, a, b)
    ensures AlternativesLives(Merge(g, h), p, n + 1, a, b)
  {
    hide Branches, LifeIs, Merge, SequenceLife;
    var next := n + 1;
    forall store: set<Row> ensures LifeIs(store, Merge(g, h), AlternativesLife(store, p, next, a, b)) {
      MergedLife(store, g, h, AlternativesLife(store, p, n, a, b),
                 SequenceLife(store, p.alternatives[n], |p.alternatives[n].elements|, a, b));
    }
  }

  lemma JoinedLives(g: Graph, h: Graph, r: Graph, q: PathSequence, n: nat, a: Option<Term>, b: Option<Term>, z: VarId)
    requires 0 < n < |q.elements| && Branches(r) == Pairings(Branches(g), Branches(h))
    requires SequenceLives(g, q, n, a, None) && EltLives(h, q.elements[n], None, b)
    requires forall u :: u in Branches(g) ==> z in DataVars(u)
    ensures SequenceLives(r, q, n + 1, a, b)
  {
    hide Branches, LifeIs, Pairings, DataVars, EltLife;
    var next := n + 1;
    forall store: set<Row> ensures LifeIs(store, r, SequenceLife(store, q, next, a, b)) {
      JoinedLife(store, g, h, r, SequenceLife(store, q, n, a, None), EltLife(store, q.elements[n], None, b), z);
    }
  }

  lemma OpenEnd(z: VarId)
    ensures SlicePart(Var(z)) == None
  {
  }

  /** One more alternative. */
  lemma AlternativeStep(g: Graph, h: Graph, subj: Node, obj: Node, lo: VarId, mid: VarId, hi: VarId, p: Path, n: nat)
    requires n < |p.alternatives| && lo <= mid <= hi
    requires Plain(g) && BuiltAll(Branches(g), subj, obj, lo, mid) && MeansAlternatives(g, subj, obj, p, n)
    requires Built(h, subj, obj, mid, hi)
    requires MeansSequence(h, subj, obj, p.alternatives[n], |p.alternatives[n].elements|)
    ensures Built(Merge(g, h), subj, obj, lo, hi) && MeansAlternatives(Merge(g, h), subj, obj, p, n + 1)
  {
    hide BuiltAll, Branches, BranchTotal, Plain, Consistent, SizeIs, BothSizes, AlternativesLives, SequenceLives, SlicePart;
    MergePlain(g, h);
    BothWellFormed(g, h);
    MergeBranches(g, h);
    MergedSize(g, h, AlternativesSize(p, n), SequenceSize(p.alternatives[n], |p.alternatives[n].elements|));
    MergedLives(g, h, p, n, SlicePart(subj), SlicePart(obj));
    BuiltWider(Branches(g), subj, obj, lo, mid, lo, hi);
    BuiltWider(Branches(h), subj, obj, mid, hi, lo, hi);
    BuiltUnion(Branches(g), Branches(h), subj, obj, lo, hi);
    forall store: set<Row>, s: Term, o: Term | Consistent(subj, obj, s, o)
      ensures BranchTotal(store, Branches(Merge(g, h)), subj, obj, s, o) == AlternativesCount(store, p, n + 1, s, o)
    {
      BranchTotalAppend(store, Branches(g), Branches(h), subj, obj, s, o);
    }
  }

  /** z was made before mid; the other end is older than lo or was made between mid and start. */
  ghost predicate Fresh(subj: Node, z: VarId, obj: Node, lo: VarId, mid: VarId, start: VarId) {
    && lo <= z < mid <= start && KnownNode(subj, lo)
    && (obj.Var? ==> NO_VAR < obj.id < lo || mid <= obj.id < start)
  }

  lemma FreshBridge(u: seq<Vertex>, w: seq<Vertex>, subj: Node, z: VarId, obj: Node, lo: VarId, mid: VarId, start: VarId, hi: VarId)
    requires Fresh(subj, z, obj, lo, mid, start) && start <= hi
    requires BuiltBranch(u, subj, Var(z), lo, mid) && BuiltBranch(w, Var(z), obj, start, hi)
    ensures Bridged(u, w, subj, z, obj)
  {
    hide DataVars;
    forall x | x in DataVars(u) && x in DataVars(w) ensures x in {z} + NodeVars(subj) * NodeVars(obj) {
      assert x in NodeVars(subj) + NodeVars(Var(z)) || lo <= x < mid;
      assert x in NodeVars(Var(z)) + NodeVars(obj) || start <= x < hi;
    }
  }

  lemma FreshPair(u: seq<Vertex>, w: seq<Vertex>, subj: Node, z: VarId, obj: Node, lo: VarId, mid: VarId, start: VarId, hi: VarId)
    requires Fresh(subj, z, obj, lo, mid, start) && start <= hi
    requires BuiltBranch(u, subj, Var(z), lo, mid) && BuiltBranch(w, Var(z), obj, start, hi)
    ensures BuiltBranch(u + w, subj, obj, lo, hi)
  {
    BranchVars(u, subj, Var(z), lo, mid);
    BranchVars(w, Var(z), obj, start, hi);
    hide *;
    DataVarsConcat(u, w);
    FreshPatterns(u, w, subj, z, obj, lo, mid, start, hi);
    FreshVars(DataVars(u), DataVars(w), subj, z, obj, lo, mid, start, hi);
    BuiltFrom(u + w, subj, obj, lo, hi);
  }

  lemma BranchVars(b: seq<Vertex>, subj: Node, obj: Node, lo: VarId, hi: VarId)
    requires BuiltBranch(b, subj, obj, lo, hi)
    ensures NodeVars(subj) <= DataVars(b) && NodeVars(obj) <= DataVars(b)
    ensures forall x :: x in DataVars(b) ==> x in NodeVars(subj) + NodeVars(obj) || lo <= x < hi
  {
    hide DataVars, PatternOk, NodeVars;
  }

  lemma BuiltFrom(b: seq<Vertex>, subj: Node, obj: Node, lo: VarId, hi: VarId)
    requires NodeVars(subj) + NodeVars(obj) <= DataVars(b)
    requires forall x :: x in DataVars(b) ==> x in NodeVars(subj) + NodeVars(obj) || lo <= x < hi
    requires forall i :: 0 <= i < |b| ==> PatternOk(b[i], subj, obj)
    ensures BuiltBranch(b, subj, obj, lo, hi)
  {
    hide DataVars, PatternOk, NodeVars;
  }

  lemma FreshVars(du: set<VarId>, dw: set<VarId>, subj: Node, z: VarId, obj: Node, lo: VarId, mid: VarId, start: VarId, hi: VarId)
    requires Fresh(subj, z, obj, lo, mid, start) && start <= hi
    requires NodeVars(subj) <= du && NodeVars(obj) <= dw
    requires forall x :: x in du ==> x in NodeVars(subj) + NodeVars(Var(z)) || lo <= x < mid
    requires forall x :: x in dw ==> x in NodeVars(Var(z)) + NodeVars(obj) || start <= x < hi
    ensures NodeVars(subj) + NodeVars(obj) <= du + dw
    ensures forall x :: x in du + dw ==> x in NodeVars(subj) + NodeVars(obj) || lo <= x < hi
  {
  }

  lemma FreshPatterns(u: seq<Vertex>, w: seq<Vertex>, subj: Node, z: VarId, obj: Node, lo: VarId, mid: VarId, start: VarId, hi: VarId)
    requires Fresh(subj, z, obj, lo, mid, start)
    requires BuiltBranch(u, subj, Var(z), lo, mid) && BuiltBranch(w, Var(z), obj, start, hi)
    ensures forall i :: 0 <= i < |u + w| ==> PatternOk((u + w)[i], subj, obj)
  {
    hide DataVars, Free;
    forall i | 0 <= i < |u + w| ensures PatternOk((u + w)[i], subj, obj) {
      if i < |u| {
        assert PatternOk(u[i], subj, Var(z)) && (u + w)[i] == u[i];
      } else {
        assert PatternOk(w[i - |u|], Var(z), obj) && (u + w)[i] == w[i - |u|];
      }
    }
  }

  lemma FreshBridges(a: seq<seq<Vertex>>, b: seq<seq<Vertex>>, subj: Node, z: VarId, obj: Node,
                     lo: VarId, mid: VarId, start: VarId, hi: VarId)
    requires Fresh(subj, z, obj, lo, mid, start) && start <= hi
    requires BuiltAll(a, subj, Var(z), lo, mid) && BuiltAll(b, Var(z), obj, start, hi)
    ensures AllBridged(a, b, subj, z, obj) && BuiltAll(Pairings(a, b), subj, obj, lo, hi)
  {
    hide BuiltBranch, Bridged, Fresh;
    forall u, w | u in a && w in b ensures Bridged(u, w, subj, z, obj) && BuiltBranch(u + w, subj, obj, lo, hi) {
      FreshBridge(u, w, subj, z, obj, lo, mid, start, hi);
      FreshPair(u, w, subj, z, obj, lo, mid, start, hi);
    }
    forall x | x in Pairings(a, b) ensures BuiltBranch(x, subj, obj, lo, hi) {
      PairingsMember(a, b, x);
    }
  }

  /** One more element of a sequence. */
  lemma SequenceStep(g: Graph, h: Graph, r: Graph, subj: Node, z: VarId, obj: Node,
                     lo: VarId, mid: VarId, start: VarId, hi: VarId, q: PathSequence, n: nat)
    requires 0 < n < |q.elements| && Fresh(subj, z, obj, lo, mid, start) && start <= hi
    requires Built(g, subj, Var(z), lo, mid) && Built(h, Var(z), obj, start, hi)
    requires MeansSequence(g, subj, Var(z), q, n) && MeansElt(h, Var(z), obj, q.elements[n])
    requires Plain(r) && r.vertices != [] && Branches(r) == JoinedBranches(g, h)
    ensures Built(r, subj, obj, lo, hi) && MeansSequence(r, subj, obj, q, n + 1)
  {
    hide Plain, Branches, BuiltAll, SizeIs, CrossedSizes, Consistent, BranchTotal, Pairings, SequenceLives, EltLives, SlicePart, DataVars;
    JoinedSize(g, h, r, SequenceSize(q, n), EltSize(q.elements[n]));
    BoundEnd(Branches(g), subj, z, lo, mid);
    OpenEnd(z);
    JoinedLives(g, h, r, q, n, SlicePart(subj), SlicePart(obj), z);
    FreshBridges(Branches(g), Branches(h), subj, z, obj, lo, mid, start, hi);
    forall store: set<Row>, s: Term, o: Term | Consistent(subj, obj, s, o)
      ensures BranchTotal(store, Branches(r), subj, obj, s, o) == SequenceCount(store, q, n + 1, s, o)
    {
      JoinTotal(store, Branches(g), Branches(h), subj, z, obj, s, o);
      SequencePoint(g, h, subj, z, obj, lo, mid, start, q, n, store, s, o);
    }
  }

  lemma SequencePoint(g: Graph, h: Graph, subj: Node, z: VarId, obj: Node, lo: VarId, mid: VarId, start: VarId,
                      q: PathSequence, n: nat, store: set<Row>, s: Term, o: Term)
    requires 0 < n < |q.elements| && Fresh(subj, z, obj, lo, mid, start) && Consistent(subj, obj, s, o)
    requires MeansSequence(g, subj, Var(z), q, n) && MeansElt(h, Var(z), obj, q.elements[n])
    ensures SumOver(Terms(store), TotalAt(store, Branches(g), Branches(h), subj, z, obj, s, o))
         == SequenceCount(store, q, n + 1, s, o)
  {
    hide Branches, BranchTotal, Terms, SumOver;
    var f := (v: Term) => Times(SequenceCount(store, q, n, s, v), EltCount(store, q.elements[n], v, o));
    forall v | v in Terms(store)
      ensures TotalAt(store, Branches(g), Branches(h), subj, z, obj, s, o)(v) == f(v)
    {
      assert Consistent(subj, Var(z), s, v) && Consistent(Var(z), obj, v, o);
    }
    SumOverSame(Terms(store), TotalAt(store, Branches(g), Branches(h), subj, z, obj, s, o), f);
    SequenceUnfold(store, q, n, s, o, f);
  }

  lemma SequenceUnfold(store: set<Row>, q: PathSequence, n: nat, s: Term, o: Term, f: Term -> nat)
    requires 0 < n < |q.elements|
    requires forall v :: f(v) == Times(SequenceCount(store, q, n, s, v), EltCount(store, q.elements[n], v, o))
    ensures SequenceCount(store, q, n + 1, s, o) == SumOver(Terms(store), f)
  {
    hide Terms, SumOver;
    var g := (v: Term) => Times(SequenceCount(store, q, n, s, v), EltCount(store, q.elements[n], v, o));
    SumOverSame(Terms(store), f, g);
  }

  /* ---------- grammar ---------- */

  /** Every alternative and every sequence has a member. */
  predicate Grammatical(p: Path)
    decreases p
  {
    p.alternatives != [] && forall q :: q in p.alternatives ==> GrammaticalSequence(q)
  }

  predicate GrammaticalSequence(q: PathSequence)
    decreases q
  {
    q.elements != [] && forall e :: e in q.elements ==> GrammaticalElt(e)
  }

  predicate GrammaticalElt(e: PathElt)
    decreases e
  {
    e.primary.Group? ==> Grammatical(e.primary.path)
  }

  /** No path modifier and no negated property set. */
  predicate Supported(p: Path)
    decreases p
  {
    forall q :: q in p.alternatives ==> SupportedSequence(q)
  }

  predicate SupportedSequence(q: PathSequence)
    decreases q
  {
    forall e :: e in q.elements ==> SupportedElt(e)
  }

  predicate SupportedElt(e: PathElt)
    decreases e
  {
    !e.modified && !e.primary.NegatedPropertySet? && (e.primary.Group? ==> Supported(e.primary.path))
  }

  /** The elements of a path at every depth. */
  ghost function AllElements(p: Path): set<PathElt>
    decreases p
  {
    set q, e | q in p.alternatives && e in SequenceElements(q) :: e
  }

  ghost function SequenceElements(q: PathSequence): set<PathElt>
    decreases q
  {
    set d, e | d in q.elements && e in WithinElement(d) :: e
  }

  ghost function WithinElement(e: PathElt): set<PathElt>
    decreases e
  {
    {e} + if e.primary.Group? then AllElements(e.primary.path) else {}
  }

  /** Exactly these paths are supported: no element at any depth has a modifier or is a negated property set. */
  lemma {:induction false} SupportedExactly(p: Path)
    ensures Supported(p) <==> forall e :: e in AllElements(p) ==> !e.modified && !e.primary.NegatedPropertySet?
    decreases p
  {
    forall q | q in p.alternatives
      ensures SupportedSequence(q) <==> forall e :: e in SequenceElements(q) ==> !e.modified && !e.primary.NegatedPropertySet?
    {
      SupportedSequenceExactly(q);
    }
    hide SupportedSequence, SequenceElements;
  }

  lemma {:induction false} SupportedSequenceExactly(q: PathSequence)
    ensures SupportedSequence(q) <==> forall e :: e in SequenceElements(q) ==> !e.modified && !e.primary.NegatedPropertySet?
    decreases q
  {
    forall d | d in q.elements
      ensures SupportedElt(d) <==> forall e :: e in WithinElement(d) ==> !e.modified && !e.primary.NegatedPropertySet?
    {
      SupportedEltExactly(d);
    }
    hide SupportedElt, WithinElement;
  }

  lemma {:induction false} SupportedEltExactly(e: PathElt)
    ensures SupportedElt(e) <==> forall d :: d in WithinElement(e) ==> !d.modified && !d.primary.NegatedPropertySet?
    decreases e
  {
    if e.primary.Group? {
      SupportedExactly(e.primary.path);
      hide Supported, AllElements;
    }
  }

  /** Paths of IRIs, and what inverse, sequence and alternative make of paths in parentheses, can be compiled. */
  lemma PathsAccepted(t: Term, p: Path, q: Path)
    requires Grammatical(p) && Supported(p) && Grammatical(q) && Supported(q)
    ensures Grammatical(IriPath(t)) && Supported(IriPath(t))
    ensures Grammatical(InversePath(p)) && Supported(InversePath(p))
    ensures Grammatical(SequencePath(p, q)) && Supported(SequencePath(p, q))
    ensures Grammatical(AlternativePath(p, q)) && Supported(AlternativePath(p, q))
  {
    LonePathAccepted(PathElt(false, Iri(t), false));
    LonePathAccepted(PathElt(true, Group(p), false));
    ElementAccepted(Parenthesized(p));
    ElementAccepted(Parenthesized(q));
    hide GrammaticalElt, SupportedElt, Parenthesized;
    assert GrammaticalSequence(PathSequence([Parenthesized(p), Parenthesized(q)]));
    assert SupportedSequence(PathSequence([Parenthesized(p), Parenthesized(q)]));
    assert GrammaticalSequence(PathSequence([Parenthesized(p)])) && GrammaticalSequence(PathSequence([Parenthesized(q)]));
    assert SupportedSequence(PathSequence([Parenthesized(p)])) && SupportedSequence(PathSequence([Parenthesized(q)]));
    hide GrammaticalSequence, SupportedSequence;
  }

  lemma ElementAccepted(e: PathElt)
    requires !e.modified && !e.primary.NegatedPropertySet?
    requires e.primary.Group? ==> Grammatical(e.primary.path) && Supported(e.primary.path)
    ensures GrammaticalElt(e) && SupportedElt(e)
  {
    hide Grammatical, Supported;
  }

  lemma LonePathAccepted(e: PathElt)
    requires !e.modified && !e.primary.NegatedPropertySet?
    requires e.primary.Group? ==> Grammatical(e.primary.path) && Supported(e.primary.path)
    ensures Grammatical(Path([PathSequence([e])])) && Supported(Path([PathSequence([e])]))
  {
    ElementAccepted(e);
    hide GrammaticalElt, SupportedElt;
    assert GrammaticalSequence(PathSequence([e])) && SupportedSequence(PathSequence([e]));
    hide GrammaticalSequence, SupportedSequence;
  }

  /* ---------- blank nodes ---------- */

  predicate SameLabel(a: Option<VarId>, b: Option<VarId>) {
    a.Some? && a == b
  }

  /** Two blank nodes get one variable exactly if they have one label. */
  ghost predicate StandForLabels(ns: seq<Node>, labels: seq<Option<VarId>>) {
    |ns| == |labels| && forall i, j :: 0 <= i < j < |ns| ==> (ns[i] == ns[j] <==> SameLabel(labels[i], labels[j]))
  }

  /* ---------- the visitor ---------- */

  class QueryUpdateVisitor {
    var activeSubject: Node
    var activePredicate: Node
    var activeObject: Node
    var bnodeAnonCounter: nat
    /** Variables from here on are made for blank nodes. */
    const firstFresh: VarId

    constructor (subj: Node, obj: Node, firstFresh: VarId)
      requires NO_VAR < firstFresh && KnownNode(subj, firstFresh) && KnownNode(obj, firstFresh)
      ensures Valid() && activeSubject == subj && activeObject == obj && this.firstFresh == firstFresh && bnodeAnonCounter == 0
    {
      activeSubject, activePredicate, activeObject := subj, subj, obj;
      bnodeAnonCounter := 0;
      this.firstFresh := firstFresh;
    }

    function Next(): VarId
      reads this
    {
      firstFresh + bnodeAnonCounter
    }

    ghost predicate Valid()
      reads this
    {
      NO_VAR < firstFresh && KnownNode(activeSubject, Next()) && KnownNode(activeObject, Next())
    }

    /** The variable of a new anonymous blank node. */
    method VariableFromBlankNode() returns (n: Node)
      modifies this`bnodeAnonCounter
      ensures n == Var(old(Next())) && Next() == old(Next()) + 1
    {
      n := Var(firstFresh + bnodeAnonCounter);
      bnodeAnonCounter := bnodeAnonCounter + 1;
    }

    /** The variable of a blank node; a label is given by the variable that its name stands for. */
    method VisitBlankNode(label_: Option<VarId>) returns (n: Node)
      modifies this`bnodeAnonCounter
      ensures n == Var(old(Next())) && Next() == old(Next()) + 1
    {
      if label_.Some? {
        n := Var(label_.value);
      }
      n := VariableFromBlankNode();
    }

    /**
     The blank nodes of a query in the order they are visited. No two share a
     variable, so that variables stand for labels exactly if no label occurs twice.
     */
    method VisitBlankNodes(labels: seq<Option<VarId>>) returns (ns: seq<Node>)
      modifies this`bnodeAnonCounter
      ensures |ns| == |labels| && Next() == old(Next()) + |labels|
      ensures forall i :: 0 <= i < |ns| ==> ns[i] == Var(old(Next()) + i)
      ensures StandForLabels(ns, labels) <==> forall i, j :: 0 <= i < j < |labels| ==> !SameLabel(labels[i], labels[j])
    {
      ns := [];
      for i := 0 to |labels|
        invariant |ns| == i && Next() == old(Next()) + i
        invariant forall j :: 0 <= j < i ==> ns[j] == Var(old(Next()) + j)
      {
        var n := VisitBlankNode(labels[i]);
        ns := ns + [n];
      }
    }

    /** Adds the pattern of the active subject, predicate and object. */
    method CreateOperandFromTp(odg: OperandDependencyGraph) returns (desc: nat)
      modifies odg
      ensures desc == |old(odg.graph).vertices|
      ensures odg.graph == Graph(old(odg.graph).vertices + [TriplePattern(activeSubject, activePredicate, activeObject)],
                                 old(odg.graph).edges)
    {
      desc := odg.AddVertex(TriplePattern(activeSubject, activePredicate, activeObject));
    }

    /** The graph of a path from the active subject to the active object, or nothing for an unsupported path. */
    method VisitPath(p: Path) returns (r: Option<Graph>)
      requires Valid() && Grammatical(p)
      modifies this
      ensures r.Some? <==> Supported(p)
      ensures r.Some? ==> activeSubject == old(activeSubject) && activeObject == old(activeObject)
      ensures r.Some? ==> Valid() && old(Next()) <= Next()
      ensures r.Some? ==> Built(r.value, activeSubject, activeObject, old(Next()), Next())
      ensures r.Some? ==> MeansPath(r.value, activeSubject, activeObject, p)
      decreases p
    {
      hide Built, BuiltAll, Plain, MeansSequence, MeansAlternatives;
      var subj, obj, lo := activeSubject, activeObject, Next();
      var g := EMPTY_GRAPH;
      NothingBuilt(subj, obj, lo, p);
      for i := 0 to |p.alternatives|
        invariant activeSubject == subj && activeObject == obj && Valid() && lo <= Next()
        invariant forall j :: 0 <= j < i ==> SupportedSequence(p.alternatives[j])
        invariant if i == 0 then g == EMPTY_GRAPH else Built(g, subj, obj, lo, Next())
        invariant MeansAlternatives(g, subj, obj, p, i)
      {
        ghost var mid := Next();
        assert p.alternatives[i] in p.alternatives;
        var t := VisitPathSequence(p.alternatives[i]);
        if t.None? {
          return None;
        }
        BuiltSoFar(g, subj, obj, lo, mid);
        AlternativeStep(g, t.value, subj, obj, lo, mid, Next(), p, i);
        g := Merge(g, t.value);
      }
      AlternativesDone(g, subj, obj, p);
      r := Some(g);
    }

    /** Joins one more element of a sequence, from the variable that the part before ends in. */
    method VisitNext(g: Graph, q: PathSequence, i: nat, ghost currentSubject: Node, ghost lo: VarId, ghost mid: VarId)
      returns (r: Option<Graph>)
      requires Valid() && GrammaticalSequence(q) && 0 < i < |q.elements| && activeSubject.Var?
      requires Fresh(currentSubject, activeSubject.id, activeObject, lo, mid, Next())
      requires Built(g, currentSubject, activeSubject, lo, mid) && MeansSequence(g, currentSubject, activeSubject, q, i)
      modifies this
      ensures r.Some? <==> SupportedElt(q.elements[i])
      ensures r.Some? ==> activeSubject == old(activeSubject) && activeObject == old(activeObject)
      ensures r.Some? ==> Valid() && old(Next()) <= Next()
      ensures r.Some? ==> Built(r.value, currentSubject, activeObject, lo, Next())
      ensures r.Some? ==> MeansSequence(r.value, currentSubject, activeObject, q, i + 1)
      decreases q, 0
    {
      hide Built, MeansSequence, MeansElt, Fresh;
      assert q.elements[i] in q.elements;
      ghost var start := Next();
      var t := VisitPathEltOrInverse(q.elements[i]);
      if t.None? {
        return None;
      }
      BuiltPlain(g, currentSubject, activeSubject, lo, mid);
      BuiltPlain(t.value, activeSubject, activeObject, start, Next());
      PlainRooted(g);
      PlainRooted(t.value);
      var combined := CombineAndMerge(g, t.value);
      SequenceStep(g, t.value, combined, currentSubject, activeSubject.id, activeObject, lo, mid, start, Next(), q, i);
      r := Some(combined);
    }

    method VisitPathSequence(q: PathSequence) returns (r: Option<Graph>)
      requires Valid() && GrammaticalSequence(q)
      modifies this
      ensures r.Some? <==> SupportedSequence(q)
      ensures r.Some? ==> activeSubject == old(activeSubject) && activeObject == old(activeObject)
      ensures r.Some? ==> Valid() && old(Next()) <= Next()
      ensures r.Some? ==> Built(r.value, activeSubject, activeObject, old(Next()), Next())
      ensures r.Some? ==> MeansSequence(r.value, activeSubject, activeObject, q, |q.elements|)
      decreases q, 1
    {
      hide Built, MeansSequence, MeansElt, GrammaticalElt, SupportedElt;
      assert forall i :: 0 <= i < |q.elements| ==> q.elements[i] in q.elements;
      var pathSize := |q.elements|;
      if pathSize == 1 {
        r := VisitPathEltOrInverse(q.elements[0]);
        if r.Some? {
          FirstElement(r.value, activeSubject, activeObject, q);
        }
        return;
      }
      var currentSubject, currentObject := activeSubject, activeObject;
      ghost var lo := Next();
      var g := VisitFirst(q);
      if g.None? {
        return None;
      }
      for i := 1 to pathSize - 1
        invariant g.Some? && activeSubject.Var? && lo <= activeSubject.id < Next() && Valid()
        invariant forall j :: 0 <= j < i ==> SupportedElt(q.elements[j])
        invariant Built(g.value, currentSubject, activeSubject, lo, Next())
        invariant MeansSequence(g.value, currentSubject, activeSubject, q, i)
      {
        ghost var mid := Next();
        activeObject := VariableFromBlankNode();
        g := VisitNext(g.value, q, i, currentSubject, lo, mid);
        if g.None? {
          return None;
        }
        activeSubject := activeObject;
      }
      activeObject := currentObject;
      r := VisitNext(g.value, q, pathSize - 1, currentSubject, lo, Next());
      if r.Some? {
        activeSubject := currentSubject;
        assert forall j :: 0 <= j < pathSize ==> SupportedElt(q.elements[j]);
      }
    }

    /** The first element of a longer sequence ends in a new variable, where the next one starts. */
    method VisitFirst(q: PathSequence) returns (r: Option<Graph>)
      requires Valid() && GrammaticalSequence(q) && |q.elements| > 1
      modifies this
      ensures r.Some? <==> SupportedElt(q.elements[0])
      ensures r.Some? ==> activeSubject.Var? && old(Next()) <= activeSubject.id < Next() && Valid()
      ensures r.Some? ==> Built(r.value, old(activeSubject), activeSubject, old(Next()), Next())
      ensures r.Some? ==> MeansSequence(r.value, old(activeSubject), activeSubject, q, 1)
      decreases q, 0
    {
      hide Built, MeansSequence, MeansElt;
      assert q.elements[0] in q.elements;
      ghost var subj, lo := activeSubject, Next();
      activeObject := VariableFromBlankNode();
      var t := VisitPathEltOrInverse(q.elements[0]);
      if t.None? {
        return None;
      }
      FirstElement(t.value, subj, activeObject, q);
      activeSubject := activeObject;
      BuiltPlain(t.value, subj, activeObject, lo + 1, Next());
      NothingYet();
      PlainRooted(t.value);
      var g := CombineAndMerge(EMPTY_GRAPH, t.value);
      FirstCombined(t.value, g, subj, activeObject, lo, Next(), q);
      r := Some(g);
    }

    method VisitPathEltOrInverse(e: PathElt) returns (r: Option<Graph>)
      requires Valid() && GrammaticalElt(e)
      modifies this
      ensures r.Some? <==> SupportedElt(e)
      ensures r.Some? ==> activeSubject == old(activeSubject) && activeObject == old(activeObject)
      ensures r.Some? ==> Valid() && old(Next()) <= Next()
      ensures r.Some? ==> Built(r.value, activeSubject, activeObject, old(Next()), Next())
      ensures r.Some? ==> MeansElt(r.value, activeSubject, activeObject, e)
      decreases e, 1
    {
      hide Built, MeansElt, MeansPrimary;
      if e.inverse {
        activeSubject, activeObject := activeObject, activeSubject;
      }
      r := VisitPathElt(e);
      if r.None? {
        return;
      }
      EltMeans(r.value, activeSubject, activeObject, e, old(Next()), Next());
      if e.inverse {
        activeSubject, activeObject := activeObject, activeSubject;
      }
    }

    method VisitPathElt(e: PathElt) returns (r: Option<Graph>)
      requires Valid() && GrammaticalElt(e)
      modifies this
      ensures r.Some? <==> SupportedElt(e)
      ensures r.Some? ==> activeSubject == old(activeSubject) && activeObject == old(activeObject)
      ensures r.Some? ==> Valid() && old(Next()) <= Next()
      ensures r.Some? ==> Built(r.value, activeSubject, activeObject, old(Next()), Next())
      ensures r.Some? ==> MeansPrimary(r.value, activeSubject, activeObject, e.primary)
      decreases e, 0
    {
      hide Built;
      if e.modified {
        return None;
      }
      match e.primary {
        case NegatedPropertySet => r := None;
        case Group(path) =>
          r := VisitPath(path);
          if r.Some? {
            GroupMeans(r.value, activeSubject, activeObject, path);
          }
        case Iri(t) =>
          activePredicate := Const(t);
          var odg := new OperandDependencyGraph(EMPTY_GRAPH);
          var desc := CreateOperandFromTp(odg);
          assert odg.graph == Graph([TriplePattern(activeSubject, Const(t), activeObject)], {});
          SinglePattern(activeSubject, t, activeObject, Next());
          r := Some(odg.graph);
      }
    }
  }

  lemma NothingBuilt(subj: Node, obj: Node, lo: VarId, p: Path)
    ensures MeansAlternatives(EMPTY_GRAPH, subj, obj, p, 0)
  {
    NoBranches();
  }

  lemma BuiltSoFar(g: Graph, subj: Node, obj: Node, lo: VarId, mid: VarId)
    requires g == EMPTY_GRAPH || Built(g, subj, obj, lo, mid)
    ensures Plain(g) && BuiltAll(Branches(g), subj, obj, lo, mid)
  {
    hide BuiltBranch;
    PlainEmpty();
    NoBranches();
  }

  lemma BuiltPlain(g: Graph, subj: Node, obj: Node, lo: VarId, hi: VarId)
    requires Built(g, subj, obj, lo, hi)
    ensures Plain(g) && g.vertices != []
  {
  }

  lemma AllAlternatives(g: Graph, p: Path, a: Option<Term>, b: Option<Term>)
    requires AlternativesLives(g, p, |p.alternatives|, a, b)
    ensures PathLives(g, p, a, b)
  {
    hide LifeIs, AlternativesLife;
    var n := |p.alternatives|;
    forall store: set<Row> ensures LifeIs(store, g, PathLife(store, p, a, b)) {
      assert LifeIs(store, g, AlternativesLife(store, p, n, a, b));
    }
  }

  lemma ElementLife(g: Graph, q: PathSequence, a: Option<Term>, b: Option<Term>)
    requires q.elements != [] && EltLives(g, q.elements[0], a, b)
    ensures SequenceLives(g, q, 1, a, b)
  {
    hide LifeIs, EltLife;
    var n, e := 1, q.elements[0];
    forall store: set<Row> ensures LifeIs(store, g, SequenceLife(store, q, n, a, b)) {
      assert LifeIs(store, g, EltLife(store, e, a, b));
    }
  }

  lemma InverseLife(g: Graph, e: PathElt, a: Option<Term>, b: Option<Term>)
    requires PrimaryLives(g, e.primary, a, b)
    ensures if e.inverse then EltLives(g, e, b, a) else EltLives(g, e, a, b)
  {
    hide LifeIs, PrimaryLife;
    var p := e.primary;
    forall store: set<Row> ensures if e.inverse then LifeIs(store, g, EltLife(store, e, b, a)) else LifeIs(store, g, EltLife(store, e, a, b)) {
      assert LifeIs(store, g, PrimaryLife(store, p, a, b));
    }
  }

  lemma GroupLife(g: Graph, p: Path, a: Option<Term>, b: Option<Term>)
    requires PathLives(g, p, a, b)
    ensures PrimaryLives(g, Group(p), a, b)
  {
    hide LifeIs, PathLife;
    var group := Group(p);
    forall store: set<Row> ensures LifeIs(store, g, PrimaryLife(store, group, a, b)) {
      assert LifeIs(store, g, PathLife(store, p, a, b));
    }
  }

  /** A path in parentheses. */
  lemma GroupMeans(g: Graph, subj: Node, obj: Node, p: Path)
    requires MeansPath(g, subj, obj, p)
    ensures MeansPrimary(g, subj, obj, Group(p))
  {
    hide Branches, BranchTotal, PathCount, PathLives, PrimaryLives, SlicePart;
    GroupLife(g, p, SlicePart(subj), SlicePart(obj));
  }

  lemma AlternativesDone(g: Graph, subj: Node, obj: Node, p: Path)
    requires MeansAlternatives(g, subj, obj, p, |p.alternatives|)
    ensures MeansPath(g, subj, obj, p)
  {
    hide Branches, BranchTotal, AlternativesCount, AlternativesLives, PathLives, SlicePart;
    AllAlternatives(g, p, SlicePart(subj), SlicePart(obj));
  }

  lemma FirstElement(g: Graph, subj: Node, obj: Node, q: PathSequence)
    requires q.elements != [] && MeansElt(g, subj, obj, q.elements[0])
    ensures MeansSequence(g, subj, obj, q, 1)
  {
    hide Branches, BranchTotal, EltCount, EltLives, SequenceLives, SlicePart;
    ElementLife(g, q, SlicePart(subj), SlicePart(obj));
  }

  lemma FirstCombined(h: Graph, r: Graph, subj: Node, obj: Node, lo: VarId, hi: VarId, q: PathSequence)
    requires q.elements != [] && Built(h, subj, obj, lo + 1, hi) && MeansSequence(h, subj, obj, q, 1)
    requires Plain(r) && r.vertices != [] && Branches(r) == JoinedBranches(EMPTY_GRAPH, h)
    ensures Built(r, subj, obj, lo, hi) && MeansSequence(r, subj, obj, q, 1)
  {
    hide Plain, Branches, BranchTotal;
    BuiltWider(Branches(h), subj, obj, lo + 1, hi, lo, hi);
  }

  lemma InverseBuilt(branches: seq<seq<Vertex>>, subj: Node, obj: Node, lo: VarId, hi: VarId)
    requires BuiltAll(branches, subj, obj, lo, hi)
    ensures BuiltAll(branches, obj, subj, lo, hi)
  {
    hide DataVars, Free;
    assert NodeVars(subj) + NodeVars(obj) == NodeVars(obj) + NodeVars(subj);
    forall b | b in branches ensures BuiltBranch(b, obj, subj, lo, hi) {
      forall i | 0 <= i < |b| ensures PatternOk(b[i], obj, subj) {
        assert PatternOk(b[i], subj, obj);
      }
    }
  }

  lemma {:induction false} InverseTotal(store: set<Row>, branches: seq<seq<Vertex>>, subj: Node, obj: Node, s: Term, o: Term)
    ensures BranchTotal(store, branches, subj, obj, s, o) == BranchTotal(store, branches, obj, subj, o, s)
  {
    hide BranchJoin;
    if branches != [] {
      InverseTotal(store, Init(branches), subj, obj, s, o);
      assert EndSet(store, Last(branches), subj, obj, s, o) == EndSet(store, Last(branches), obj, subj, o, s);
    }
  }

  /** An element as seen from its ends, which its visit swapped if it is inverse. */
  lemma EltMeans(g: Graph, subj: Node, obj: Node, e: PathElt, lo: VarId, hi: VarId)
    requires Built(g, subj, obj, lo, hi) && MeansPrimary(g, subj, obj, e.primary)
    ensures e.inverse ==> Built(g, obj, subj, lo, hi) && MeansElt(g, obj, subj, e)
    ensures !e.inverse ==> MeansElt(g, subj, obj, e)
  {
    hide Plain, Branches, BranchTotal, BuiltAll, PrimaryLives, EltLives, SlicePart;
    InverseLife(g, e, SlicePart(subj), SlicePart(obj));
    if e.inverse {
      InverseBuilt(Branches(g), subj, obj, lo, hi);
      forall store: set<Row>, s: Term, o: Term | Consistent(obj, subj, s, o)
        ensures BranchTotal(store, Branches(g), obj, subj, s, o) == EltCount(store, e, s, o)
      {
        InverseTotal(store, Branches(g), obj, subj, s, o);
        assert Consistent(subj, obj, o, s);
      }
    }
  }
}
