/**
 A property path compiled and evaluated: the counts that come out are the
 multiplicities of the path.
 */
module PathQuery {
  import opened Reachability
  import opened Graphs
  import opened Tries
  import opened Semantics
  import opened Projection
  import opened EngineFacts
  import opened EngineSteps
  import opened Selections
  import opened CountElimination
  import opened Preparation
  import opened GraphUnions
  import opened BranchBags
  import opened BranchLives
  import opened PathMeaning
  import opened PathCompiler
  import opened Evaluation
  import opened JoinQuery

  /** The variables of the ends, each once. */
  function EndVars(subj: Node, obj: Node): (r: seq<VarId>)
    ensures Elements(r) == NodeVars(subj) + NodeVars(obj) && Distinct(r)
  {
    if subj == obj then VarPart(subj) else VarPart(subj) + VarPart(obj)
  }

  /** The key of a solution that connects s to o. */
  function EndKey(subj: Node, obj: Node, s: Term, o: Term): (k: Key)
    ensures |k| == |EndVars(subj, obj)|
  {
    var a := if subj.Var? then [Some(s)] else [];
    if subj == obj then a else a + if obj.Var? then [Some(o)] else []
  }

  lemma EndKeyOf(subj: Node, obj: Node, s: Term, o: Term, m: Binding)
    requires Consistent(subj, obj, s, o) && NodeVars(subj) + NodeVars(obj) <= m.Keys
    ensures var tracked := EndVars(subj, obj);
            KeyOf(tracked, UnboundKey(|tracked|), m) == EndKey(subj, obj, s, o) <==> Ends(m, subj, obj, s, o)
  {
    var tracked := EndVars(subj, obj);
    var k, e := KeyOf(tracked, UnboundKey(|tracked|), m), EndKey(subj, obj, s, o);
    if subj.Var? {
      assert tracked[0] == subj.id && subj.id in NodeVars(subj);
      assert k[0] == Some(m[subj.id]) && e[0] == Some(s);
    }
    if obj.Var? && subj != obj {
      var i := if subj.Var? then 1 else 0;
      assert tracked[i] == obj.id && obj.id in NodeVars(obj);
      assert k[i] == Some(m[obj.id]) && e[i] == Some(o);
    }
    if Ends(m, subj, obj, s, o) {
      assert k == e;
    }
  }

  /** The solutions of a branch that project to a key are those with these ends. */
  lemma BranchMatching(store: set<Row>, vs: seq<Vertex>, subj: Node, obj: Node, lo: VarId, hi: VarId, s: Term, o: Term)
    requires BuiltBranch(vs, subj, obj, lo, hi) && Consistent(subj, obj, s, o)
    ensures var tracked := EndVars(subj, obj);
            Matching(vs, SlicesOf(store, vs), tracked, UnboundKey(|tracked|), EndKey(subj, obj, s, o))
            == EndSet(store, vs, subj, obj, s, o)
  {
    hide Matching, DataVars, Ends, EndKey, Free;
    var tracked := EndVars(subj, obj);
    var ops, c, k := SlicesOf(store, vs), UnboundKey(|tracked|), EndKey(subj, obj, s, o);
    forall m ensures m in Matching(vs, ops, tracked, c, k) <==> m in EndSet(store, vs, subj, obj, s, o) {
      MatchingIff(vs, ops, tracked, c, k, m);
      NaiveJoinIff(vs, ops, m);
      NoFilters(vs, subj, obj, lo, hi, AsBinding(tracked, c), m);
      if m.Keys == DataVars(vs) {
        EndKeyOf(subj, obj, s, o, m);
      }
    }
  }

  lemma NoFilters(vs: seq<Vertex>, subj: Node, obj: Node, lo: VarId, hi: VarId, base: Binding, m: Binding)
    requires BuiltBranch(vs, subj, obj, lo, hi)
    ensures PassesAll(vs, base, m)
  {
    forall i | 0 <= i < |vs| ensures vs[i].Operand? {
      assert PatternOk(vs[i], subj, obj);
    }
  }

  lemma BuiltInit(branches: seq<seq<Vertex>>, subj: Node, obj: Node, lo: VarId, hi: VarId)
    requires BuiltAll(branches, subj, obj, lo, hi) && branches != []
    ensures BuiltAll(Init(branches), subj, obj, lo, hi) && BuiltBranch(Last(branches), subj, obj, lo, hi)
  {
    hide BuiltBranch;
    InInit(branches);
  }

  /** The number of solutions of the graph with given ends, counted by branch. */
  lemma {:induction false} CountBranches(store: set<Row>, g: Graph, parts: seq<seq<nat>>, branches: seq<seq<Vertex>>,
                                         subj: Node, obj: Node, lo: VarId, hi: VarId, s: Term, o: Term)
    requires BuiltAll(branches, subj, obj, lo, hi) && Consistent(subj, obj, s, o) && BranchesOf(g, parts, branches)
    ensures forall p :: p in parts ==> Indices(p, |g.vertices|)
    ensures var tracked := EndVars(subj, obj);
            BagCount(g.vertices, SlicesOf(store, g.vertices), parts, tracked, UnboundKey(|tracked|), EndKey(subj, obj, s, o))
            == BranchTotal(store, branches, subj, obj, s, o)
    decreases |parts|
  {
    hide Matching, EndSet, BuiltAll, BuiltBranch, BranchesOf, Consistent, BagCount, BranchTotal, EndVars, EndKey, SlicesOf, Pick;
    BranchesIndices(g, parts, branches);
    var tracked := EndVars(subj, obj);
    var ops, c, k := SlicesOf(store, g.vertices), UnboundKey(|tracked|), EndKey(subj, obj, s, o);
    if parts == [] {
      NoParts(g.vertices, ops, tracked, c, k);
      NoTotal(store, subj, obj, s, o);
    } else {
      BranchesInit(g, parts, branches);
      BuiltInit(branches, subj, obj, lo, hi);
      CountBranches(store, g, Init(parts), Init(branches), subj, obj, lo, hi, s, o);
      BranchMatching(store, Last(branches), subj, obj, lo, hi, s, o);
      SlicesPick(store, g.vertices, Last(parts));
      BagSnoc(g.vertices, ops, Init(parts), Last(parts), tracked, c, k);
      BranchTotalLast(store, branches, subj, obj, s, o);
    }
  }

  lemma GraphCountIs(store: set<Row>, g: Graph, subj: Node, obj: Node, lo: VarId, hi: VarId, s: Term, o: Term)
    requires Built(g, subj, obj, lo, hi) && Consistent(subj, obj, s, o)
    ensures var tracked := EndVars(subj, obj);
            GraphCount(g, SlicesOf(store, g.vertices), tracked, UnboundKey(|tracked|), EndKey(subj, obj, s, o))
            == BranchTotal(store, Branches(g), subj, obj, s, o)
  {
    hide Plain, BuiltAll, BagCount, BranchTotal, Consistent, UnionParts;
    BranchesAre(g);
    CountBranches(store, g, UnionParts(g), Branches(g), subj, obj, lo, hi, s, o);
  }

  /* ---------- the compiled graph can be evaluated ---------- */

  lemma VertexOk(g: Graph, subj: Node, obj: Node, lo: VarId, hi: VarId, i: nat)
    requires Built(g, subj, obj, lo, hi) && i < |g.vertices|
    ensures PatternOk(g.vertices[i], subj, obj)
  {
    hide Plain, PatternOk;
    var p := ComponentsCover(ArcsOf(g.edges), |g.vertices|, i);
    var j :| 0 <= j < |UnionParts(g)| && UnionParts(g)[j] == p;
    assert Branches(g)[j] in Branches(g);
    var k :| 0 <= k < |p| && p[k] == i;
    assert Branches(g)[j][k] == g.vertices[i];
  }

  lemma BuiltQuery(store: set<Row>, g: Graph, subj: Node, obj: Node, lo: VarId, hi: VarId)
    requires Built(g, subj, obj, lo, hi)
    ensures PatternsFit(g.vertices) && Query(g, SlicesOf(store, g.vertices), EndVars(subj, obj))
  {
    BuiltPlain(g, subj, obj, lo, hi);
    hide BuiltAll, Plain, Built, QueryVertex;
    var tracked := EndVars(subj, obj);
    forall i: nat | i < |g.vertices| ensures QueryVertex(g.vertices[i], tracked) {
      VertexOk(g, subj, obj, lo, hi, i);
      OkQuery(g.vertices[i], subj, obj);
    }
    VerticesQuery(store, g, tracked);
  }

  lemma OkQuery(v: Vertex, subj: Node, obj: Node)
    requires PatternOk(v, subj, obj)
    ensures QueryVertex(v, EndVars(subj, obj))
  {
    hide Free;
    var tracked := EndVars(subj, obj);
    forall x | x !in tracked ensures multiset(v.vars)[x] <= 1 {
      assert subj == Var(x) ==> x in Elements(tracked);
    }
  }

  /** With a variable end no pattern of the graph lacks variables. */
  lemma BuiltHarmless(g: Graph, ops: seq<Trie>, subj: Node, obj: Node, lo: VarId, hi: VarId)
    requires Built(g, subj, obj, lo, hi) && (subj.Var? || obj.Var?)
    ensures ScalarsHarmless(g, ops)
  {
    hide BuiltAll, Plain;
    forall p, q | p in UnionParts(g) && q in UnionParts(g) ensures !BothAlive(g, ops, p, q) {
      PartShape(g, p);
      VertexOk(g, subj, obj, lo, hi, p[0]);
    }
  }

  /** The values yielded for the ends s and o sum to the number of times the path connects them. */
  ghost predicate PathCounted(p: Path, store: set<Row>, subj: Node, obj: Node, ys: seq<CountedEntry>) {
    forall s: Term, o: Term :: Consistent(subj, obj, s, o) ==>
      Total(ys, EndKey(subj, obj, s, o)) == PathCount(store, p, s, o)
  }

  /** What the evaluation counts for every key. */
  ghost predicate GraphCounted(g: Graph, store: set<Row>, tracked: seq<VarId>, ys: seq<CountedEntry>) {
    forall k: Key :: |k| == |tracked| ==>
      Total(ys, k) == GraphCount(g, SlicesOf(store, g.vertices), tracked, UnboundKey(|tracked|), k)
  }

  /** The count of the graph at the ends is the multiplicity of the path. */
  lemma CountedAt(p: Path, store: set<Row>, g: Graph, subj: Node, obj: Node, lo: VarId, hi: VarId, s: Term, o: Term)
    requires Built(g, subj, obj, lo, hi) && MeansPath(g, subj, obj, p) && Consistent(subj, obj, s, o)
    ensures var tracked := EndVars(subj, obj);
            GraphCount(g, SlicesOf(store, g.vertices), tracked, UnboundKey(|tracked|), EndKey(subj, obj, s, o))
            == PathCount(store, p, s, o)
  {
    hide *;
    GraphCountIs(store, g, subj, obj, lo, hi, s, o);
    PathMeansAt(g, subj, obj, p, store, s, o);
  }

  lemma CountedForth(p: Path, store: set<Row>, g: Graph, subj: Node, obj: Node, lo: VarId, hi: VarId, ys: seq<CountedEntry>)
    requires Built(g, subj, obj, lo, hi) && MeansPath(g, subj, obj, p) && GraphCounted(g, store, EndVars(subj, obj), ys)
    ensures PathCounted(p, store, subj, obj, ys)
  {
    hide Built, MeansPath, GraphCount, PathCount, Total, Consistent, EndKey, EndVars, SlicesOf;
    forall s: Term, o: Term | Consistent(subj, obj, s, o)
      ensures Total(ys, EndKey(subj, obj, s, o)) == PathCount(store, p, s, o)
    {
      CountedAt(p, store, g, subj, obj, lo, hi, s, o);
    }
  }

  /** Between constants there is one key only. */
  lemma CountedBack(p: Path, store: set<Row>, g: Graph, subj: Node, obj: Node, lo: VarId, hi: VarId, ys: seq<CountedEntry>)
    requires Built(g, subj, obj, lo, hi) && MeansPath(g, subj, obj, p) && subj.Const? && obj.Const?
    requires PathCounted(p, store, subj, obj, ys)
    ensures GraphCounted(g, store, EndVars(subj, obj), ys)
  {
    hide Built, MeansPath, GraphCount, PathCount, Total, SlicesOf;
    var s, o := subj.term, obj.term;
    assert Consistent(subj, obj, s, o);
    CountedAt(p, store, g, subj, obj, lo, hi, s, o);
    forall k: Key | |k| == |EndVars(subj, obj)| ensures k == EndKey(subj, obj, s, o) {
    }
  }

  /**
   Between its ends the path has no live branch of one stored triple only, or no
   other live branch beside it.
   */
  ghost predicate PathHarmless(p: Path, store: set<Row>, subj: Node, obj: Node) {
    var life := PathLife(store, p, SlicePart(subj), SlicePart(obj));
    life.scalars == 0 || life.live == 1
  }

  /** The condition on the compiled graph is one on the path, the store and the ends. */
  lemma HarmlessPath(p: Path, store: set<Row>, g: Graph, subj: Node, obj: Node)
    requires MeansPath(g, subj, obj, p)
    ensures ScalarsHarmless(g, SlicesOf(store, g.vertices)) <==> PathHarmless(p, store, subj, obj)
  {
    LifeOf(p, store, g, subj, obj);
    hide ScalarsHarmless, SlicesOf, BranchesHarmless, Branches, PathLife, SlicePart, LiveNumber, ScalarNumber, MeansPath;
    HarmlessIs(store, g);
    HarmlessExactly(store, Branches(g));
  }

  lemma LifeOf(p: Path, store: set<Row>, g: Graph, subj: Node, obj: Node)
    requires MeansPath(g, subj, obj, p)
    ensures LifeIs(store, g, PathLife(store, p, SlicePart(subj), SlicePart(obj)))
  {
    hide LifeIs, PathLife, SlicePart, SizeIs, BranchTotal, PathCount;
  }

  /**
   Compiles a path and evaluates it over a store. The values yielded for each
   pair of ends sum to the number of times the path connects them, exactly when
   its patterns without variables are harmless; with a variable end they always
   are. Between constants one is missing for each live branch of a single triple,
   if there is another live branch, and one is left if there are only such.
   */
  method EvaluatePath(p: Path, store: set<Row>, subj: Node, obj: Node, firstFresh: VarId)
    returns (ys: Option<seq<CountedEntry>>)
    requires Grammatical(p) && NO_VAR < firstFresh && KnownNode(subj, firstFresh) && KnownNode(obj, firstFresh)
    requires Supported(p) ==> PathSize(p).patterns < 0x100
    ensures ys.Some? <==> forall e :: e in AllElements(p) ==> !e.modified && !e.primary.NegatedPropertySet?
    ensures ys.Some? ==> (PathCounted(p, store, subj, obj, ys.value) <==> PathHarmless(p, store, subj, obj))
    ensures ys.Some? && (subj.Var? || obj.Var?) ==> PathCounted(p, store, subj, obj, ys.value)
    ensures var life := PathLife(store, p, SlicePart(subj), SlicePart(obj));
            ys.Some? && subj.Const? && obj.Const? ==>
              Total(ys.value, []) == if life.scalars == 0 then PathCount(store, p, subj.term, obj.term)
                                     else if life.scalars == life.live then 1
                                     else PathCount(store, p, subj.term, obj.term) - life.scalars
  {
    SupportedExactly(p);
    var visitor := new QueryUpdateVisitor(subj, obj, firstFresh);
    assert visitor.Next() == firstFresh;
    hide *;
    var compiled := visitor.VisitPath(p);
    if compiled.None? {
      return None;
    }
    var r := compiled.value;
    ghost var hi := visitor.Next();
    var entries := EvaluateBuilt(p, r, store, subj, obj, firstFresh, hi);
    ys := Some(entries);
  }

  /** Evaluates the graph of a path. */
  method EvaluateBuilt(ghost p: Path, g: Graph, store: set<Row>, subj: Node, obj: Node, ghost lo: VarId, ghost hi: VarId)
    returns (ys: seq<CountedEntry>)
    requires Built(g, subj, obj, lo, hi) && MeansPath(g, subj, obj, p) && PathSize(p).patterns < 0x100
    ensures PathCounted(p, store, subj, obj, ys) <==> PathHarmless(p, store, subj, obj)
    ensures subj.Var? || obj.Var? ==> PathCounted(p, store, subj, obj, ys)
    ensures var life := PathLife(store, p, SlicePart(subj), SlicePart(obj));
            subj.Const? && obj.Const? ==>
              Total(ys, []) == if life.scalars == 0 then PathCount(store, p, subj.term, obj.term)
                               else if life.scalars == life.live then 1
                               else PathCount(store, p, subj.term, obj.term) - life.scalars
  {
    hide *;
    BuiltQuery(store, g, subj, obj, lo, hi);
    PathFits(g, subj, obj, p);
    var ops := GenerateQueryOperands(g, store);
    SameSlices(g, store, ops);
    ys := Evaluate(g, ops, EndVars(subj, obj), ByOperand);
    GraphCountedIs(g, store, EndVars(subj, obj), ys);
    CountedExactly(p, store, g, subj, obj, lo, hi, ys);
    if subj.Const? && obj.Const? {
      ConstantEnds(p, store, g, subj, obj, lo, hi, ys);
    }
  }

  /** The path is counted exactly if it is harmless, as it is with a variable end. */
  lemma CountedExactly(p: Path, store: set<Row>, g: Graph, subj: Node, obj: Node, lo: VarId, hi: VarId, ys: seq<CountedEntry>)
    requires Built(g, subj, obj, lo, hi) && MeansPath(g, subj, obj, p)
    requires GraphCounted(g, store, EndVars(subj, obj), ys) <==> ScalarsHarmless(g, SlicesOf(store, g.vertices))
    ensures PathCounted(p, store, subj, obj, ys) <==> PathHarmless(p, store, subj, obj)
    ensures subj.Var? || obj.Var? ==> PathCounted(p, store, subj, obj, ys)
  {
    hide *;
    HarmlessPath(p, store, g, subj, obj);
    if GraphCounted(g, store, EndVars(subj, obj), ys) {
      CountedForth(p, store, g, subj, obj, lo, hi, ys);
    }
    if subj.Var? || obj.Var? {
      BuiltHarmless(g, SlicesOf(store, g.vertices), subj, obj, lo, hi);
    } else if PathCounted(p, store, subj, obj, ys) {
      CountedBack(p, store, g, subj, obj, lo, hi, ys);
    }
  }

  lemma ConstantEnds(p: Path, store: set<Row>, g: Graph, subj: Node, obj: Node, lo: VarId, hi: VarId, ys: seq<CountedEntry>)
    requires Built(g, subj, obj, lo, hi) && MeansPath(g, subj, obj, p) && subj.Const? && obj.Const?
    requires var ops, tracked := SlicesOf(store, g.vertices), EndVars(subj, obj); var c := UnboundKey(|tracked|);
             && (forall k: Key :: |k| == |tracked| && (k != c || ScalarParts(g, ops) == {}) ==> Total(ys, k) == GraphCount(g, ops, tracked, c, k))
             && (ScalarParts(g, ops) != {} ==>
                   Total(ys, c) == if |ScalarParts(g, ops)| == |AliveParts(g, ops)| then 1
                                   else GraphCount(g, ops, tracked, c, c) - |ScalarParts(g, ops)|)
    ensures var life := PathLife(store, p, SlicePart(subj), SlicePart(obj));
            Total(ys, []) == if life.scalars == 0 then PathCount(store, p, subj.term, obj.term)
                             else if life.scalars == life.live then 1
                             else PathCount(store, p, subj.term, obj.term) - life.scalars
  {
    LifeOf(p, store, g, subj, obj);
    assert EndVars(subj, obj) == [] && EndKey(subj, obj, subj.term, obj.term) == [] && UnboundKey(0) == [];
    assert Consistent(subj, obj, subj.term, obj.term);
    hide Built, MeansPath, PathLife, SlicePart, ScalarParts, AliveParts, GraphCount, Total, PathCount, SlicesOf, EndVars, EndKey, LiveNumber, ScalarNumber, Branches;
    PartNumbers(store, g);
    CountedAt(p, store, g, subj, obj, lo, hi, subj.term, obj.term);
  }

  lemma GraphCountedIs(g: Graph, store: set<Row>, tracked: seq<VarId>, ys: seq<CountedEntry>)
    ensures GraphCounted(g, store, tracked, ys) <==>
            forall k: Key :: |k| == |tracked| ==>
              Total(ys, k) == GraphCount(g, SlicesOf(store, g.vertices), tracked, UnboundKey(|tracked|), k)
  {
  }

  /** The graph has as many vertices as the path has patterns. */
  lemma PathFits(g: Graph, subj: Node, obj: Node, p: Path)
    requires MeansPath(g, subj, obj, p)
    ensures |g.vertices| == PathSize(p).patterns
  {
    hide Branches, BranchTotal, PathCount, PathSize;
    BranchesHold(g);
  }

  lemma PathMeansAt(g: Graph, subj: Node, obj: Node, p: Path, store: set<Row>, s: Term, o: Term)
    requires MeansPath(g, subj, obj, p) && Consistent(subj, obj, s, o)
    ensures BranchTotal(store, Branches(g), subj, obj, s, o) == PathCount(store, p, s, o)
  {
  }

}
