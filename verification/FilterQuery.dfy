/**
 FILTER: what the filters of a group mean in the graph that is built, and in
 the entries that come out.
 */
module FilterQuery {
  import opened Graphs
  import opened Tries
  import opened Semantics
  import opened Projection
  import opened CountElimination
  import opened Counting
  import opened Preparation
  import opened GraphBuilder
  import opened GraphUnions
  import opened SourceComponents
  import opened BranchBags
  import opened BranchLives
  import opened UnionNormalForm
  import opened FilterScopes
  import opened LeafProof
  import opened ProductProof
  import opened PathMeaning
  import opened PathCompiler
  import opened Evaluation
  import opened JoinQuery

  /* ---------- the graph of a filter ---------- */

  ghost predicate FiltersOnly(vs: seq<Vertex>) {
    forall i :: 0 <= i < |vs| ==> vs[i].FilterVertex?
  }

  /** The graph of a FILTER: its conjuncts, mutually dependent. */
  method VisitFilter(conjuncts: seq<Vertex>) returns (r: Graph)
    requires conjuncts != [] && ProperVars(conjuncts)
    ensures r == Complete(conjuncts) && r.vertices == conjuncts && Plain(r) && Clique(r)
  {
    hide Plain, Clique, Complete;
    var odg := new OperandDependencyGraph(EMPTY_GRAPH);
    for i := 0 to |conjuncts|
      invariant odg.graph == Graph(conjuncts[..i], {})
    {
      var desc := odg.AddVertex(conjuncts[i]);
      assert conjuncts[..i + 1] == conjuncts[..i] + [conjuncts[i]];
    }
    assert conjuncts[..|conjuncts|] == conjuncts;
    CompleteVertices(conjuncts);
    CompletePlain(conjuncts);
    if |conjuncts| > 1 {
      CreateDependenciesBetweenOperands(odg);
    }
    r := odg.graph;
  }

  lemma CompleteVertices(vs: seq<Vertex>)
    ensures Complete(vs) == Graph(vs, {} + Complete(vs).edges)
    ensures |vs| == 1 ==> Complete(vs) == Graph(vs, {})
  {
    hide Dependencies;
  }

  /* ---------- what a filter means ---------- */

  lemma {:induction false} NoDataVars(vs: seq<Vertex>)
    requires FiltersOnly(vs)
    ensures DataVars(vs) == {}
  {
  }

  lemma {:induction false} FiltersJoin(store: set<Row>, vs: seq<Vertex>)
    requires FiltersOnly(vs)
    ensures map[] in BranchJoin(store, vs)
  {
    var ops := SlicesOf(store, vs);
    NoDataVars(vs);
    hide DataVars, NaiveJoin, SlicesOf;
    assert SatJoin(vs, ops, map[]);
    NaiveJoinIff(vs, ops, map[]);
  }

  /** A branch with filters keeps the solutions that pass them. */
  lemma FilteredSols(store: set<Row>, u: seq<Vertex>, fs: seq<Vertex>, m: Binding)
    requires FiltersOnly(fs)
    ensures m in BranchSols(store, u + fs) <==> m in BranchSols(store, u) && PassesAll(fs, map[], m)
  {
    hide *;
    SolsOfJoin(store, u, m);
    PairSolsLate(store, u, fs, m);
    NoDataVars(fs);
    FiltersJoin(store, fs);
    RestrictNone(m);
    if m in BranchJoin(store, u) {
      BranchJoinKeys(store, u, m);
    }
    if m.Keys == DataVars(u) {
      RestrictAll(m);
    }
  }

  lemma RestrictNone(m: Binding)
    ensures Restrict(m, {}) == map[]
  {
  }

  lemma RestrictAll(m: Binding)
    ensures Restrict(m, m.Keys) == m
  {
  }

  /** The filters added to every branch; beside no branch they are one. */
  ghost function Filtered(branches: seq<seq<Vertex>>, fs: seq<Vertex>): seq<seq<Vertex>> {
    if fs == [] then branches else if branches == [] then [fs] else Pairings(branches, [fs])
  }

  lemma PairedOne(a: seq<seq<Vertex>>, fs: seq<Vertex>)
    ensures a == [] ==> Pairings(a, [fs]) == []
    ensures a != [] ==> Pairings(a, [fs]) == Pairings(Init(a), [fs]) + [Last(a) + fs]
  {
    PairingsLast(a, [fs]);
    assert PairingsWith(if a == [] then [] else Last(a), [fs]) == [(if a == [] then [] else Last(a)) + fs];
  }

  lemma {:induction false} PairedBag(store: set<Row>, a: seq<seq<Vertex>>, fs: seq<Vertex>, m: Binding)
    requires FiltersOnly(fs)
    ensures BranchBag(store, Pairings(a, [fs]))[m] == if PassesAll(fs, map[], m) then BranchBag(store, a)[m] else 0
    decreases |a|
  {
    hide *;
    PairedOne(a, fs);
    if a == [] {
      NoBag(store);
    } else {
      PairedBag(store, Init(a), fs, m);
      FilteredSols(store, Last(a), fs, m);
      InInit(a);
      BranchBagLast(store, Init(a), Last(a));
      BranchBagLast(store, Pairings(Init(a), [fs]), Last(a) + fs);
    }
  }

  lemma LoneBag(store: set<Row>, fs: seq<Vertex>, m: Binding)
    requires FiltersOnly(fs)
    ensures BranchBag(store, [fs])[m] == if PassesAll(fs, map[], m) then multiset{map[]}[m] else 0
  {
    hide *;
    NoBag(store);
    BranchBagLast(store, [], fs);
    assert [] + [fs] == [fs] && [] + fs == fs;
    FilteredSols(store, [], fs, m);
    EmptySols(store, m);
  }

  lemma EmptySols(store: set<Row>, m: Binding)
    ensures m in BranchSols(store, []) <==> m == map[]
  {
    assert NaiveJoin([], SlicesOf(store, [])) == {map[]};
  }

  /** The bag of a group with filters: what passes them, as often as the group has it. */
  lemma FilteredBag(store: set<Row>, group: Graph, fs: seq<Vertex>, r: Graph, m: Binding)
    requires FiltersOnly(fs) && Branches(r) == Filtered(Branches(group), fs)
    requires r.vertices == [] <==> group.vertices == [] && fs == []
    ensures GraphBag(store, r)[m] == if PassesAll(fs, map[], m) then GraphBag(store, group)[m] else 0
  {
    hide Branches, BranchBag, PassesAll, Pairings;
    if fs == [] {
      PassesNone(m);
    } else if group.vertices == [] {
      EmptySides(group);
      LoneBag(store, fs, m);
    } else {
      SomeBranches(group);
      PairedBag(store, Branches(group), fs, m);
    }
  }

  lemma PassesNone(m: Binding)
    ensures PassesAll([], map[], m)
  {
  }

  lemma SomeBranches(g: Graph)
    requires g.vertices != []
    ensures Branches(g) != []
  {
    SomeBranch(g);
  }

  /* ---------- all filters of a group ---------- */

  function Conjuncts(filters: seq<seq<Vertex>>): (fs: seq<Vertex>) {
    if filters == [] then [] else Conjuncts(Init(filters)) + Last(filters)
  }

  /** Conjunctions of filters. */
  ghost predicate FilterList(filters: seq<seq<Vertex>>) {
    forall i :: 0 <= i < |filters| ==> filters[i] != [] && FiltersOnly(filters[i]) && ProperVars(filters[i])
  }

  lemma ConjunctsStep(filters: seq<seq<Vertex>>, i: nat)
    requires i < |filters| && FilterList(filters)
    ensures Conjuncts(filters[..i + 1]) == Conjuncts(filters[..i]) + filters[i] && Conjuncts(filters[..i + 1]) != []
  {
    assert Init(filters[..i + 1]) == filters[..i];
  }

  lemma {:induction false} ConjunctsAre(filters: seq<seq<Vertex>>)
    requires FilterList(filters)
    ensures FiltersOnly(Conjuncts(filters)) && (Conjuncts(filters) == [] <==> filters == [])
    decreases |filters|
  {
    if filters != [] {
      ConjunctsAre(Init(filters));
    }
  }

  lemma {:induction false} PairedTwice(a: seq<seq<Vertex>>, u: seq<Vertex>, w: seq<Vertex>)
    ensures Pairings(Pairings(a, [u]), [w]) == Pairings(a, [u + w])
    decreases |a|
  {
    hide *;
    PairedOne(a, u);
    PairedOne(a, u + w);
    PairedOne(Pairings(a, [u]), w);
    if a != [] {
      PairedTwice(Init(a), u, w);
      Snoc(Pairings(Init(a), [u]), Last(a) + u);
      assert Last(a) + u + w == Last(a) + (u + w);
    }
  }

  lemma Snoc<T>(s: seq<T>, x: T)
    ensures Init(s + [x]) == s && Last(s + [x]) == x
  {
  }

  /** One more filter. */
  lemma FilterStep(group: Graph, before: Graph, done: seq<Vertex>, conjuncts: seq<Vertex>, filter: Graph, r: Graph)
    requires Branches(before) == Filtered(Branches(group), done)
    requires before.vertices == [] <==> group.vertices == [] && done == []
    requires conjuncts != [] && filter.vertices == conjuncts && Clique(filter)
    requires Branches(r) == JoinedBranches(before, filter)
    ensures Branches(r) == Filtered(Branches(group), done + conjuncts)
  {
    hide Branches, Pairings, Clique;
    CliqueBranches(filter);
    if before.vertices == [] {
      EmptySides(group);
      assert done + conjuncts == conjuncts;
    } else if done == [] {
      SomeBranches(before);
      assert done + conjuncts == conjuncts;
    } else if Branches(group) == [] {
      PairedOne([done], conjuncts);
      PairedOne([], conjuncts);
      assert Init([done]) == [] && [] + [done + conjuncts] == [done + conjuncts];
    } else {
      PairedTwice(Branches(group), done, conjuncts);
    }
  }

  /**
   The filters of a group, combined with its graph one after the other: the
   solutions of the group that pass all of them remain, as often as they were.
   */
  method AddFilters(group: Graph, filters: seq<seq<Vertex>>) returns (r: Graph)
    requires Plain(group) && FilterList(filters)
    ensures Plain(r) && (r.vertices == [] <==> group.vertices == [] && filters == [])
    ensures Branches(r) == Filtered(Branches(group), Conjuncts(filters))
    ensures forall store: set<Row>, m: Binding ::
              GraphBag(store, r)[m] == if PassesAll(Conjuncts(filters), map[], m) then GraphBag(store, group)[m] else 0
  {
    hide Plain, Branches, Conjuncts, Filtered, Clique, JoinedBranches, JoinsBags, GraphBag, PassesAll, Rooted, FiltersOnly, ProperVars, Complete, JoinedGraph, GraphsJoin, JoinedBag, AllScoped;
    NoConjuncts(group);
    r := group;
    for i := 0 to |filters|
      invariant Plain(r) && Branches(r) == Filtered(Branches(group), Conjuncts(filters[..i]))
      invariant r.vertices == [] <==> group.vertices == [] && i == 0
      invariant Conjuncts(filters[..i]) == [] <==> i == 0
    {
      var filter := VisitFilter(filters[i]);
      PlainRooted(r);
      PlainRooted(filter);
      ghost var before := r;
      r := CombineAndMerge(r, filter);
      FilterStep(group, before, Conjuncts(filters[..i]), filters[i], filter, r);
      ConjunctsStep(filters, i);
    }
    assert filters[..|filters|] == filters;
    ConjunctsAre(filters);
    forall store: set<Row>, m: Binding
      ensures GraphBag(store, r)[m] == if PassesAll(Conjuncts(filters), map[], m) then GraphBag(store, group)[m] else 0
    {
      FilteredBag(store, group, Conjuncts(filters), r, m);
    }
  }

  lemma NoConjuncts(group: Graph)
    ensures Conjuncts([]) == [] && Branches(group) == Filtered(Branches(group), [])
  {
  }

  /* ---------- filtered and evaluated ---------- */

  /** Passes the filters and projects to k. */
  ghost function PassesWithKey(fs: seq<Vertex>, tracked: seq<VarId>, k: Key): Binding -> bool {
    (m: Binding) => PassesAll(fs, map[], m) && HasKey(tracked, k)(m)
  }

  /** The values yielded for each key count the solutions of the group that pass its filters and project to it. */
  ghost predicate FilterCounted(store: set<Row>, group: Graph, fs: seq<Vertex>, tracked: seq<VarId>, ys: seq<CountedEntry>) {
    forall k: Key :: |k| == |tracked| ==> Total(ys, k) == SizeWhere(GraphBag(store, group), PassesWithKey(fs, tracked, k))
  }

  lemma PassingSize(a: multiset<Binding>, b: multiset<Binding>, fs: seq<Vertex>, tracked: seq<VarId>, k: Key)
    requires forall m :: a[m] == if PassesAll(fs, map[], m) then b[m] else 0
    ensures SizeWhere(a, HasKey(tracked, k)) == SizeWhere(b, PassesWithKey(fs, tracked, k))
  {
    hide PassesAll, HasKey;
    var f, g := Weight(a, HasKey(tracked, k)), Weight(b, PassesWithKey(fs, tracked, k));
    assert forall m :: f(m) == g(m);
    SumOverSame(Support(b), f, g);
    SumOverWider(Support(a), Support(b), f);
  }

  lemma FilteredVertices(group: Graph, fs: seq<Vertex>, r: Graph, ok: Vertex -> bool)
    requires Branches(r) == Filtered(Branches(group), fs) && AllOf(group.vertices, ok) && AllOf(fs, ok)
    ensures AllOf(r.vertices, ok)
  {
    hide AllOf, Branches, Pairings;
    BranchVertices(group, ok);
    BranchVertices(r, ok);
    PairingsVertices(Branches(group), [fs], ok);
  }

  lemma FilteredQuery(group: Graph, fs: seq<Vertex>, r: Graph, tracked: seq<VarId>)
    requires Branches(r) == Filtered(Branches(group), fs)
    requires QueryVertices(group.vertices, tracked) && QueryVertices(fs, tracked) && FiltersOnly(fs)
    ensures QueryVertices(r.vertices, tracked) && DataVars(r.vertices) <= DataVars(group.vertices)
  {
    hide Branches, Filtered, QueryVertex;
    FilteredVertices(group, fs, r, (v: Vertex) => QueryVertex(v, tracked));
    var ok := (v: Vertex) => v.Operand? ==> Elements(v.vars) <= DataVars(group.vertices);
    FilteredVertices(group, fs, r, ok);
    forall x | x in DataVars(r.vertices) ensures x in DataVars(group.vertices) {
      var i :| 0 <= i < |r.vertices| && r.vertices[i].Operand? && x in r.vertices[i].vars;
      assert ok(r.vertices[i]);
    }
  }

  /** A branch with a filter is not a branch of patterns only. */
  lemma FilteredHarmless(store: set<Row>, branches: seq<seq<Vertex>>, fs: seq<Vertex>)
    requires FiltersOnly(fs) && fs != []
    ensures BranchesHarmless(store, Filtered(branches, fs))
  {
    hide Pairings, LiveBranch;
    forall u | u in Filtered(branches, fs) ensures !ScalarBranch(u) {
      if branches != [] {
        PairingsMember(branches, [fs], u);
      }
      assert u[|u| - 1] == fs[|fs| - 1];
    }
  }

  /**
   A group with filters, built and evaluated: each key gets the solutions of the
   group that pass all filters, always if there is a filter, and without one
   exactly when patterns without variables are harmless.
   */
  method EvaluateFiltered(group: Graph, filters: seq<seq<Vertex>>, store: set<Row>, tracked: seq<VarId>, mode: CountIndex)
    returns (ys: seq<CountedEntry>)
    requires Plain(group) && FilterList(filters) && Distinct(tracked)
    requires QueryVertices(group.vertices, tracked) && QueryVertices(Conjuncts(filters), tracked)
    requires TotalLength(Filtered(Branches(group), Conjuncts(filters))) < 0x100
    requires mode.ByComponent? ==> DataVars(group.vertices) <= Elements(tracked)
    ensures filters != [] ==> FilterCounted(store, group, Conjuncts(filters), tracked, ys)
    ensures filters == [] ==> (FilterCounted(store, group, [], tracked, ys) <==> BranchesHarmless(store, Branches(group)))
    ensures var scalars := ScalarNumber(store, Branches(group));
            filters == [] ==> forall k: Key :: |k| == |tracked| && (k != UnboundKey(|tracked|) || scalars == 0) ==>
              Total(ys, k) == SizeWhere(GraphBag(store, group), HasKey(tracked, k))
    ensures var c, branches := UnboundKey(|tracked|), Branches(group);
            filters == [] && ScalarNumber(store, branches) > 0 ==>
              Total(ys, c) == if ScalarNumber(store, branches) == LiveNumber(store, branches) then 1
                              else SizeWhere(GraphBag(store, group), HasKey(tracked, c)) - ScalarNumber(store, branches)
  {
    hide *;
    var r := AddFilters(group, filters);
    ghost var fs := Conjuncts(filters);
    ConjunctsAre(filters);
    FilteredQuery(group, fs, r, tracked);
    VerticesQuery(store, r, tracked);
    BranchesHold(r);
    var ops := GenerateQueryOperands(r, store);
    SameSlices(r, store, ops);
    ys := Evaluate(r, ops, tracked, mode);
    GraphTotals(store, r, tracked, ys);
    HarmlessIs(store, r);
    FilteredTotals(store, group, fs, r, tracked, ys);
    if filters == [] {
      NoConjuncts(group);
      BagYields(store, r, tracked, ys);
      UnfilteredBag(store, group, r);
    } else {
      FilteredHarmless(store, Branches(group), fs);
    }
  }

  lemma UnfilteredBag(store: set<Row>, group: Graph, r: Graph)
    requires Branches(r) == Filtered(Branches(group), []) && (r.vertices == [] <==> group.vertices == [])
    ensures Branches(r) == Branches(group) && GraphBag(store, r) == GraphBag(store, group)
  {
    hide Branches, BranchBag;
  }

  lemma FilteredTotals(store: set<Row>, group: Graph, fs: seq<Vertex>, r: Graph, tracked: seq<VarId>, ys: seq<CountedEntry>)
    requires forall m :: GraphBag(store, r)[m] == if PassesAll(fs, map[], m) then GraphBag(store, group)[m] else 0
    ensures FilterCounted(store, group, fs, tracked, ys) <==> BagCounted(GraphBag(store, r), tracked, ys)
  {
    hide PassesAll, GraphBag, SizeWhere, HasKey, PassesWithKey, Total;
    forall k: Key | |k| == |tracked|
      ensures SizeWhere(GraphBag(store, r), HasKey(tracked, k)) == SizeWhere(GraphBag(store, group), PassesWithKey(fs, tracked, k))
    {
      PassingSize(GraphBag(store, r), GraphBag(store, group), fs, tracked, k);
    }
  }

  /* ---------- a filter that escapes ---------- */

  /** A triple with subject 5. */
  function OneTriple(): set<Row> {
    {[5, 7, 8]}
  }

  /** A pattern that it matches, with variable x as the subject. */
  function Single(x: VarId): Vertex {
    TriplePattern(Var(x), Const(7), Const(8))
  }

  function Column(x: VarId): Binding {
    map[x := 5]
  }

  /** Asks whether variable 2 is unbound. */
  function Unbound(): Vertex {
    FilterVertex([2], Filter({2}, b => 2 !in b))
  }

  lemma SingleSols(x: VarId)
    ensures Column(x) in BranchSols(OneTriple(), [Single(x)]) && DataVars([Single(x)]) == {x}
  {
    var v, m := Single(x), Column(x);
    assert ValueOf(Var(x), m) == Some(5) && ValueOf(Const(8), m) == Some(8) && m.Keys == {x};
    assert NodeVars(Var(x)) + NodeVars(Const(8)) == {x} && [5, 7, 8] in OneTriple();
    assert forall i :: 0 <= i < |[v]| ==> [v][i].Operand?;
    hide *;
    PatternInstance(Var(x), 7, Const(8), m, 5, 8);
    PatternVars(Var(x), 7, Const(8));
    PatternIsOk(Var(x), 7, Const(8));
    SingleIs(x);
    PatternJoin(OneTriple(), v, m);
    SingleVars(v);
    NoFilter([v], m);
    SolsOfJoin(OneTriple(), [v], m);
  }

  lemma SingleIs(x: VarId)
    ensures Single(x) == TriplePattern(Var(x), Const(7), Const(8)) && Single(x).Operand? && Single(x).vars == [x]
  {
  }

  lemma NoFilter(vs: seq<Vertex>, m: Binding)
    requires forall i :: 0 <= i < |vs| ==> vs[i].Operand?
    ensures PassesAll(vs, map[], m)
  {
  }

  lemma UnboundPasses(m: Binding)
    ensures PassesAll([Unbound()], map[], m) <==> 2 !in m
    ensures FiltersOnly([Unbound()]) && FilterList([[Unbound()]]) && Conjuncts([[Unbound()]]) == [Unbound()]
  {
    assert Init([[Unbound()]]) == [] && [] + [Unbound()] == [Unbound()];
    assert 2 in Restrict(map[] + m, {2}) <==> 2 in m;
    assert Passes(Unbound().filter, map[], m) <==> 2 !in m;
    assert [Unbound()][0] == Unbound() && [Unbound()][0].FilterVertex?;
  }

  /** The pattern with variable 1 and the filter. */
  function Asking(): seq<Vertex> {
    [Single(1)] + [Unbound()]
  }

  lemma AskingAlone()
    ensures Column(1) in BranchSols(OneTriple(), Asking()) && !Scoped(Asking(), [Single(2)])
    ensures Column(1) + Column(2) !in BranchSols(OneTriple(), Asking() + [Single(2)])
  {
    var both := Column(1) + Column(2);
    assert Asking() == [Single(1)] + [Unbound()] && 2 !in Column(1) && 2 in both;
    hide *;
    SingleSols(1);
    SingleSols(2);
    UnboundPasses(Column(1));
    UnboundPasses(both);
    FilteredSols(OneTriple(), [Single(1)], [Unbound()], Column(1));
    PassesBoth([Single(1)], [Unbound()], both);
    PairSolsLate(OneTriple(), Asking(), [Single(2)], both);
    DataVarsConcat([Single(1)], [Unbound()]);
    NoDataVars([Unbound()]);
    NotScoped();
  }

  lemma NotScoped()
    requires DataVars(Asking()) == {1} + {} && DataVars([Single(2)]) == {2}
    ensures !Scoped(Asking(), [Single(2)])
  {
    hide DataVars, Single;
    assert Asking()[1] == Unbound() && 2 in Asking()[1].filter.vars * DataVars([Single(2)]);
  }

  lemma LoneBranchBag(store: set<Row>, vs: seq<Vertex>)
    ensures BranchBag(store, [vs]) == multiset(BranchSols(store, vs))
  {
    hide BranchSols;
    NoBag(store);
    BranchBagLast(store, [], vs);
    assert [] + [vs] == [vs];
  }

  /** Both sides have a solution, compatible ones, and their pair is lost. */
  lemma PairLost(store: set<Row>, u: seq<Vertex>, w: seq<Vertex>, m: Binding, n: Binding)
    requires m in BranchSols(store, u) && n in BranchSols(store, w) && Compatible(m, n) && m + n !in BranchSols(store, u + w)
    ensures BranchBag(store, Pairings([u], [w]))[m + n] == 0
    ensures JoinMultiplicity(BranchBag(store, [u]), BranchBag(store, [w]), m + n) > 0
  {
    hide BranchSols, BranchBag, JoinSize, Pairings, Compatible;
    LoneBranchBag(store, u);
    LoneBranchBag(store, w);
    LoneBranchBag(store, u + w);
    PairingsOne(u, w);
    var s, t := BranchSols(store, u), BranchSols(store, w);
    JoinOfSets(s, t, Is(m + n));
    assert (m, n) in PairsWhere(s, t, Is(m + n));
  }

  lemma PairingsOne(u: seq<Vertex>, w: seq<Vertex>)
    ensures Pairings([u], [w]) == [u + w]
  {
    hide Pairings;
    PairedOne([u], w);
    PairedOne([], w);
    assert Init([u]) == [] && [] + [u + w] == [u + w];
  }

  lemma SingleGraph(x: VarId)
    requires x != NO_VAR
    ensures Plain(Graph([Single(x)], {})) && Branches(Graph([Single(x)], {})) == [[Single(x)]]
  {
    SingleIs(x);
    hide Plain, Clique, Branches, Single;
    LonePlain(Graph([Single(x)], {}));
    CliqueBranches(Graph([Single(x)], {}));
  }

  lemma BothColumns()
    ensures Compatible(Column(1), Column(2)) && Column(1) + Column(2) == map[1 := 5, 2 := 5]
  {
  }

  /**
   A pattern with variable 1 and a filter that asks whether variable 2 is unbound,
   joined with a pattern with variable 2: the filter lets its own group pass, but
   not the pair, which the join of both bags has.
   */
  method FilterEscapes() returns (group: Graph, second: Graph, r: Graph)
    ensures Branches(group) == [Asking()] && Branches(second) == [[Single(2)]] && Branches(r) == JoinedBranches(group, second)
    ensures !Scoped(Asking(), [Single(2)]) && !JoinsBags(group, second, r)
    ensures var m: Binding := map[1 := 5, 2 := 5];
            GraphBag(OneTriple(), r)[m] == 0 < JoinMultiplicity(GraphBag(OneTriple(), group), GraphBag(OneTriple(), second), m)
  {
    var pattern := Graph([Single(1)], {});
    second := Graph([Single(2)], {});
    SingleGraph(1);
    SingleGraph(2);
    UnboundPasses(map[]);
    AskingGroup(pattern);
    hide *;
    group := AddFilters(pattern, [[Unbound()]]);
    PlainRooted(group);
    PlainRooted(second);
    r := CombineAndMerge(group, second);
    EscapingPair(group, second, r);
  }

  lemma AskingGroup(pattern: Graph)
    requires Branches(pattern) == [[Single(1)]]
    ensures Filtered(Branches(pattern), [Unbound()]) == [Asking()]
  {
    hide Branches, Pairings, Single, Unbound;
    PairingsOne([Single(1)], [Unbound()]);
  }

  lemma EscapingPair(group: Graph, second: Graph, r: Graph)
    requires Branches(group) == [Asking()] && Branches(second) == [[Single(2)]] && Branches(r) == JoinedBranches(group, second)
    requires group.vertices != [] && second.vertices != [] && r.vertices != []
    ensures !Scoped(Asking(), [Single(2)]) && !JoinsBags(group, second, r)
    ensures var m: Binding := map[1 := 5, 2 := 5];
            GraphBag(OneTriple(), r)[m] == 0 < JoinMultiplicity(GraphBag(OneTriple(), group), GraphBag(OneTriple(), second), m)
  {
    hide *;
    AskingAlone();
    SingleSols(2);
    BothColumns();
    PairLost(OneTriple(), Asking(), [Single(2)], Column(1), Column(2));
    BagsOf(group, second, r, Asking(), [Single(2)], OneTriple());
    NotJoined(group, second, r, OneTriple(), Column(1) + Column(2));
  }

  lemma BagsOf(group: Graph, second: Graph, r: Graph, u: seq<Vertex>, w: seq<Vertex>, store: set<Row>)
    requires Branches(group) == [u] && Branches(second) == [w] && Branches(r) == JoinedBranches(group, second)
    requires group.vertices != [] && second.vertices != [] && r.vertices != []
    ensures GraphBag(store, r) == BranchBag(store, Pairings([u], [w]))
    ensures GraphBag(store, group) == BranchBag(store, [u]) && GraphBag(store, second) == BranchBag(store, [w])
  {
    hide Branches, BranchBag, Pairings;
  }

  lemma NotJoined(first: Graph, second: Graph, r: Graph, store: set<Row>, m: Binding)
    requires GraphBag(store, r)[m] != JoinMultiplicity(GraphBag(store, first), GraphBag(store, second), m)
    ensures !JoinsBags(first, second, r)
  {
    hide GraphBag, JoinMultiplicity;
  }
}
