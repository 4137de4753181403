/**
 Group patterns in union normal form: a graph stands for the union of its union
 components, and joining two graphs links every pair of components.
 */
module UnionNormalForm {
  import opened Reachability
  import opened Graphs
  import opened Tries
  import opened BranchBags
  import opened DependencyGraph
  import opened GraphBuilder
  import opened GraphUnions
  import opened SourceComponents

  /* ---------- dependencies between two graphs ---------- */

  /** Adds the dependencies between one operand and the operands of the second part. */
  method LinkOperand(temp: OperandDependencyGraph, u: nat, secondIsc: seq<nat>, offset: nat, bidirectional: bool)
    requires u < |temp.graph.vertices|
    requires forall v :: v in secondIsc ==> v + offset < |temp.graph.vertices|
    modifies temp
    ensures temp.graph == Graph(old(temp.graph).vertices,
                                old(temp.graph).edges
                                + Links(old(temp.graph).vertices, {u}, ShiftSet(Elements(secondIsc), offset), bidirectional))
  {
    hide Links, Dependencies, ShiftSet;
    ghost var before := temp.graph;
    LinksNone(before.vertices, {u}, offset, bidirectional);
    for j := 0 to |secondIsc|
      invariant temp.graph == Graph(before.vertices, before.edges
                                    + Links(before.vertices, {u}, ShiftSet(Elements(secondIsc[..j]), offset), bidirectional))
    {
      assert secondIsc[j] in secondIsc;
      LinksStep(before.vertices, u, secondIsc[..j], secondIsc[j], offset, bidirectional);
      assert secondIsc[..j + 1] == secondIsc[..j] + [secondIsc[j]];
      temp.AddDependencies(u, secondIsc[j] + offset, bidirectional);
    }
    assert secondIsc[..|secondIsc|] == secondIsc;
  }

  /** Adds the dependencies between the independent strong components of both parts. */
  method LinkOperands(temp: OperandDependencyGraph, firstIsc: seq<nat>, secondIsc: seq<nat>, offset: nat, bidirectional: bool)
    requires forall u :: u in firstIsc ==> u < |temp.graph.vertices|
    requires forall v :: v in secondIsc ==> v + offset < |temp.graph.vertices|
    modifies temp
    ensures temp.graph == Graph(old(temp.graph).vertices,
                                old(temp.graph).edges
                                + Links(old(temp.graph).vertices, Elements(firstIsc), ShiftSet(Elements(secondIsc), offset), bidirectional))
  {
    hide Links, Elements, ShiftSet;
    ghost var before := temp.graph;
    ghost var b := ShiftSet(Elements(secondIsc), offset);
    NoLinks(before.vertices, b, bidirectional);
    for i := 0 to |firstIsc|
      invariant temp.graph == Graph(before.vertices, before.edges + Links(before.vertices, Elements(firstIsc[..i]), b, bidirectional))
    {
      assert firstIsc[i] in firstIsc;
      LinkOperand(temp, firstIsc[i], secondIsc, offset, bidirectional);
      LinksRow(before.vertices, firstIsc[..i], firstIsc[i], b, bidirectional);
      assert firstIsc[..i + 1] == firstIsc[..i] + [firstIsc[i]];
    }
    assert firstIsc[..|firstIsc|] == firstIsc;
  }

  lemma NoLinks(vs: seq<Vertex>, b: set<nat>, bidirectional: bool)
    ensures Links(vs, Elements([]), b, bidirectional) == {}
  {
  }

  lemma LinksNone(vs: seq<Vertex>, a: set<nat>, offset: nat, bidirectional: bool)
    ensures Links(vs, a, ShiftSet(Elements([]), offset), bidirectional) == {}
  {
  }

  lemma LinksStep(vs: seq<Vertex>, u: nat, done: seq<nat>, v: nat, offset: nat, bidirectional: bool)
    requires u < |vs| && v + offset < |vs|
    ensures Links(vs, {u}, ShiftSet(Elements(done + [v]), offset), bidirectional)
         == Links(vs, {u}, ShiftSet(Elements(done), offset), bidirectional) + Dependencies(vs, u, v + offset, bidirectional)
  {
    assert Elements(done + [v]) == Elements(done) + {v};
    assert ShiftSet(Elements(done + [v]), offset) == ShiftSet(Elements(done), offset) + {v + offset};
    hide Dependencies, ShiftSet;
  }

  lemma LinksRow(vs: seq<Vertex>, done: seq<nat>, u: nat, b: set<nat>, bidirectional: bool)
    ensures Links(vs, Elements(done + [u]), b, bidirectional) == Links(vs, Elements(done), b, bidirectional) + Links(vs, {u}, b, bidirectional)
  {
    assert Elements(done + [u]) == Elements(done) + {u};
    hide Dependencies;
  }

  lemma IscIsSources(g: Graph, isc: seq<nat>)
    requires forall v: nat :: v in isc <==> InIsc(g, v)
    ensures Elements(isc) == Sources(g) && forall v :: v in isc ==> v < |g.vertices|
  {
    hide IsSource;
  }

  /** Two union components with dependencies between their independent strong components. */
  method LinkComponents(first: Graph, second: Graph) returns (r: Graph)
    requires WellFormed(first) && WellFormed(second)
    ensures r == SourcesLinked(first, second)
  {
    hide WellFormed, Links, InIsc, ShiftSet, Sources;
    var offset := |first.vertices|;
    var temp := new OperandDependencyGraph(Merge(first, second));
    var firstIsc := IscOperands(first);
    var secondIsc := IscOperands(second);
    IscIsSources(first, firstIsc);
    IscIsSources(second, secondIsc);
    LinkOperands(temp, firstIsc, secondIsc, offset, true);
    r := temp.graph;
  }

  /* ---------- mutually dependent operands ---------- */

  lemma CliqueSources(g: Graph)
    requires Clique(g) && WellFormed(g)
    ensures Sources(g) == Below(|g.vertices|)
  {
    hide Clique, IsSource;
    forall v: nat ensures InIsc(g, v) <==> v < |g.vertices| {
      if v < |g.vertices| {
        AllSources(g, v);
      }
    }
  }

  lemma AllSources(g: Graph, v: nat)
    requires Clique(g) && WellFormed(g) && v < |g.vertices|
    ensures IsSource(ArcsOf(g.edges), v)
  {
    WellFormedArcs(g);
    forall w: nat | Reach(ArcsOf(g.edges), w, v) ensures Reach(ArcsOf(g.edges), v, w) {
      if w >= |g.vertices| {
        ClosedReach(ArcsOf(g.edges), {w}, w, v);
      } else if v == w {
        ReachRefl(ArcsOf(g.edges), v);
      } else {
        assert Adj(g, v, w);
        ReachArc(ArcsOf(g.edges), v, w);
      }
    }
  }

  /** Without OPTIONAL every operand of the one is linked with every operand of the other. */
  lemma PlainLinked(g: Graph, h: Graph)
    requires Plain(g) && Plain(h) && Clique(g) && Clique(h)
    ensures SourcesLinked(g, h) == Linked(g, h) && Plain(SourcesLinked(g, h))
  {
    hide LinkedBy, Sources, ShiftSet, Plain, Clique;
    BothWellFormed(g, h);
    CliqueSources(g);
    CliqueSources(h);
    ShiftedAll(|g.vertices|, |h.vertices|);
    LinkedClique(g, h);
  }

  lemma ShiftedAll(n: nat, m: nat)
    ensures ShiftSet(Below(m), n) == Below(n + m) - Below(n)
  {
  }

  lemma BothWellFormed(first: Graph, second: Graph)
    requires Plain(first) && Plain(second)
    ensures WellFormed(first) && WellFormed(second)
  {
  }

  /* ---------- the join of two graphs ---------- */

  /** Graphs side by side. */
  ghost function MergedAll(groups: seq<Graph>): Graph {
    if groups == [] then EMPTY_GRAPH else Merge(MergedAll(Init(groups)), Last(groups))
  }

  /** The union components as graphs. */
  ghost function Parts(g: Graph): (r: seq<Graph>)
    ensures |r| == |UnionParts(g)|
    ensures forall i :: 0 <= i < |r| ==> Indices(UnionParts(g)[i], |g.vertices|) && r[i] == Induced(g, UnionParts(g)[i])
  {
    forall i | 0 <= i < |UnionParts(g)| ensures Indices(UnionParts(g)[i], |g.vertices|) { PartShape(g, UnionParts(g)[i]); }
    seq(|UnionParts(g)|, i requires 0 <= i < |UnionParts(g)| => Induced(g, UnionParts(g)[i]))
  }

  /** Every graph of the first list linked with every graph of the second, row by row. */
  ghost function LinkedPairs(a: seq<Graph>, b: seq<Graph>): seq<Graph> {
    if a == [] then [] else LinkedPairs(Init(a), b) + LinkedWith(Last(a), b)
  }

  ghost function LinkedWith(u: Graph, b: seq<Graph>): (r: seq<Graph>)
    ensures |r| == |b| && forall j :: 0 <= j < |b| ==> r[j] == SourcesLinked(u, b[j])
  {
    seq(|b|, j requires 0 <= j < |b| => SourcesLinked(u, b[j]))
  }

  /** The join of two graphs: the linked pairs of their components; an empty graph adds nothing. */
  ghost function JoinedGraph(first: Graph, second: Graph): Graph {
    if first.vertices == [] then second
    else if second.vertices == [] then first
    else MergedAll(LinkedPairs(Parts(first), Parts(second)))
  }

  /** The branches of the join of two graphs; an empty graph adds nothing. */
  ghost function JoinedBranches(first: Graph, second: Graph): seq<seq<Vertex>> {
    if first.vertices == [] then Branches(second)
    else if second.vertices == [] then Branches(first)
    else Pairings(Branches(first), Branches(second))
  }

  /** The sources of the join of two graphs. */
  ghost function JoinedSources(first: Graph, second: Graph): seq<seq<Vertex>> {
    if first.vertices == [] then SourceBranches(second)
    else if second.vertices == [] then SourceBranches(first)
    else Pairings(SourceBranches(first), SourceBranches(second))
  }

  /** The bag of a graph without OPTIONAL: an empty graph stands for the one empty solution. */
  ghost function GraphBag(store: set<Row>, g: Graph): multiset<Binding> {
    if g.vertices == [] then multiset{map[]} else BranchBag(store, Branches(g))
  }

  /** Over every store the bag of r is the join of the bags of both sides. */
  ghost predicate JoinsBags(first: Graph, second: Graph, r: Graph) {
    forall store: set<Row>, m: Binding ::
      GraphBag(store, r)[m] == JoinMultiplicity(GraphBag(store, first), GraphBag(store, second), m)
  }

  /** The bag of the join of two graphs, an empty one of which adds nothing. */
  ghost function JoinedBag(store: set<Row>, first: Graph, second: Graph): multiset<Binding> {
    if first.vertices == [] && second.vertices == [] then multiset{map[]} else BranchBag(store, JoinedBranches(first, second))
  }

  /** It is the join of both bags. */
  ghost predicate GraphsJoin(first: Graph, second: Graph) {
    forall store: set<Row>, m: Binding ::
      JoinedBag(store, first, second)[m] == JoinMultiplicity(GraphBag(store, first), GraphBag(store, second), m)
  }

  /** Graphs whose branches join to the join of their bags, counted over the mappings that are ok. */
  lemma CombinedSize(store: set<Row>, first: Graph, second: Graph, r: Graph, ok: Binding -> bool)
    requires Branches(r) == JoinedBranches(first, second) && AllScoped(Branches(first), Branches(second))
    requires r.vertices == [] <==> first.vertices == [] && second.vertices == []
    ensures SizeWhere(GraphBag(store, r), ok) == JoinSize(GraphBag(store, first), GraphBag(store, second), ok)
  {
    hide Branches, AllScoped, SizeWhere, JoinSize, BranchBag;
    if first.vertices == [] {
      JoinUnit(GraphBag(store, second), ok);
    } else if second.vertices == [] {
      JoinUnit(GraphBag(store, first), ok);
    } else {
      PairingsSize(store, Branches(first), Branches(second), ok);
    }
  }

  lemma CombinedBags(first: Graph, second: Graph, r: Graph)
    requires Branches(r) == JoinedBranches(first, second) && AllScoped(Branches(first), Branches(second))
    requires r.vertices == [] <==> first.vertices == [] && second.vertices == []
    ensures JoinsBags(first, second, r)
  {
    hide AllScoped, SizeWhere, JoinSize, GraphBag, JoinedBranches;
    forall store: set<Row>, m: Binding
      ensures GraphBag(store, r)[m] == JoinMultiplicity(GraphBag(store, first), GraphBag(store, second), m)
    {
      CombinedSize(store, first, second, r, Is(m));
      SizeOfOne(GraphBag(store, r), m);
    }
  }

  /** The bag of r is that of the branches it is made of. */
  lemma JoinsAs(first: Graph, second: Graph, r: Graph)
    requires Branches(r) == JoinedBranches(first, second)
    requires r.vertices == [] <==> first.vertices == [] && second.vertices == []
    ensures forall store: set<Row> :: GraphBag(store, r) == JoinedBag(store, first, second)
    ensures JoinsBags(first, second, r) <==> GraphsJoin(first, second)
  {
    hide Branches, BranchBag, JoinedBranches, JoinMultiplicity;
    assert forall store: set<Row> :: GraphBag(store, r) == JoinedBag(store, first, second);
    hide GraphBag, JoinedBag;
  }

  /**
   The join of two graphs: every union component of the first is linked with
   every union component of the second. As long as no filter reads a variable
   that only the other side binds, the bag of the result is the join of both bags.
   */
  method CombineAndMerge(first: Graph, second: Graph) returns (r: Graph)
    requires Rooted(first) && Rooted(second)
    ensures r == JoinedGraph(first, second)
    ensures Rooted(r) && Branches(r) == JoinedBranches(first, second) && SourceBranches(r) == JoinedSources(first, second)
    ensures Plain(first) && Plain(second) ==> Plain(r)
    ensures r.vertices == [] <==> first.vertices == [] && second.vertices == []
    ensures forall store: set<Row> :: GraphBag(store, r) == JoinedBag(store, first, second)
    ensures JoinsBags(first, second, r) <==> GraphsJoin(first, second)
    ensures AllScoped(Branches(first), Branches(second)) ==> JoinsBags(first, second, r)
  {
    hide Plain, Rooted, Branches, SourceBranches, UnionParts, Pairings, Parts, LinkedPairs, MergedAll, AllScoped, JoinsBags, GraphsJoin, GraphBag, JoinedBag;
    NothingYet();
    r := EMPTY_GRAPH;
    if first.vertices == [] && second.vertices == [] {
      EmptyBranches(second);
      NoEdges(second);
    } else if first.vertices == [] {
      r := second;
    } else if second.vertices == [] {
      r := first;
    } else {
      RootedWellFormed(first);
      var firstComps := UnionComponents(first);
      BranchCounts(first);
      PartsAre(first);
      NoPairings(Branches(second));
      NoPairings(SourceBranches(second));
      NoLinked(Parts(second));
      for i := 0 to |firstComps|
        invariant r == MergedAll(LinkedPairs(Parts(first)[..i], Parts(second)))
        invariant Rooted(r) && (Plain(first) && Plain(second) ==> Plain(r))
        invariant Branches(r) == Pairings(Branches(first)[..i], Branches(second))
        invariant SourceBranches(r) == Pairings(SourceBranches(first)[..i], SourceBranches(second))
        invariant i > 0 ==> r.vertices != []
      {
        LinkedStep(Parts(first), i, Parts(second));
        r := CombineOne(r, first, second, firstComps[i], i, LinkedPairs(Parts(first)[..i], Parts(second)));
        PairingsStep(Branches(first), i, Branches(second));
        PairingsStep(SourceBranches(first), i, SourceBranches(second));
      }
      assert Parts(first)[..|firstComps|] == Parts(first);
      assert Branches(first)[..|firstComps|] == Branches(first);
      assert SourceBranches(first)[..|firstComps|] == SourceBranches(first);
      SomeBranch(first);
    }
    JoinsAs(first, second, r);
    if AllScoped(Branches(first), Branches(second)) {
      CombinedBags(first, second, r);
    }
  }

  lemma NoEdges(g: Graph)
    requires Rooted(g) && g.vertices == []
    ensures g == EMPTY_GRAPH
  {
    assert g.edges == {};
  }

  lemma NoLinked(b: seq<Graph>)
    ensures MergedAll(LinkedPairs([], b)) == EMPTY_GRAPH
  {
  }

  lemma LinkedStep(a: seq<Graph>, i: nat, b: seq<Graph>)
    requires i < |a|
    ensures LinkedPairs(a[..i + 1], b) == LinkedPairs(a[..i], b) + LinkedWith(a[i], b)
  {
    assert Init(a[..i + 1]) == a[..i];
  }

  lemma MergedStep(done: seq<Graph>, u: Graph, b: seq<Graph>, j: nat)
    requires j < |b|
    ensures MergedAll(done + LinkedWith(u, b[..j + 1])) == Merge(MergedAll(done + LinkedWith(u, b[..j])), SourcesLinked(u, b[j]))
  {
    assert LinkedWith(u, b[..j + 1]) == LinkedWith(u, b[..j]) + [SourcesLinked(u, b[j])];
    var r := done + LinkedWith(u, b[..j + 1]);
    assert Init(r) == done + LinkedWith(u, b[..j]) && Last(r) == SourcesLinked(u, b[j]);
  }

  lemma NoneLinked(done: seq<Graph>, u: Graph, b: seq<Graph>)
    ensures done + LinkedWith(u, b[..0]) == done && b[..|b|] == b
  {
  }

  lemma PartsAre(g: Graph)
    ensures |Parts(g)| == |UnionParts(g)|
    ensures forall i :: 0 <= i < |UnionParts(g)| ==> Indices(UnionParts(g)[i], |g.vertices|) && Parts(g)[i] == Induced(g, UnionParts(g)[i])
  {
  }

  lemma RootedWellFormed(g: Graph)
    requires Rooted(g)
    ensures WellFormed(g)
  {
  }

  lemma BranchCounts(g: Graph)
    ensures |Branches(g)| == |UnionParts(g)| && |SourceBranches(g)| == |UnionParts(g)|
  {
  }

  lemma EmptyBranches(g: Graph)
    requires g.vertices == []
    ensures Branches(g) == [] && Branches(EMPTY_GRAPH) == []
    ensures SourceBranches(g) == [] && SourceBranches(EMPTY_GRAPH) == []
  {
  }

  lemma NothingYet()
    ensures Rooted(EMPTY_GRAPH) && Plain(EMPTY_GRAPH) && Branches(EMPTY_GRAPH) == [] && SourceBranches(EMPTY_GRAPH) == []
  {
    EmptyBranches(EMPTY_GRAPH);
    PlainEmpty();
    PlainRooted(EMPTY_GRAPH);
  }

  lemma PlainEmpty()
    ensures Plain(EMPTY_GRAPH)
  {
  }

  lemma NoPairings(b: seq<seq<Vertex>>)
    ensures Pairings([], b) == []
  {
  }

  lemma PairingsStep(a: seq<seq<Vertex>>, i: nat, b: seq<seq<Vertex>>)
    requires i < |a|
    ensures Pairings(a[..i + 1], b) == Pairings(a[..i], b) + PairingsWith(a[i], b)
  {
    assert Init(a[..i + 1]) == a[..i];
  }

  lemma SomeBranch(g: Graph)
    requires g.vertices != []
    ensures |UnionParts(g)| > 0
  {
    var c := ComponentsCover(ArcsOf(g.edges), |g.vertices|, 0);
  }

  /** Links one component of the first graph with every component of the second. */
  method CombineOne(g: Graph, first: Graph, second: Graph, part: seq<nat>, ghost i: nat, ghost done: seq<Graph>) returns (r: Graph)
    requires g == MergedAll(done) && |Parts(first)| == |UnionParts(first)|
    requires Rooted(g) && Rooted(first) && Rooted(second) && second.vertices != []
    requires i < |UnionParts(first)| && part == UnionParts(first)[i]
    ensures r == MergedAll(done + LinkedWith(Parts(first)[i], Parts(second)))
    ensures Rooted(r) && r.vertices != []
    ensures Branches(r) == Branches(g) + PairingsWith(Branches(first)[i], Branches(second))
    ensures SourceBranches(r) == SourceBranches(g) + PairingsWith(SourceBranches(first)[i], SourceBranches(second))
    ensures Plain(g) && Plain(first) && Plain(second) ==> Plain(r)
  {
    hide *;
    RootedWellFormed(first);
    RootedWellFormed(second);
    r := g;
    BranchAt(first, i);
    var firstComp := Induced(first, part);
    var secondComps := UnionComponents(second);
    BranchCounts(second);
    NoneWith(Branches(g), Branches(first)[i], Branches(second));
    NoneWith(SourceBranches(g), SourceBranches(first)[i], SourceBranches(second));
    PartsAre(first);
    PartsAre(second);
    NoneLinked(done, firstComp, Parts(second));
    for j := 0 to |secondComps|
      invariant r == MergedAll(done + LinkedWith(firstComp, Parts(second)[..j]))
      invariant Rooted(r) && (j > 0 ==> r.vertices != [])
      invariant Branches(r) == Branches(g) + PairingsWith(Branches(first)[i], Branches(second)[..j])
      invariant SourceBranches(r) == SourceBranches(g) + PairingsWith(SourceBranches(first)[i], SourceBranches(second)[..j])
      invariant Plain(g) && Plain(first) && Plain(second) ==> Plain(r)
    {
      BranchAt(second, j);
      var secondComp := Induced(second, secondComps[j]);
      var temp := LinkComponents(firstComp, secondComp);
      LinkedBranch(r, first, i, second, j);
      if Plain(g) && Plain(first) && Plain(second) {
        PlainBranch(r, first, part, second, secondComps[j]);
      }
      WithStep(Branches(g), Branches(first)[i], Branches(second), j);
      WithStep(SourceBranches(g), SourceBranches(first)[i], SourceBranches(second), j);
      MergedStep(done, firstComp, Parts(second), j);
      r := Merge(r, temp);
    }
    AllWith(Branches(second));
    AllWith(SourceBranches(second));
    SomeBranch(second);
  }

  lemma BranchAt(g: Graph, i: nat)
    requires i < |UnionParts(g)| && WellFormed(g)
    ensures UnionParts(g)[i] in UnionParts(g) && Indices(UnionParts(g)[i], |g.vertices|)
    ensures WellFormed(Induced(g, UnionParts(g)[i]))
    ensures |Branches(g)| == |UnionParts(g)| && |SourceBranches(g)| == |UnionParts(g)|
    ensures Branches(g)[i] == Pick(g.vertices, UnionParts(g)[i])
    ensures SourceBranches(g)[i] == SourceVertices(g, UnionParts(g)[i])
  {
    hide WellFormed, UnionParts, Induced, SourceVertices;
    PartShape(g, UnionParts(g)[i]);
    InducedWellFormed(g, UnionParts(g)[i]);
  }

  lemma NoneWith(done: seq<seq<Vertex>>, u: seq<Vertex>, b: seq<seq<Vertex>>)
    ensures done == done + PairingsWith(u, b[..0])
  {
  }

  lemma AllWith(b: seq<seq<Vertex>>)
    ensures b[..|b|] == b
  {
  }

  lemma WithStep(done: seq<seq<Vertex>>, u: seq<Vertex>, b: seq<seq<Vertex>>, j: nat)
    requires j < |b|
    ensures done + PairingsWith(u, b[..j]) + [u + b[j]] == done + PairingsWith(u, b[..j + 1])
  {
    assert PairingsWith(u, b[..j + 1]) == PairingsWith(u, b[..j]) + [u + b[j]];
  }

  /** What linking two components and merging adds. */
  lemma LinkedBranch(g: Graph, first: Graph, i: nat, second: Graph, j: nat)
    requires Rooted(g) && Rooted(first) && Rooted(second) && i < |UnionParts(first)| && j < |UnionParts(second)|
    requires Indices(UnionParts(first)[i], |first.vertices|) && Indices(UnionParts(second)[j], |second.vertices|)
    requires |Branches(first)| == |SourceBranches(first)| == |UnionParts(first)|
    requires |Branches(second)| == |SourceBranches(second)| == |UnionParts(second)|
    ensures var r := Merge(g, SourcesLinked(Induced(first, UnionParts(first)[i]), Induced(second, UnionParts(second)[j])));
            && Rooted(r) && r.vertices != []
            && Branches(r) == Branches(g) + [Branches(first)[i] + Branches(second)[j]]
            && SourceBranches(r) == SourceBranches(g) + [SourceBranches(first)[i] + SourceBranches(second)[j]]
  {
    hide *;
    var p, q := UnionParts(first)[i], UnionParts(second)[j];
    var l := SourcesLinked(Induced(first, p), Induced(second, q));
    RootedWellFormed(first);
    RootedWellFormed(second);
    BranchAt(first, i);
    BranchAt(second, j);
    SourcesLinkedBranch(first, p, second, q);
    RootedWellFormed(g);
    RootedWellFormed(l);
    MergeRooted(g, l);
    MergeBranches(g, l);
    MergeSourceBranches(g, l);
    SomeVertices(l);
    MergedSome(g, l);
  }

  lemma SomeVertices(g: Graph)
    requires |Branches(g)| == 1
    ensures g.vertices != []
  {
  }

  lemma MergedSome(g: Graph, h: Graph)
    requires h.vertices != []
    ensures Merge(g, h).vertices != []
  {
  }

  lemma PlainBranch(g: Graph, first: Graph, p: seq<nat>, second: Graph, q: seq<nat>)
    requires Plain(g) && Plain(first) && Plain(second) && p in UnionParts(first) && q in UnionParts(second)
    requires Indices(p, |first.vertices|) && Indices(q, |second.vertices|)
    ensures Plain(Merge(g, SourcesLinked(Induced(first, p), Induced(second, q))))
  {
    hide *;
    PartClique(first, p);
    PartClique(second, q);
    PlainLinked(Induced(first, p), Induced(second, q));
    MergePlain(g, SourcesLinked(Induced(first, p), Induced(second, q)));
  }

  /* ---------- the union of groups ---------- */

  /** The solutions of the groups, added up. */
  ghost function GroupsBag(store: set<Row>, groups: seq<Graph>): multiset<Binding> {
    if groups == [] then multiset{} else GroupsBag(store, Init(groups)) + GraphBag(store, Last(groups))
  }

  ghost function EmptyGroups(groups: seq<Graph>): nat {
    if groups == [] then 0 else EmptyGroups(Init(groups)) + (if Last(groups).vertices == [] then 1 else 0)
  }

  /** So many empty solutions. */
  ghost function EmptySolutions(n: nat): multiset<Binding> {
    multiset{}[map[] := n]
  }

  lemma {:induction false} MergedShape(groups: seq<Graph>)
    requires forall g :: g in groups ==> WellFormed(g)
    ensures WellFormed(MergedAll(groups))
    ensures MergedAll(groups).vertices == [] <==> EmptyGroups(groups) == |groups|
    ensures EmptyGroups(groups) <= |groups|
    ensures EmptyGroups(groups) == 0 <==> forall g :: g in groups ==> g.vertices != []
  {
    hide WellFormed;
    if groups == [] {
      NothingYet();
      RootedWellFormed(EMPTY_GRAPH);
    } else {
      InInit(groups);
      MergedShape(Init(groups));
      MergeWellFormed(MergedAll(Init(groups)), Last(groups));
    }
  }

  /** Merging keeps the solutions of every group that has a vertex. */
  lemma {:induction false} MergedBags(store: set<Row>, groups: seq<Graph>)
    requires forall g :: g in groups ==> WellFormed(g)
    ensures GroupsBag(store, groups) == BranchBag(store, Branches(MergedAll(groups))) + EmptySolutions(EmptyGroups(groups))
  {
    hide WellFormed, Branches, BranchBag;
    if groups == [] {
      NothingYet();
      NoBag(store);
    } else {
      var before, g := MergedAll(Init(groups)), Last(groups);
      InInit(groups);
      MergedShape(Init(groups));
      MergedBags(store, Init(groups));
      MergeBranches(before, g);
      BagAppend(store, Branches(before), Branches(g));
      if g.vertices == [] {
        EmptyBranches(g);
        NoBag(store);
      }
    }
  }

  /** What a union loses: the solution of every empty group, but for one if there is no other group. */
  lemma UnionBag(store: set<Row>, groups: seq<Graph>)
    requires groups != [] && forall g :: g in groups ==> WellFormed(g)
    ensures EmptyGroups(groups) <= |groups|
    ensures GroupsBag(store, groups)
         == GraphBag(store, MergedAll(groups))
            + EmptySolutions(if EmptyGroups(groups) == |groups| then EmptyGroups(groups) - 1 else EmptyGroups(groups))
  {
    hide WellFormed, Branches, BranchBag, GroupsBag, MergedAll, EmptyGroups;
    MergedShape(groups);
    MergedBags(store, groups);
    if MergedAll(groups).vertices == [] {
      EmptyBranches(MergedAll(groups));
      NoBag(store);
    }
  }

  /** A union keeps its bag exactly when no group is empty, or there is no other group. */
  lemma UnionExactly(store: set<Row>, groups: seq<Graph>)
    requires groups != [] && forall g :: g in groups ==> WellFormed(g)
    ensures GraphBag(store, MergedAll(groups)) == GroupsBag(store, groups) <==>
            |groups| == 1 || forall g :: g in groups ==> g.vertices != []
  {
    hide WellFormed, Branches, BranchBag, GroupsBag, MergedAll, EmptyGroups;
    var r, n := MergedAll(groups), EmptyGroups(groups);
    MergedShape(groups);
    MergedBags(store, groups);
    if r.vertices == [] {
      EmptyBranches(r);
      NoBag(store);
      assert GroupsBag(store, groups)[map[]] == n;
    } else {
      assert GroupsBag(store, groups)[map[]] == GraphBag(store, r)[map[]] + n;
    }
  }

  /** The union of groups. */
  method MergeGroups(groups: seq<Graph>) returns (r: Graph)
    requires groups != [] && forall g :: g in groups ==> Rooted(g)
    ensures r == MergedAll(groups) && Rooted(r) && ((forall g :: g in groups ==> Plain(g)) ==> Plain(r))
    ensures EmptyGroups(groups) <= |groups|
    ensures forall store: set<Row> ::
              GroupsBag(store, groups)
              == GraphBag(store, r)
                 + EmptySolutions(if EmptyGroups(groups) == |groups| then EmptyGroups(groups) - 1 else EmptyGroups(groups))
    ensures forall store: set<Row> ::
              GraphBag(store, r) == GroupsBag(store, groups) <==> |groups| == 1 || forall g :: g in groups ==> g.vertices != []
  {
    hide Rooted, Plain, WellFormed, GraphBag, GroupsBag, Merge, EmptyGroups, EmptySolutions;
    NothingYet();
    r := EMPTY_GRAPH;
    for i := 0 to |groups|
      invariant r == MergedAll(groups[..i]) && Rooted(r) && ((forall g :: g in groups ==> Plain(g)) ==> Plain(r))
    {
      assert groups[i] in groups && Init(groups[..i + 1]) == groups[..i];
      RootedWellFormed(r);
      RootedWellFormed(groups[i]);
      MergeRooted(r, groups[i]);
      if forall g :: g in groups ==> Plain(g) {
        MergePlain(r, groups[i]);
      }
      r := Merge(r, groups[i]);
    }
    assert groups[..|groups|] == groups;
    forall g | g in groups ensures WellFormed(g) { RootedWellFormed(g); }
    MergedShape(groups);
    forall store: set<Row>
      ensures GraphBag(store, r) == GroupsBag(store, groups) <==> |groups| == 1 || forall g :: g in groups ==> g.vertices != []
      ensures GroupsBag(store, groups)
           == GraphBag(store, r)
              + EmptySolutions(if EmptyGroups(groups) == |groups| then EmptyGroups(groups) - 1 else EmptyGroups(groups))
    {
      UnionExactly(store, groups);
      UnionBag(store, groups);
    }
  }

  /** An empty group beside a pattern: its solution is lost. */
  lemma EmptyGroupLost(store: set<Row>, v: Vertex)
    ensures GraphBag(store, MergedAll([EMPTY_GRAPH, Graph([v], {})])) != GroupsBag(store, [EMPTY_GRAPH, Graph([v], {})])
  {
    hide GraphBag, MergedAll, GroupsBag, WellFormed;
    var groups := [EMPTY_GRAPH, Graph([v], {})];
    LoneGraphs(v);
    UnionExactly(store, groups);
    assert groups[0] in groups && groups[0].vertices == [];
  }

  lemma LoneGraphs(v: Vertex)
    ensures WellFormed(EMPTY_GRAPH) && WellFormed(Graph([v], {}))
  {
  }
}
