/**
 The edges of a join and of OPTIONAL: what the union components are, and which
 edges each has.
 */
module JoinedParts {
  import opened Reachability
  import opened Graphs
  import opened DependencyGraph
  import opened Preparation
  import opened BranchBags
  import opened GraphBuilder
  import opened GraphUnions
  import opened SourceComponents
  import opened UnionNormalForm
  import opened OptionalNormalForm

  /* ---------- components of merged graphs ---------- */

  lemma FrontInduced(g: Graph, h: Graph, p: seq<nat>)
    requires WellFormed(g) && WellFormed(h) && Indices(p, |g.vertices|) && Increasing(p)
    ensures Indices(p, |g.vertices| + |h.vertices|) && Induced(Merge(g, h), p) == Induced(g, p)
  {
    FrontPick(g.vertices, h.vertices, p);
    assert forall i :: 0 <= i < |p| ==> p[i] < |g.vertices|;
    var r := Merge(g, h);
    assert Indices(p, |r.vertices|);
    hide Merge, WellFormed, Pick;
    forall e ensures e in Induced(r, p).edges <==> e in Induced(g, p).edges {
      if e.src < |p| && e.dst < |p| {
        InducedEdge(r, p, e.src, e.dst, e.varId, e.opt);
        InducedEdge(g, p, e.src, e.dst, e.varId, e.opt);
        MergeEdge(g, h, Edge(p[e.src], p[e.dst], e.varId, e.opt));
      }
      if e in Induced(r, p).edges {
        InducedEdgeBack(r, p, e);
      }
      if e in Induced(g, p).edges {
        InducedEdgeBack(g, p, e);
      }
    }
    assert Induced(r, p).vertices == Induced(g, p).vertices;
  }

  lemma ShiftedEdge(g: Graph, h: Graph, p: seq<nat>, a: nat, b: nat, x: VarId, opt: bool)
    requires WellFormed(g) && WellFormed(h) && Indices(p, |h.vertices|) && Increasing(p) && a < |p| && b < |p|
    requires Indices(Shifted(p, |g.vertices|), |Merge(g, h).vertices|) && Increasing(Shifted(p, |g.vertices|))
    ensures Edge(a, b, x, opt) in Induced(Merge(g, h), Shifted(p, |g.vertices|)).edges <==> Edge(a, b, x, opt) in Induced(h, p).edges
  {
    hide *;
    var q := Shifted(p, |g.vertices|);
    assert q[a] == p[a] + |g.vertices| && q[b] == p[b] + |g.vertices|;
    InducedEdge(Merge(g, h), q, a, b, x, opt);
    InducedEdge(h, p, a, b, x, opt);
    MergeEdge(g, h, Edge(q[a], q[b], x, opt));
  }

  lemma ShiftedInduced(g: Graph, h: Graph, p: seq<nat>)
    requires WellFormed(g) && WellFormed(h) && Indices(p, |h.vertices|) && Increasing(p)
    ensures var q := Shifted(p, |g.vertices|);
            Indices(q, |g.vertices| + |h.vertices|) && Induced(Merge(g, h), q) == Induced(h, p)
  {
    var n, q, r := |g.vertices|, Shifted(p, |g.vertices|), Merge(g, h);
    ShiftedPick(g.vertices, h.vertices, p);
    ShiftedIncreasing(p, n);
    assert Indices(q, |r.vertices|);
    assert Induced(r, q).vertices == Pick(r.vertices, q) == Pick(h.vertices, p) == Induced(h, p).vertices;
    hide *;
    forall e ensures e in Induced(r, q).edges <==> e in Induced(h, p).edges {
      if e.src < |p| && e.dst < |p| {
        ShiftedEdge(g, h, p, e.src, e.dst, e.varId, e.opt);
      }
      if e in Induced(r, q).edges {
        InducedEdgeBack(r, q, e);
      }
      if e in Induced(h, p).edges {
        InducedEdgeBack(h, p, e);
      }
    }
  }

  lemma PartsMerge(g: Graph, h: Graph)
    requires WellFormed(g) && WellFormed(h)
    ensures Parts(Merge(g, h)) == Parts(g) + Parts(h)
  {
    hide UnionParts, Merge, WellFormed, Induced;
    MergeParts(g, h);
    var r, n := Parts(Merge(g, h)), |Parts(g)|;
    forall i | 0 <= i < |r| ensures r[i] == (Parts(g) + Parts(h))[i] {
      if i < n {
        assert UnionParts(g)[i] in UnionParts(g);
        PartShape(g, UnionParts(g)[i]);
        FrontInduced(g, h, UnionParts(g)[i]);
      } else {
        assert UnionParts(h)[i - n] in UnionParts(h);
        PartShape(h, UnionParts(h)[i - n]);
        ShiftedInduced(g, h, UnionParts(h)[i - n]);
      }
    }
  }

  /** One union component is the whole graph. */
  lemma OnePart(g: Graph)
    requires WellFormed(g) && |UnionParts(g)| == 1
    ensures Parts(g) == [g]
  {
    hide Components;
    var p := UnionParts(g)[0];
    assert p in UnionParts(g);
    PartShape(g, p);
    forall v: nat ensures v in p <==> v < |g.vertices| {
      if v < |g.vertices| {
        var c := ComponentsCover(ArcsOf(g.edges), |g.vertices|, v);
      }
      if v in p {
        var i :| 0 <= i < |p| && p[i] == v;
      }
    }
    IncreasingUnique(p, Range(|g.vertices|));
    WholeInduced(g);
  }

  ghost predicate Whole(g: Graph) {
    WellFormed(g) && |UnionParts(g)| == 1
  }

  lemma {:induction false} MergedParts(list: seq<Graph>)
    requires forall g :: g in list ==> Whole(g)
    ensures WellFormed(MergedAll(list)) && Parts(MergedAll(list)) == list
    decreases |list|
  {
    hide WellFormed, UnionParts, Parts;
    if list == [] {
      NothingYet();
      RootedWellFormed(EMPTY_GRAPH);
      NoParts();
    } else {
      assert Last(list) in list && forall g :: g in Init(list) ==> g in list;
      MergedParts(Init(list));
      MergeWellFormed(MergedAll(Init(list)), Last(list));
      PartsMerge(MergedAll(Init(list)), Last(list));
      OnePart(Last(list));
    }
  }

  lemma NoParts()
    ensures Parts(EMPTY_GRAPH) == []
  {
  }

  /* ---------- the components of a join ---------- */

  lemma RowWhole(first: Graph, i: nat, second: Graph)
    requires Rooted(first) && Rooted(second) && i < |UnionParts(first)|
    ensures |Parts(first)| == |UnionParts(first)| && forall l :: l in LinkedWith(Parts(first)[i], Parts(second)) ==> Whole(l)
  {
    hide UnionParts, Induced, Rooted, WellFormed, SourcesLinked;
    PartsAre(first);
    PartsAre(second);
    forall l | l in LinkedWith(Parts(first)[i], Parts(second)) ensures Whole(l) {
      var j :| 0 <= j < |Parts(second)| && LinkedWith(Parts(first)[i], Parts(second))[j] == l;
      assert UnionParts(first)[i] in UnionParts(first) && UnionParts(second)[j] in UnionParts(second);
      SourcesLinkedBranch(first, UnionParts(first)[i], second, UnionParts(second)[j]);
      RootedWellFormed(l);
      BranchCounts(l);
    }
  }

  lemma {:induction false} PairsWhole(first: Graph, second: Graph, n: nat)
    requires Rooted(first) && Rooted(second) && n <= |UnionParts(first)|
    ensures |Parts(first)| == |UnionParts(first)| && forall l :: l in LinkedPairs(Parts(first)[..n], Parts(second)) ==> Whole(l)
    decreases n
  {
    hide Rooted, UnionParts, Whole, Parts, LinkedWith;
    PartsAre(first);
    if n > 0 {
      PairsWhole(first, second, n - 1);
      LinkedStep(Parts(first), n - 1, Parts(second));
      RowWhole(first, n - 1, second);
    }
  }

  /** The union components of a join are the linked pairs of components of both sides, row by row. */
  lemma PartsOfJoin(first: Graph, second: Graph)
    requires Rooted(first) && Rooted(second) && first.vertices != [] && second.vertices != []
    ensures WellFormed(JoinedGraph(first, second))
    ensures Parts(JoinedGraph(first, second)) == LinkedPairs(Parts(first), Parts(second))
  {
    hide Rooted, UnionParts, Whole, Parts, LinkedPairs, MergedAll, WellFormed;
    PartsAre(first);
    PairsWhole(first, second, |UnionParts(first)|);
    assert Parts(first)[..|UnionParts(first)|] == Parts(first);
    MergedParts(LinkedPairs(Parts(first), Parts(second)));
  }

  /** The pair of the i-th and the j-th component. */
  lemma {:induction false} PairAt(a: seq<Graph>, b: seq<Graph>, i: nat, j: nat)
    requires i < |a| && j < |b|
    ensures |LinkedPairs(a, b)| == |a| * |b| && i * |b| + j < |a| * |b|
    ensures LinkedPairs(a, b)[i * |b| + j] == SourcesLinked(a[i], b[j])
    decreases |a|
  {
    hide *;
    PairsCount(a, b);
    PairsCount(Init(a), b);
    OneMore(|a|, |b|);
    LastRow(a, b);
    if i < |a| - 1 {
      PairAt(Init(a), b, i, j);
      assert Init(a)[i] == a[i] && LinkedPairs(a, b)[i * |b| + j] == LinkedPairs(Init(a), b)[i * |b| + j];
    } else {
      assert i == |a| - 1 && i * |b| == (|a| - 1) * |b|;
      assert LinkedPairs(a, b)[i * |b| + j] == LinkedWith(a[i], b)[j];
    }
  }

  lemma LastRow(a: seq<Graph>, b: seq<Graph>)
    requires a != []
    ensures LinkedPairs(a, b) == LinkedPairs(Init(a), b) + LinkedWith(a[|a| - 1], b)
    ensures forall i :: 0 <= i < |a| - 1 ==> Init(a)[i] == a[i]
  {
    hide SourcesLinked;
  }

  lemma {:induction false} PairsCount(a: seq<Graph>, b: seq<Graph>)
    ensures |LinkedPairs(a, b)| == |a| * |b|
    decreases |a|
  {
    if a == [] {
      assert 0 * |b| == 0;
    } else {
      hide *;
      PairsCount(Init(a), b);
      OneMore(|a|, |b|);
      LastRow(a, b);
    }
  }

  /** The edge of a component at these two of its positions. */
  ghost predicate EdgeOfPart(g: Graph, i: nat, a: nat, b: nat, e: Edge) {
    && i < |UnionParts(g)| && a < |UnionParts(g)[i]| && b < |UnionParts(g)[i]|
    && UnionParts(g)[i][a] == e.src && UnionParts(g)[i][b] == e.dst && Edge(a, b, e.varId, e.opt) in Parts(g)[i].edges
  }

  /** A graph has exactly the edges of its union components. */
  lemma EdgesByParts(g: Graph, e: Edge)
    requires WellFormed(g)
    ensures e in g.edges <==> exists i: nat, a: nat, b: nat :: EdgeOfPart(g, i, a, b, e)
  {
    hide Components, Induced, Adj;
    if e in g.edges {
      var i, a, b := EdgePlace(g, e);
      assert UnionParts(g)[i] in UnionParts(g);
      PartShape(g, UnionParts(g)[i]);
      InducedEdge(g, UnionParts(g)[i], a, b, e.varId, e.opt);
      assert EdgeOfPart(g, i, a, b, e);
    }
    if i: nat, a: nat, b: nat :| EdgeOfPart(g, i, a, b, e) {
      assert UnionParts(g)[i] in UnionParts(g);
      PartShape(g, UnionParts(g)[i]);
      InducedEdge(g, UnionParts(g)[i], a, b, e.varId, e.opt);
    }
  }

  lemma EdgePlace(g: Graph, e: Edge) returns (i: nat, a: nat, b: nat)
    requires WellFormed(g) && e in g.edges
    ensures i < |UnionParts(g)| && a < |UnionParts(g)[i]| && b < |UnionParts(g)[i]|
    ensures UnionParts(g)[i][a] == e.src && UnionParts(g)[i][b] == e.dst
  {
    InsideBelow(g, e);
    EdgeAdj(g, e);
    hide WellFormed, Components;
    var p := ComponentsCover(ArcsOf(g.edges), |g.vertices|, e.src);
    EdgeTogether(g, p, e);
    i :| i < |UnionParts(g)| && UnionParts(g)[i] == p;
    a :| a < |p| && p[a] == e.src;
    b :| b < |p| && p[b] == e.dst;
  }

  lemma EdgeTogether(g: Graph, p: seq<nat>, e: Edge)
    requires Adj(g, e.src, e.dst) && p in UnionParts(g) && e.src in p && e.dst < |g.vertices|
    ensures e.dst in p
  {
    hide Components;
    var es := ArcsOf(g.edges);
    UndirectedHas(es, e.src, e.dst);
    ReachArc(Undirected(es), e.src, e.dst);
    ComponentClosed(es, |g.vertices|, p, e.src, e.dst);
  }

  /* ---------- the edges of a linked pair ---------- */

  /**
   The edges of a linked pair: within a side those of the side, labels and flags
   included; across, between the sources of both sides and in both directions,
   one for each shared variable, or one without a label if there is none.
   */
  lemma PairEdges(g: Graph, h: Graph, e: Edge)
    requires WellFormed(g) && WellFormed(h)
    ensures var n, vs := |g.vertices|, g.vertices + h.vertices;
            (e in SourcesLinked(g, h).edges <==>
             || (e.src < n && e in g.edges)
             || (e.src >= n && e.dst >= n && Edge(e.src - n, e.dst - n, e.varId, e.opt) in h.edges)
             || (!e.opt && e.src < n <= e.dst && InIsc(g, e.src) && InIsc(h, e.dst - n) && LinkLabel(vs[e.src], vs[e.dst], e.varId))
             || (!e.opt && e.dst < n <= e.src && InIsc(g, e.dst) && InIsc(h, e.src - n) && LinkLabel(vs[e.dst], vs[e.src], e.varId)))
  {
    var n, vs := |g.vertices|, g.vertices + h.vertices;
    var a, b := Sources(g), ShiftSet(Sources(h), n);
    MergeEdge(g, h, e);
    SourcesWithin(g, h);
    LinkEdge(vs, a, b, true, e);
    hide Sources, ShiftSet, InIsc, WellFormed, Links;
    assert e in SourcesLinked(g, h).edges <==> e in Merge(g, h).edges || e in Links(vs, a, b, true);
    hide SourcesLinked, Merge;
    if e.src < n && e.dst >= n && e.dst < |vs| {
      LabelIs(vs[e.src], vs[e.dst], e.varId);
    }
    if e.dst < n && e.src >= n && e.src < |vs| {
      LabelIs(vs[e.dst], vs[e.src], e.varId);
    }
  }

  lemma SourcesWithin(g: Graph, h: Graph)
    ensures forall u :: u in Sources(g) ==> u < |g.vertices|
    ensures forall u :: u in ShiftSet(Sources(h), |g.vertices|) ==> |g.vertices| <= u < |g.vertices| + |h.vertices|
  {
  }

  /** A variable of both, or no variable if they share none. */
  ghost predicate LinkLabel(u: Vertex, v: Vertex, x: VarId) {
    (x in u.vars && x in v.vars) || (x == NO_VAR && forall y :: y in u.vars ==> y !in v.vars)
  }

  lemma LabelIs(u: Vertex, v: Vertex, x: VarId)
    ensures x in Labels(u, v) <==> LinkLabel(u, v, x)
  {
    forall y ensures y in SharedVars(u, v) <==> y in u.vars && y in v.vars {
    }
    if SharedVars(u, v) != {} {
      var y :| y in SharedVars(u, v);
      assert y in u.vars && y in v.vars;
    }
  }

  /* ---------- labels ---------- */

  /** Linking keeps exact labels. */
  lemma PairLabels(g: Graph, h: Graph)
    requires WellFormed(g) && WellFormed(h) && LabelsExact(g) && LabelsExact(h)
    ensures LabelsExact(SourcesLinked(g, h))
  {
    var r := SourcesLinked(g, h);
    hide SourcesLinked, Adj, LabelsExact, WellFormed, SharedVar;
    forall e | e in r.edges && e.varId != NO_VAR ensures SharedVar(r, e.src, e.dst, e.varId) {
      PairShared(g, h, e);
    }
    forall u: nat, v: nat, x: VarId | Adj(r, u, v) && SharedVar(r, u, v, x) ensures Edge(u, v, x, false) in r.edges {
      PairLabelled(g, h, u, v, x);
    }
    MakeLabels(r);
  }

  lemma MakeLabels(r: Graph)
    requires forall e :: e in r.edges && e.varId != NO_VAR ==> SharedVar(r, e.src, e.dst, e.varId)
    requires forall u: nat, v: nat, x: VarId :: Adj(r, u, v) && SharedVar(r, u, v, x) ==> Edge(u, v, x, false) in r.edges
    ensures LabelsExact(r)
  {
    hide Adj, SharedVar;
  }

  lemma LinkedVertices(g: Graph, h: Graph)
    ensures SourcesLinked(g, h).vertices == g.vertices + h.vertices
  {
  }

  lemma SharedIn(g: Graph, e: Edge)
    requires LabelsExact(g) && e in g.edges && e.varId != NO_VAR
    ensures SharedVar(g, e.src, e.dst, e.varId)
  {
    hide SharedVar;
  }

  /** A label across the sides is a variable of both. */
  lemma LabelShared(vs: seq<Vertex>, u: nat, v: nat, x: VarId)
    requires u < |vs| && v < |vs| && x != NO_VAR && LinkLabel(vs[u], vs[v], x)
    ensures x in vs[u].vars && x in vs[v].vars
  {
  }

  lemma PairShared(g: Graph, h: Graph, e: Edge)
    requires WellFormed(g) && WellFormed(h) && LabelsExact(g) && LabelsExact(h)
    requires e in SourcesLinked(g, h).edges && e.varId != NO_VAR
    ensures SharedVar(SourcesLinked(g, h), e.src, e.dst, e.varId)
  {
    var n, vs := |g.vertices|, g.vertices + h.vertices;
    LinkedVertices(g, h);
    hide SourcesLinked, LabelsExact, LinkLabel;
    PairEdges(g, h, e);
    if e.src < n && e in g.edges {
      SharedIn(g, e);
    } else if e.src >= n && e.dst >= n {
      SharedIn(h, Edge(e.src - n, e.dst - n, e.varId, e.opt));
    } else if e.src < n {
      LabelShared(vs, e.src, e.dst, e.varId);
    } else {
      LabelShared(vs, e.dst, e.src, e.varId);
    }
  }

  lemma PairLabelled(g: Graph, h: Graph, u: nat, v: nat, x: VarId)
    requires WellFormed(g) && WellFormed(h) && LabelsExact(g) && LabelsExact(h)
    requires Adj(SourcesLinked(g, h), u, v) && SharedVar(SourcesLinked(g, h), u, v, x)
    ensures Edge(u, v, x, false) in SourcesLinked(g, h).edges
  {
    var r, n, vs := SourcesLinked(g, h), |g.vertices|, g.vertices + h.vertices;
    LinkedVertices(g, h);
    SharedAt(g, h, u, v, x);
    hide *;
    var e := AdjEdge(r, u, v);
    PairEdges(g, h, e);
    PairEdges(g, h, Edge(u, v, x, false));
    if e.src < n && e in g.edges {
      EdgeAdj(g, e);
      InsideBelow(g, e);
      LabelledEdge(g, u, v, x);
    } else if u >= n && v >= n {
      EdgeAdj(h, Edge(u - n, v - n, e.varId, e.opt));
      LabelledEdge(h, u - n, v - n, x);
    } else if u < n {
      SharedLabel(vs[u], vs[v], x);
    } else {
      SharedLabel(vs[v], vs[u], x);
    }
  }

  lemma InsideBelow(g: Graph, e: Edge)
    requires WellFormed(g) && e in g.edges
    ensures e.src < |g.vertices| && e.dst < |g.vertices|
  {
  }

  lemma SharedLabel(u: Vertex, v: Vertex, x: VarId)
    requires x in u.vars && x in v.vars
    ensures LinkLabel(u, v, x)
  {
  }

  lemma SharedAt(g: Graph, h: Graph, u: nat, v: nat, x: VarId)
    requires SourcesLinked(g, h).vertices == g.vertices + h.vertices && SharedVar(SourcesLinked(g, h), u, v, x)
    ensures var n, vs := |g.vertices|, g.vertices + h.vertices;
            && u < |vs| && v < |vs| && x in vs[u].vars && x in vs[v].vars
            && (u < n && v < n ==> SharedVar(g, u, v, x)) && (u >= n && v >= n ==> SharedVar(h, u - n, v - n, x))
  {
    hide SourcesLinked;
  }

  lemma {:induction false} MergedLabels(list: seq<Graph>)
    requires forall g :: g in list ==> WellFormed(g) && LabelsExact(g)
    ensures WellFormed(MergedAll(list)) && LabelsExact(MergedAll(list))
    decreases |list|
  {
    hide WellFormed, LabelsExact;
    if list == [] {
      NothingYet();
      RootedWellFormed(EMPTY_GRAPH);
      NoLabels();
    } else {
      assert Last(list) in list && forall g :: g in Init(list) ==> g in list;
      MergedLabels(Init(list));
      MergeWellFormed(MergedAll(Init(list)), Last(list));
      MergeLabels(MergedAll(Init(list)), Last(list));
    }
  }

  lemma NoLabels()
    ensures LabelsExact(EMPTY_GRAPH)
  {
  }

  lemma {:induction false} PairsMember(a: seq<Graph>, b: seq<Graph>, l: Graph)
    requires l in LinkedPairs(a, b)
    ensures exists u, w :: u in a && w in b && l == SourcesLinked(u, w)
    decreases |a|
  {
    hide SourcesLinked;
    if l in LinkedPairs(Init(a), b) {
      PairsMember(Init(a), b, l);
      var u, w :| u in Init(a) && w in b && l == SourcesLinked(u, w);
      assert u in a;
    } else {
      var j :| 0 <= j < |b| && LinkedWith(Last(a), b)[j] == l;
      assert Last(a) in a && b[j] in b;
    }
  }

  lemma PartLabels(g: Graph, u: Graph)
    requires WellFormed(g) && LabelsExact(g) && u in Parts(g)
    ensures WellFormed(u) && LabelsExact(u)
  {
    hide WellFormed, LabelsExact, UnionParts, Induced;
    var i :| 0 <= i < |Parts(g)| && Parts(g)[i] == u;
    assert UnionParts(g)[i] in UnionParts(g);
    PartShape(g, UnionParts(g)[i]);
    InducedWellFormed(g, UnionParts(g)[i]);
    InducedLabels(g, UnionParts(g)[i]);
  }

  /** A join of graphs with exact labels has exact labels, OPTIONAL parts included. */
  lemma JoinLabels(first: Graph, second: Graph)
    requires Rooted(first) && Rooted(second) && LabelsExact(first) && LabelsExact(second)
    ensures LabelsExact(JoinedGraph(first, second))
  {
    hide Rooted, LabelsExact, Parts, LinkedPairs, MergedAll, WellFormed, SourcesLinked;
    RootedWellFormed(first);
    RootedWellFormed(second);
    forall l | l in LinkedPairs(Parts(first), Parts(second)) && first.vertices != [] && second.vertices != []
      ensures WellFormed(l) && LabelsExact(l)
    {
      PairsMember(Parts(first), Parts(second), l);
      var u, w :| u in Parts(first) && w in Parts(second) && l == SourcesLinked(u, w);
      PartLabels(first, u);
      PartLabels(second, w);
      PairLabels(u, w);
      LinkedWellFormed(u, w);
    }
    if first.vertices != [] && second.vertices != [] {
      MergedLabels(LinkedPairs(Parts(first), Parts(second)));
    }
  }

  lemma LinkedWellFormed(g: Graph, h: Graph)
    requires WellFormed(g) && WellFormed(h)
    ensures WellFormed(SourcesLinked(g, h))
  {
    var r := SourcesLinked(g, h);
    assert r.vertices == g.vertices + h.vertices;
    hide SourcesLinked;
    forall e | e in r.edges ensures e.src < |r.vertices| && e.dst < |r.vertices| && e.src != e.dst {
      PairEdges(g, h, e);
    }
  }

  /* ---------- the edges of OPTIONAL ---------- */

  /** A copy of the optional side linked to each component. */
  ghost function OptionalLinks(components: seq<Graph>, second: Graph): (r: seq<Graph>)
    requires PartsWithin(second, UnionParts(second))
    ensures |r| == |components|
    ensures forall i :: 0 <= i < |r| ==> r[i] == OptionalLink(components[i], second, UnionParts(second))
  {
    seq(|components|, i requires 0 <= i < |components| => OptionalLink(components[i], second, UnionParts(second)))
  }

  lemma {:induction false} CombinedIs(first: Graph, second: Graph, n: nat)
    requires PartsWithin(first, UnionParts(first)) && PartsWithin(second, UnionParts(second)) && n <= |UnionParts(first)|
    ensures |Parts(first)| == |UnionParts(first)| && PartsWithin(first, UnionParts(first)[..n])
    ensures OptionalCombined(first, UnionParts(first)[..n], second, UnionParts(second)) == MergedAll(OptionalLinks(Parts(first)[..n], second))
    decreases n
  {
    hide *;
    PartsAre(first);
    if n == 0 {
      NoneCombined(first, UnionParts(first), second, UnionParts(second));
      NoCopies(Parts(first), second);
    } else {
      CombinedIs(first, second, n - 1);
      CombinedStep(first, UnionParts(first), n - 1, second, UnionParts(second));
      OneCopyMore(Parts(first), n - 1, n, second);
    }
  }

  lemma NoCopies(components: seq<Graph>, second: Graph)
    requires PartsWithin(second, UnionParts(second))
    ensures MergedAll(OptionalLinks(components[..0], second)) == EMPTY_GRAPH
  {
    hide UnionParts, OptionalLink;
  }

  lemma OneCopyMore(components: seq<Graph>, i: nat, n: nat, second: Graph)
    requires PartsWithin(second, UnionParts(second)) && i < |components| && n == i + 1
    ensures MergedAll(OptionalLinks(components[..n], second))
         == Merge(MergedAll(OptionalLinks(components[..i], second)), OptionalLink(components[i], second, UnionParts(second)))
  {
    hide UnionParts, OptionalLink, Merge;
    var r := OptionalLinks(components[..n], second);
    assert Init(r) == OptionalLinks(components[..i], second);
    assert Last(r) == OptionalLink(components[i], second, UnionParts(second));
  }

  /** What OPTIONAL builds: for each component of the mandatory side a copy of the optional side linked to it. */
  lemma OptionalIs(first: Graph, second: Graph)
    requires PartsWithin(first, UnionParts(first)) && PartsWithin(second, UnionParts(second))
    ensures OptionalCombined(first, UnionParts(first), second, UnionParts(second)) == MergedAll(OptionalLinks(Parts(first), second))
  {
    hide UnionParts, Parts, OptionalCombined, MergedAll;
    CombinedIs(first, second, |UnionParts(first)|);
    assert UnionParts(first)[..|UnionParts(first)|] == UnionParts(first) && Parts(first)[..|UnionParts(first)|] == Parts(first);
  }

  /** The position of a source of some component, counted within the component. */
  ghost predicate LocalSource(g: Graph, t: nat) {
    exists u :: u in Parts(g) && InIsc(u, t)
  }

  /** A source at t in one of the first n components. */
  ghost predicate SourceAmong(g: Graph, n: nat, t: nat) {
    exists i :: 0 <= i < n && i < |Parts(g)| && InIsc(Parts(g)[i], t)
  }

  lemma AmongNext(g: Graph, n: nat, t: nat)
    ensures !SourceAmong(g, 0, t)
    ensures n < |Parts(g)| ==> (SourceAmong(g, n + 1, t) <==> SourceAmong(g, n, t) || InIsc(Parts(g)[n], t))
  {
    hide Parts, InIsc;
  }

  lemma {:induction false} LocalIff(g: Graph, n: nat, t: nat)
    requires PartsWithin(g, UnionParts(g)) && n <= |UnionParts(g)|
    ensures PartsWithin(g, UnionParts(g)[..n])
    ensures t in LocalSources(g, UnionParts(g)[..n]) <==> SourceAmong(g, n, t)
    decreases n
  {
    if n == 0 {
      AmongNext(g, 0, t);
    } else {
      hide *;
      PartsAre(g);
      LocalIff(g, n - 1, t);
      AmongNext(g, n - 1, t);
      LocalNext(g, UnionParts(g), n - 1, t);
    }
  }

  lemma LocalNext(g: Graph, parts: seq<seq<nat>>, i: nat, t: nat)
    requires PartsWithin(g, parts) && i < |parts|
    ensures PartsWithin(g, parts[..i]) && PartsWithin(g, parts[..i + 1]) && Indices(parts[i], |g.vertices|)
    ensures t in LocalSources(g, parts[..i + 1]) <==> t in LocalSources(g, parts[..i]) || InIsc(Induced(g, parts[i]), t)
  {
    hide Induced, InIsc;
    assert Init(parts[..i + 1]) == parts[..i] && Last(parts[..i + 1]) == parts[i];
  }

  lemma LocalSourceIs(g: Graph, t: nat)
    requires PartsWithin(g, UnionParts(g))
    ensures t in LocalSources(g, UnionParts(g)) <==> LocalSource(g, t)
  {
    hide UnionParts, Parts, InIsc, LocalSources;
    PartsAre(g);
    LocalIff(g, |UnionParts(g)|, t);
    assert UnionParts(g)[..|UnionParts(g)|] == UnionParts(g);
    if LocalSource(g, t) {
      var u :| u in Parts(g) && InIsc(u, t);
      var i :| 0 <= i < |Parts(g)| && Parts(g)[i] == u;
    }
    if SourceAmong(g, |UnionParts(g)|, t) {
      var i :| 0 <= i < |Parts(g)| && InIsc(Parts(g)[i], t);
      assert Parts(g)[i] in Parts(g);
    }
  }

  /**
   The edges of a component with its optional side: those of either, and from
   the sources of the component to the positions of local sources one for each
   shared variable, or one without a label; none leads back.
   */
  lemma OptionalEdges(c: Graph, second: Graph, e: Edge)
    requires WellFormed(c) && WellFormed(second) && PartsWithin(second, UnionParts(second))
    ensures var n, vs := |c.vertices|, c.vertices + second.vertices;
            (e in OptionalLink(c, second, UnionParts(second)).edges <==>
             || (e.src < n && e in c.edges)
             || (e.src >= n && e.dst >= n && Edge(e.src - n, e.dst - n, e.varId, e.opt) in second.edges)
             || (!e.opt && e.src < n <= e.dst < |vs| && InIsc(c, e.src) && LocalSource(second, e.dst - n)
                 && LinkLabel(vs[e.src], vs[e.dst], e.varId)))
  {
    var n, vs := |c.vertices|, c.vertices + second.vertices;
    var a, b := Sources(c), ShiftSet(LocalSources(second, UnionParts(second)), n);
    MergeEdge(c, second, e);
    OptionalSetsWithin(c, second);
    LinkEdge(vs, a, b, false, e);
    OptionalLinkEdges(c, second, e);
    hide Sources, ShiftSet, InIsc, WellFormed, Links, LocalSources, OptionalLink, Merge, LocalSource;
    if e.src < n && n <= e.dst < |vs| {
      LabelIs(vs[e.src], vs[e.dst], e.varId);
      LocalSourceIs(second, e.dst - n);
    }
  }

  lemma OptionalSetsWithin(c: Graph, second: Graph)
    requires PartsWithin(second, UnionParts(second))
    ensures forall u :: u in Sources(c) ==> u < |c.vertices|
    ensures forall u :: u in ShiftSet(LocalSources(second, UnionParts(second)), |c.vertices|) ==>
              |c.vertices| <= u < |c.vertices| + |second.vertices|
  {
    hide UnionParts, InIsc;
    forall i | 0 <= i < |UnionParts(second)| ensures Increasing(UnionParts(second)[i]) {
      PartAt(second, i);
    }
    LocalBelow(second, UnionParts(second));
  }

  lemma OptionalLinkEdges(c: Graph, second: Graph, e: Edge)
    requires PartsWithin(second, UnionParts(second))
    ensures e in OptionalLink(c, second, UnionParts(second)).edges <==>
            e in Merge(c, second).edges
            || e in Links(c.vertices + second.vertices, Sources(c),
                          ShiftSet(LocalSources(second, UnionParts(second)), |c.vertices|), false)
  {
    hide Links, Sources, ShiftSet, LocalSources, Merge;
  }
}
