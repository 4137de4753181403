/**
 Building operand dependency graphs: adding vertices and dependencies in place,
 and merging graphs.
 */
module GraphBuilder {
  import opened Reachability
  import opened Graphs

  /* ---------- dependencies ---------- */

  function SharedVars(u: Vertex, v: Vertex): set<VarId> {
    set x | x in u.vars && x in v.vars
  }

  /** One label for each shared variable, or the empty label if there is none. */
  function Labels(u: Vertex, v: Vertex): set<VarId> {
    if SharedVars(u, v) == {} then {NO_VAR} else SharedVars(u, v)
  }

  function Towards(source: nat, target: nat, labels: set<VarId>): set<Edge> {
    set x | x in labels :: Edge(source, target, x, false)
  }

  function Dependencies(vs: seq<Vertex>, source: nat, target: nat, bidirectional: bool): set<Edge>
    requires source < |vs| && target < |vs|
  {
    var labels := Labels(vs[source], vs[target]);
    Towards(source, target, labels) + if bidirectional then Towards(target, source, labels) else {}
  }

  /** The dependencies from the vertices of a to those of b, and back if asked for. */
  ghost function Links(vs: seq<Vertex>, a: set<nat>, b: set<nat>, bidirectional: bool): set<Edge> {
    set u, v, e | u in a && v in b && u < |vs| && v < |vs| && e in Dependencies(vs, u, v, bidirectional) :: e
  }

  /* ---------- merging ---------- */

  function ShiftEdges(es: set<Edge>, offset: nat): set<Edge> {
    set e | e in es :: Edge(e.src + offset, e.dst + offset, e.varId, e.opt)
  }

  /** Both graphs side by side, without new edges. */
  function Merge(g: Graph, h: Graph): (r: Graph)
    ensures r.vertices == g.vertices + h.vertices
  {
    Graph(g.vertices + h.vertices, g.edges + ShiftEdges(h.edges, |g.vertices|))
  }

  lemma MergeEdge(g: Graph, h: Graph, e: Edge)
    requires WellFormed(g) && WellFormed(h)
    ensures e.src < |g.vertices| ==> (e in Merge(g, h).edges <==> e in g.edges)
    ensures e.src >= |g.vertices| ==>
              (e in Merge(g, h).edges <==>
               e.dst >= |g.vertices| && Edge(e.src - |g.vertices|, e.dst - |g.vertices|, e.varId, e.opt) in h.edges)
  {
    var n := |g.vertices|;
    if e.src >= n && e.dst >= n && Edge(e.src - n, e.dst - n, e.varId, e.opt) in h.edges {
      var d := Edge(e.src - n, e.dst - n, e.varId, e.opt);
      assert e == Edge(d.src + n, d.dst + n, d.varId, d.opt);
    }
  }

  lemma MergeAdj(g: Graph, h: Graph, u: nat, v: nat)
    requires WellFormed(g) && WellFormed(h)
    ensures Adj(Merge(g, h), u, v) <==>
            if u < |g.vertices| then Adj(g, u, v)
            else v >= |g.vertices| && Adj(h, u - |g.vertices|, v - |g.vertices|)
  {
    hide Adj, ArcsOf;
    if Adj(Merge(g, h), u, v) {
      MergeAdjForth(g, h, u, v);
    }
    if u < |g.vertices| && Adj(g, u, v) {
      var e := AdjEdge(g, u, v);
      EdgeAdj(Merge(g, h), e);
    }
    if u >= |g.vertices| && v >= |g.vertices| && Adj(h, u - |g.vertices|, v - |g.vertices|) {
      var d := AdjEdge(h, u - |g.vertices|, v - |g.vertices|);
      var e := Edge(u, v, d.varId, d.opt);
      MergeEdge(g, h, e);
      EdgeAdj(Merge(g, h), e);
    }
  }

  lemma MergeAdjForth(g: Graph, h: Graph, u: nat, v: nat)
    requires WellFormed(g) && WellFormed(h) && Adj(Merge(g, h), u, v)
    ensures if u < |g.vertices| then Adj(g, u, v)
            else v >= |g.vertices| && Adj(h, u - |g.vertices|, v - |g.vertices|)
  {
    hide Adj, ArcsOf, Merge;
    var n := |g.vertices|;
    var e := AdjEdge(Merge(g, h), u, v);
    MergeEdge(g, h, e);
    if u < n {
      EdgeAdj(g, e);
    } else {
      EdgeAdj(h, Edge(e.src - n, e.dst - n, e.varId, e.opt));
    }
  }

  lemma AdjEdge(g: Graph, u: nat, v: nat) returns (e: Edge)
    requires Adj(g, u, v)
    ensures e in g.edges && e.src == u && e.dst == v
  {
    e :| e in g.edges && (e.src, e.dst) == (u, v);
  }

  lemma EdgeAdj(g: Graph, e: Edge)
    requires e in g.edges
    ensures Adj(g, e.src, e.dst)
  {
  }

  lemma MergeWellFormed(g: Graph, h: Graph)
    requires WellFormed(g) && WellFormed(h)
    ensures WellFormed(Merge(g, h))
  {
  }

  /** Side by side plain graphs are plain. */
  lemma MergePlain(g: Graph, h: Graph)
    requires Plain(g) && Plain(h)
    ensures Plain(Merge(g, h))
  {
    var r := Merge(g, h);
    MergeWellFormed(g, h);
    MergeCliques(g, h);
    MergeLabels(g, h);
  }

  lemma MergeCliques(g: Graph, h: Graph)
    requires WellFormed(g) && WellFormed(h) && Cliques(g) && Cliques(h)
    ensures Cliques(Merge(g, h))
  {
    hide Adj;
    var r := Merge(g, h);
    forall u: nat, v: nat | Adj(r, u, v) ensures Adj(r, v, u) {
      MergeAdj(g, h, u, v);
      MergeAdj(g, h, v, u);
      if u < |g.vertices| {
        AdjBelow(g, u, v);
      }
    }
    forall u: nat, v: nat, w: nat | Adj(r, u, v) && Adj(r, v, w) && u != w ensures Adj(r, u, w) {
      MergeAdj(g, h, u, v);
      MergeAdj(g, h, v, w);
      MergeAdj(g, h, u, w);
      if u < |g.vertices| {
        AdjBelow(g, u, v);
      }
    }
  }

  lemma AdjBelow(g: Graph, u: nat, v: nat)
    requires WellFormed(g) && Adj(g, u, v)
    ensures u < |g.vertices| && v < |g.vertices| && u != v
  {
  }

  lemma MergeLabels(g: Graph, h: Graph)
    requires WellFormed(g) && WellFormed(h) && LabelsExact(g) && LabelsExact(h)
    ensures LabelsExact(Merge(g, h))
  {
    hide Adj;
    var r := Merge(g, h);
    forall e | e in r.edges && e.varId != NO_VAR ensures SharedVar(r, e.src, e.dst, e.varId) {
      MergeShares(g, h, e);
    }
    forall u: nat, v: nat, x: VarId | Adj(r, u, v) && SharedVar(r, u, v, x) ensures Edge(u, v, x, false) in r.edges {
      MergeLabelled(g, h, u, v, x);
    }
  }

  lemma MergeShares(g: Graph, h: Graph, e: Edge)
    requires WellFormed(g) && WellFormed(h) && LabelsExact(g) && LabelsExact(h)
    requires e in Merge(g, h).edges && e.varId != NO_VAR
    ensures SharedVar(Merge(g, h), e.src, e.dst, e.varId)
  {
    var n := |g.vertices|;
    MergeEdge(g, h, e);
    if e.src < n {
      assert SharedVar(g, e.src, e.dst, e.varId);
    } else {
      assert SharedVar(h, e.src - n, e.dst - n, e.varId);
    }
  }

  lemma MergeLabelled(g: Graph, h: Graph, u: nat, v: nat, x: VarId)
    requires WellFormed(g) && WellFormed(h) && LabelsExact(g) && LabelsExact(h)
    requires Adj(Merge(g, h), u, v) && SharedVar(Merge(g, h), u, v, x)
    ensures Edge(u, v, x, false) in Merge(g, h).edges
  {
    hide *;
    var n := |g.vertices|;
    MergeAdj(g, h, u, v);
    MergeEdge(g, h, Edge(u, v, x, false));
    MergeShared(g, h, u, v, x);
    if u < n {
      AdjBelow(g, u, v);
      LabelledEdge(g, u, v, x);
    } else {
      AdjBelow(h, u - n, v - n);
      LabelledEdge(h, u - n, v - n, x);
    }
  }

  lemma MergeShared(g: Graph, h: Graph, u: nat, v: nat, x: VarId)
    ensures u < |g.vertices| && v < |g.vertices| ==> (SharedVar(Merge(g, h), u, v, x) <==> SharedVar(g, u, v, x))
    ensures u >= |g.vertices| && v >= |g.vertices| ==>
              (SharedVar(Merge(g, h), u, v, x) <==> SharedVar(h, u - |g.vertices|, v - |g.vertices|, x))
  {
  }

  lemma LabelledEdge(g: Graph, u: nat, v: nat, x: VarId)
    requires LabelsExact(g) && Adj(g, u, v) && SharedVar(g, u, v, x)
    ensures Edge(u, v, x, false) in g.edges
  {
  }

  /* ---------- linking two cliques ---------- */

  /** Both graphs with dependencies from the vertices of a to those of b. */
  ghost function LinkedBy(g: Graph, h: Graph, a: set<nat>, b: set<nat>, bidirectional: bool): Graph {
    var r := Merge(g, h);
    Graph(r.vertices, r.edges + Links(r.vertices, a, b, bidirectional))
  }

  /** Both graphs with dependencies between all vertices of the first and all of the second. */
  ghost function Linked(g: Graph, h: Graph): Graph {
    LinkedBy(g, h, Below(|g.vertices|), Below(|g.vertices| + |h.vertices|) - Below(|g.vertices|), true)
  }

  lemma LinkEdge(vs: seq<Vertex>, a: set<nat>, b: set<nat>, bidirectional: bool, e: Edge)
    requires forall u :: u in a || u in b ==> u < |vs|
    ensures e in Links(vs, a, b, bidirectional) <==>
            !e.opt && ((e.src in a && e.dst in b && e.varId in Labels(vs[e.src], vs[e.dst]))
                       || (bidirectional && e.dst in a && e.src in b && e.varId in Labels(vs[e.dst], vs[e.src])))
  {
    if !e.opt && e.src in a && e.dst in b && e.varId in Labels(vs[e.src], vs[e.dst]) {
      assert e in Dependencies(vs, e.src, e.dst, bidirectional);
    }
    if bidirectional && !e.opt && e.dst in a && e.src in b && e.varId in Labels(vs[e.dst], vs[e.src]) {
      assert e in Dependencies(vs, e.dst, e.src, bidirectional);
    }
  }

  lemma LinkedEdge(g: Graph, h: Graph, e: Edge)
    requires WellFormed(g) && WellFormed(h)
    ensures var n, vs := |g.vertices|, g.vertices + h.vertices;
            (e in Linked(g, h).edges <==>
             e in Merge(g, h).edges
             || (!e.opt && e.src < n <= e.dst < |vs| && e.varId in Labels(vs[e.src], vs[e.dst]))
             || (!e.opt && e.dst < n <= e.src < |vs| && e.varId in Labels(vs[e.dst], vs[e.src])))
  {
    var vs := g.vertices + h.vertices;
    LinkEdge(vs, Below(|g.vertices|), Below(|vs|) - Below(|g.vertices|), true, e);
  }

  lemma SomeLabel(u: Vertex, v: Vertex)
    ensures exists x :: x in Labels(u, v)
  {
    if SharedVars(u, v) == {} {
      assert NO_VAR in Labels(u, v);
    } else {
      var x :| x in SharedVars(u, v);
      assert x in Labels(u, v);
    }
  }

  lemma LinkedAdj(g: Graph, h: Graph, u: nat, v: nat)
    requires WellFormed(g) && WellFormed(h) && Clique(g) && Clique(h)
    requires u < |g.vertices| + |h.vertices| && v < |g.vertices| + |h.vertices| && u != v
    ensures Adj(Linked(g, h), u, v)
  {
    hide Linked, LinkedBy, Labels;
    var r, n, vs := Linked(g, h), |g.vertices|, g.vertices + h.vertices;
    if (u < n) == (v < n) {
      MergeAdj(g, h, u, v);
      var e :| e in Merge(g, h).edges && (e.src, e.dst) == (u, v);
      LinkedEdge(g, h, e);
      assert e in r.edges;
    } else {
      var s, t := if u < n then u else v, if u < n then v else u;
      SomeLabel(vs[s], vs[t]);
      var x :| x in Labels(vs[s], vs[t]);
      var e := Edge(u, v, x, false);
      LinkedEdge(g, h, e);
      assert e in r.edges && (e.src, e.dst) == (u, v);
    }
  }

  lemma CliqueCliques(g: Graph)
    requires Clique(g) && WellFormed(g)
    ensures Cliques(g)
  {
    hide Adj;
    forall u: nat, v: nat | Adj(g, u, v) ensures Adj(g, v, u) {
      AdjBelow(g, u, v);
    }
    forall u: nat, v: nat, w: nat | Adj(g, u, v) && Adj(g, v, w) && u != w ensures Adj(g, u, w) {
      AdjBelow(g, u, v);
      AdjBelow(g, v, w);
    }
  }

  /** Linking two sets of mutually dependent vertices makes one. */
  lemma LinkedClique(g: Graph, h: Graph)
    requires Plain(g) && Plain(h) && Clique(g) && Clique(h)
    ensures Plain(Linked(g, h)) && Clique(Linked(g, h))
  {
    hide Linked, LinkedBy, Adj, Links;
    LinkedShape(g, h);
    forall u: nat, v: nat | u < |Linked(g, h).vertices| && v < |Linked(g, h).vertices| && u != v
      ensures Adj(Linked(g, h), u, v)
    {
      LinkedAdj(g, h, u, v);
    }
    CliqueCliques(Linked(g, h));
    LinkedLabels(g, h);
  }

  lemma LinkedShape(g: Graph, h: Graph)
    requires Plain(g) && Plain(h)
    ensures Linked(g, h).vertices == g.vertices + h.vertices
    ensures WellFormed(Linked(g, h)) && Mandatory(Linked(g, h)) && ProperVars(Linked(g, h).vertices)
  {
    MergeWellFormed(g, h);
    forall e | e in Linked(g, h).edges
      ensures e.src < |Linked(g, h).vertices| && e.dst < |Linked(g, h).vertices| && e.src != e.dst && !e.opt
    {
      LinkedEdge(g, h, e);
    }
  }

  lemma LinkedLabels(g: Graph, h: Graph)
    requires Plain(g) && Plain(h) && Clique(g) && Clique(h)
    ensures LabelsExact(Linked(g, h))
  {
    hide Linked, LinkedBy, Adj, Links, Merge, Clique;
    var r, n, vs := Linked(g, h), |g.vertices|, g.vertices + h.vertices;
    LinkedShape(g, h);
    MergeLabels(g, h);
    forall e | e in r.edges && e.varId != NO_VAR ensures SharedVar(r, e.src, e.dst, e.varId) {
      LinkedEdge(g, h, e);
      if e in Merge(g, h).edges {
        assert SharedVar(Merge(g, h), e.src, e.dst, e.varId);
      }
    }
    forall u: nat, v: nat, x: VarId | Adj(r, u, v) && SharedVar(r, u, v, x) ensures Edge(u, v, x, false) in r.edges {
      LinkedHas(g, h, u, v, x);
    }
  }

  lemma LinkedHas(g: Graph, h: Graph, u: nat, v: nat, x: VarId)
    requires Plain(g) && Plain(h) && Clique(g) && Clique(h)
    requires Adj(Linked(g, h), u, v) && SharedVar(Linked(g, h), u, v, x)
    ensures Edge(u, v, x, false) in Linked(g, h).edges
  {
    hide Linked, LinkedBy, Links, Merge;
    var n, vs, e := |g.vertices|, g.vertices + h.vertices, Edge(u, v, x, false);
    LinkedShape(g, h);
    AdjBelow(Linked(g, h), u, v);
    LinkedEdge(g, h, e);
    if (u < n) == (v < n) {
      MergeAdj(g, h, u, v);
      MergeLabels(g, h);
      assert Adj(Merge(g, h), u, v) && SharedVar(Merge(g, h), u, v, x);
    } else {
      assert x in SharedVars(vs[u], vs[v]) && x in SharedVars(vs[v], vs[u]);
    }
  }

  /* ---------- dependencies between all vertices ---------- */

  /** Dependencies between every two vertices, in both directions. */
  ghost function Complete(vs: seq<Vertex>): Graph {
    Graph(vs, PairsBefore(vs, |vs|, 0))
  }

  /** The dependencies of the pairs u, v with u < v, up to and without the pair i, j. */
  ghost function PairsBefore(vs: seq<Vertex>, i: nat, j: nat): set<Edge> {
    set u, v, e | 0 <= u < v < |vs| && (u < i || (u == i && v < j)) && e in Dependencies(vs, u, v, true) :: e
  }

  lemma PairsStep(vs: seq<Vertex>, i: nat, j: nat)
    requires i < j < |vs|
    ensures PairsBefore(vs, i, j + 1) == PairsBefore(vs, i, j) + Dependencies(vs, i, j, true)
  {
    hide Dependencies;
  }

  lemma PairsRow(vs: seq<Vertex>, i: nat)
    ensures PairsBefore(vs, i, |vs|) == PairsBefore(vs, i + 1, i + 2) == PairsBefore(vs, i + 1, 0)
    ensures i + 1 == |vs| ==> PairsBefore(vs, i, i + 1) == PairsBefore(vs, |vs|, 0)
  {
    hide Dependencies;
  }

  lemma NoPairs(vs: seq<Vertex>)
    ensures PairsBefore(vs, 0, 1) == {}
  {
    hide Dependencies;
  }

  lemma CompleteEdge(vs: seq<Vertex>, e: Edge)
    ensures e in Complete(vs).edges <==>
            !e.opt && e.src < |vs| && e.dst < |vs| && e.src != e.dst && e.varId in Labels(vs[e.src], vs[e.dst])
  {
    if e.src < |vs| && e.dst < |vs| {
      assert SharedVars(vs[e.src], vs[e.dst]) == SharedVars(vs[e.dst], vs[e.src]);
      if !e.opt && e.varId in Labels(vs[e.src], vs[e.dst]) {
        if e.src < e.dst {
          assert e in Dependencies(vs, e.src, e.dst, true);
        } else if e.dst < e.src {
          assert e in Dependencies(vs, e.dst, e.src, true);
        }
      }
    }
  }

  lemma CompleteAdj(vs: seq<Vertex>, u: nat, v: nat)
    ensures Adj(Complete(vs), u, v) <==> u < |vs| && v < |vs| && u != v
  {
    hide Complete, Labels;
    if u < |vs| && v < |vs| && u != v {
      SomeLabel(vs[u], vs[v]);
      var x :| x in Labels(vs[u], vs[v]);
      CompleteEdge(vs, Edge(u, v, x, false));
      EdgeAdj(Complete(vs), Edge(u, v, x, false));
    }
    if Adj(Complete(vs), u, v) {
      var e := AdjEdge(Complete(vs), u, v);
      CompleteEdge(vs, e);
    }
  }

  /** It makes them one plain set of mutually dependent vertices. */
  lemma CompletePlain(vs: seq<Vertex>)
    requires ProperVars(vs)
    ensures Plain(Complete(vs)) && Clique(Complete(vs))
  {
    var g := Complete(vs);
    assert g.vertices == vs;
    hide Complete, Adj;
    forall e | e in g.edges
      ensures e.src < |vs| && e.dst < |vs| && e.src != e.dst && !e.opt
      ensures e.varId != NO_VAR ==> SharedVar(g, e.src, e.dst, e.varId)
    {
      CompleteEdge(vs, e);
    }
    forall u: nat, v: nat ensures Adj(g, u, v) <==> u < |vs| && v < |vs| && u != v {
      CompleteAdj(vs, u, v);
    }
    forall u: nat, v: nat, x: VarId | Adj(g, u, v) && SharedVar(g, u, v, x) ensures Edge(u, v, x, false) in g.edges {
      CompleteEdge(vs, Edge(u, v, x, false));
    }
    CliqueCliques(g);
  }

  lemma LonePlain(g: Graph)
    requires |g.vertices| == 1 && g.edges == {} && NO_VAR !in g.vertices[0].vars
    ensures Plain(g) && Clique(g)
  {
    assert forall u: nat, v: nat :: !Adj(g, u, v);
  }

  /* ---------- the builder ---------- */

  class OperandDependencyGraph {
    var graph: Graph

    constructor (graph: Graph)
      ensures this.graph == graph
    {
      this.graph := graph;
    }

    method AddVertex(v: Vertex) returns (desc: nat)
      modifies this
      ensures desc == |old(graph).vertices|
      ensures graph == Graph(old(graph).vertices + [v], old(graph).edges)
    {
      desc := |graph.vertices|;
      graph := graph.(vertices := graph.vertices + [v]);
    }

    method AddDependency(source: nat, target: nat, varId: VarId)
      modifies this
      ensures graph == Graph(old(graph).vertices, old(graph).edges + {Edge(source, target, varId, false)})
    {
      graph := graph.(edges := graph.edges + {Edge(source, target, varId, false)});
    }

    /** One edge for each shared variable, or one unlabelled edge; in both directions if asked for. */
    method AddDependencies(source: nat, target: nat, bidirectional: bool)
      requires source < |graph.vertices| && target < |graph.vertices|
      modifies this
      ensures graph == Graph(old(graph).vertices,
                             old(graph).edges + Dependencies(old(graph).vertices, source, target, bidirectional))
    {
      var rest := SharedVars(graph.vertices[source], graph.vertices[target]);
      if rest == {} {
        rest := {NO_VAR};
      }
      ghost var labels := Labels(graph.vertices[source], graph.vertices[target]);
      ghost var before := graph;
      assert labels - rest == {};
      while rest != {}
        invariant rest <= labels
        invariant graph == Graph(before.vertices,
                                 before.edges + Towards(source, target, labels - rest)
                                 + if bidirectional then Towards(target, source, labels - rest) else {})
        decreases rest
      {
        var x :| x in rest;
        TowardsStep(source, target, labels - rest, x);
        TowardsStep(target, source, labels - rest, x);
        assert labels - (rest - {x}) == (labels - rest) + {x};
        AddDependency(source, target, x);
        if bidirectional {
          AddDependency(target, source, x);
        }
        rest := rest - {x};
      }
      assert labels - rest == labels;
    }
  }

  /** Makes all vertices mutually dependent. */
  method CreateDependenciesBetweenOperands(odg: OperandDependencyGraph)
    requires odg.graph.vertices != []
    modifies odg
    ensures odg.graph == Graph(old(odg.graph).vertices, old(odg.graph).edges + Complete(old(odg.graph).vertices).edges)
  {
    hide Dependencies, PairsBefore;
    ghost var before := odg.graph;
    var n := |odg.graph.vertices|;
    NoPairs(before.vertices);
    for i := 0 to n - 1
      invariant odg.graph == Graph(before.vertices, before.edges + PairsBefore(before.vertices, i, i + 1))
    {
      for j := i + 1 to n
        invariant odg.graph == Graph(before.vertices, before.edges + PairsBefore(before.vertices, i, j))
      {
        PairsStep(before.vertices, i, j);
        odg.AddDependencies(i, j, true);
      }
      PairsRow(before.vertices, i);
    }
    PairsRow(before.vertices, n - 1);
  }

  lemma TowardsStep(source: nat, target: nat, labels: set<VarId>, x: VarId)
    ensures Towards(source, target, labels + {x}) == Towards(source, target, labels) + {Edge(source, target, x, false)}
  {
    forall e ensures e in Towards(source, target, labels + {x})
                <==> e in Towards(source, target, labels) + {Edge(source, target, x, false)} {
      if e == Edge(source, target, x, false) {
        assert x in labels + {x};
      }
    }
  }
}
