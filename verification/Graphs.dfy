/**
 The operand dependency graph as a value: vertices are operands or filters,
 edges are dependencies labelled with a shared variable.
 */
module Graphs {
  import opened Reachability

  /** A node identifier of the node storage. */
  type Term = nat
  /** A variable identifier; NO_VAR labels an edge between operands that share no variable. */
  type VarId = nat
  const NO_VAR: VarId := 0

  type Binding = map<VarId, Term>

  datatype Option<+T> = None | Some(value: T)

  /** A filter expression: it reads the bindings of its variables, where an absent key is an unbound variable. */
  datatype Filter = Filter(vars: set<VarId>, test: Binding -> bool)

  /** The constant parts of a triple pattern; None where the pattern has a variable. */
  type SliceKey = seq<Option<Term>>

  datatype Vertex =
    | Operand(vars: seq<VarId>, slice: SliceKey)
    | FilterVertex(vars: seq<VarId>, filter: Filter)

  datatype Edge = Edge(src: nat, dst: nat, varId: VarId, opt: bool)

  datatype Graph = Graph(vertices: seq<Vertex>, edges: set<Edge>)

  const EMPTY_GRAPH := Graph([], {})

  /* ---------- variables ---------- */

  function Last<T>(s: seq<T>): T
    requires s != []
  {
    s[|s| - 1]
  }

  function Init<T>(s: seq<T>): (r: seq<T>)
    requires s != []
    ensures |r| == |s| - 1 && s == r + [Last(s)]
  {
    s[..|s| - 1]
  }

  function Elements<T>(s: seq<T>): set<T> {
    set x | x in s
  }

  /** The variables of the operands; filters do not count. */
  function DataVars(vs: seq<Vertex>): (r: set<VarId>)
    ensures forall x :: x in r <==> exists i :: 0 <= i < |vs| && vs[i].Operand? && x in vs[i].vars
  {
    if vs == [] then {}
    else
      var before := DataVars(Init(vs));
      if Last(vs).Operand? then before + Elements(Last(vs).vars) else before
  }

  function RemoveFrom(vars: seq<VarId>, x: VarId): (r: seq<VarId>)
    ensures forall y :: y in r <==> y in vars && y != x
    ensures |r| <= |vars|
  {
    if vars == [] then []
    else RemoveFrom(Init(vars), x) + (if Last(vars) == x then [] else [Last(vars)])
  }

  /* ---------- selections ---------- */

  predicate Indices(keep: seq<nat>, n: nat) {
    forall i :: 0 <= i < |keep| ==> keep[i] < n
  }

  /** The elements of s at the listed positions. */
  function Pick<T>(s: seq<T>, keep: seq<nat>): (r: seq<T>)
    requires Indices(keep, |s|)
    ensures |r| == |keep|
    ensures forall i :: 0 <= i < |keep| ==> r[i] == s[keep[i]]
  {
    if keep == [] then [] else Pick(s, Init(keep)) + [s[Last(keep)]]
  }

  function Range(n: nat): (r: seq<nat>)
    ensures |r| == n && (forall i :: 0 <= i < n ==> r[i] == i)
    ensures Increasing(r)
    ensures forall v: nat :: v in r <==> v < n
  {
    if n == 0 then [] else Range(n - 1) + [n - 1]
  }

  lemma PickAll<T>(s: seq<T>)
    ensures Indices(Range(|s|), |s|) && Pick(s, Range(|s|)) == s
  {
  }

  /** The position of v in keep. */
  function IndexIn(keep: seq<nat>, v: nat): (i: nat)
    requires v in keep
    ensures i < |keep| && keep[i] == v
  {
    if Last(keep) == v then |keep| - 1 else IndexIn(Init(keep), v)
  }

  lemma IndexInUnique(keep: seq<nat>, i: nat)
    requires Increasing(keep) && i < |keep|
    ensures IndexIn(keep, keep[i]) == i
  {
    var j := IndexIn(keep, keep[i]);
  }

  /** The subgraph induced by the vertices at the listed positions. */
  function Induced(g: Graph, keep: seq<nat>): (r: Graph)
    requires Indices(keep, |g.vertices|)
    ensures |r.vertices| == |keep|
  {
    Graph(Pick(g.vertices, keep),
          set e | e in g.edges && e.src in keep && e.dst in keep ::
            Edge(IndexIn(keep, e.src), IndexIn(keep, e.dst), e.varId, e.opt))
  }

  lemma InducedEdge(g: Graph, keep: seq<nat>, a: nat, b: nat, varId: VarId, opt: bool)
    requires Indices(keep, |g.vertices|) && Increasing(keep) && a < |keep| && b < |keep|
    ensures Edge(a, b, varId, opt) in Induced(g, keep).edges <==> Edge(keep[a], keep[b], varId, opt) in g.edges
  {
    IndexInUnique(keep, a);
    IndexInUnique(keep, b);
    var e := Edge(keep[a], keep[b], varId, opt);
    assert e.src in keep && e.dst in keep;
  }

  /* ---------- arcs ---------- */

  function ArcsOf(edges: set<Edge>): Arcs {
    set e | e in edges :: (e.src, e.dst)
  }

  predicate Adj(g: Graph, u: nat, v: nat) {
    (u, v) in ArcsOf(g.edges)
  }

  predicate WellFormed(g: Graph) {
    forall e :: e in g.edges ==> e.src < |g.vertices| && e.dst < |g.vertices| && e.src != e.dst
  }

  lemma WellFormedArcs(g: Graph)
    requires WellFormed(g)
    ensures WithinRange(ArcsOf(g.edges), |g.vertices|)
  {
  }

  /* ---------- plain graphs ---------- */

  ghost predicate Mandatory(g: Graph) {
    forall e :: e in g.edges ==> !e.opt
  }

  ghost predicate Cliques(g: Graph) {
    && (forall u: nat, v: nat :: Adj(g, u, v) ==> Adj(g, v, u))
    && (forall u: nat, v: nat, w: nat :: Adj(g, u, v) && Adj(g, v, w) && u != w ==> Adj(g, u, w))
  }

  ghost predicate SharedVar(g: Graph, u: nat, v: nat, x: VarId) {
    u < |g.vertices| && v < |g.vertices| && x in g.vertices[u].vars && x in g.vertices[v].vars
  }

  /** An edge labelled x joins two dependent vertices exactly when both have x. */
  ghost predicate LabelsExact(g: Graph) {
    && (forall e :: e in g.edges && e.varId != NO_VAR ==> SharedVar(g, e.src, e.dst, e.varId))
    && (forall u: nat, v: nat, x: VarId :: Adj(g, u, v) && SharedVar(g, u, v, x) ==> Edge(u, v, x, false) in g.edges)
  }

  ghost predicate ProperVars(vs: seq<Vertex>) {
    forall i :: 0 <= i < |vs| ==> NO_VAR !in vs[i].vars
  }

  /**
   The graph of a group pattern without OPTIONAL: every union component is a
   set of mutually dependent vertices.
   */
  ghost predicate Plain(g: Graph) {
    WellFormed(g) && Mandatory(g) && Cliques(g) && LabelsExact(g) && ProperVars(g.vertices)
  }

  /** All vertices depend on each other. */
  ghost predicate Clique(g: Graph) {
    forall u: nat, v: nat :: u < |g.vertices| && v < |g.vertices| && u != v ==> Adj(g, u, v)
  }

  lemma InducedAdj(g: Graph, keep: seq<nat>, a: nat, b: nat)
    requires Indices(keep, |g.vertices|) && Increasing(keep) && a < |keep| && b < |keep|
    ensures Adj(Induced(g, keep), a, b) <==> Adj(g, keep[a], keep[b])
  {
    var h := Induced(g, keep);
    if Adj(h, a, b) {
      var e :| e in h.edges && (e.src, e.dst) == (a, b);
      InducedEdge(g, keep, a, b, e.varId, e.opt);
      assert (keep[a], keep[b]) == (Edge(keep[a], keep[b], e.varId, e.opt).src, Edge(keep[a], keep[b], e.varId, e.opt).dst);
    }
    if Adj(g, keep[a], keep[b]) {
      var e :| e in g.edges && (e.src, e.dst) == (keep[a], keep[b]);
      InducedEdge(g, keep, a, b, e.varId, e.opt);
      var d := Edge(a, b, e.varId, e.opt);
      assert d in h.edges && (d.src, d.dst) == (a, b);
    }
  }

  lemma InducedWellFormed(g: Graph, keep: seq<nat>)
    requires Indices(keep, |g.vertices|) && Increasing(keep) && WellFormed(g)
    ensures WellFormed(Induced(g, keep))
  {
    var h := Induced(g, keep);
    forall e | e in h.edges ensures e.src < |h.vertices| && e.dst < |h.vertices| && e.src != e.dst {
      var d :| d in g.edges && d.src in keep && d.dst in keep &&
               e == Edge(IndexIn(keep, d.src), IndexIn(keep, d.dst), d.varId, d.opt);
    }
  }

  /** Every edge of an induced subgraph comes from the edge between the same two vertices. */
  lemma InducedEdgeBack(g: Graph, keep: seq<nat>, e: Edge)
    requires Indices(keep, |g.vertices|) && e in Induced(g, keep).edges
    ensures e.src < |keep| && e.dst < |keep|
    ensures Edge(keep[e.src], keep[e.dst], e.varId, e.opt) in g.edges
  {
    var d :| d in g.edges && d.src in keep && d.dst in keep &&
             e == Edge(IndexIn(keep, d.src), IndexIn(keep, d.dst), d.varId, d.opt);
  }

  lemma InducedCliques(g: Graph, keep: seq<nat>)
    requires Indices(keep, |g.vertices|) && Increasing(keep) && WellFormed(g) && Cliques(g)
    ensures Cliques(Induced(g, keep))
  {
    var h := Induced(g, keep);
    InducedWellFormed(g, keep);
    forall u: nat, v: nat | Adj(h, u, v) ensures Adj(h, v, u) {
      InducedAdj(g, keep, u, v);
      InducedAdj(g, keep, v, u);
    }
    forall u: nat, v: nat, w: nat | Adj(h, u, v) && Adj(h, v, w) && u != w ensures Adj(h, u, w) {
      InducedAdj(g, keep, u, v);
      InducedAdj(g, keep, v, w);
      InducedAdj(g, keep, u, w);
    }
  }

  lemma InducedLabels(g: Graph, keep: seq<nat>)
    requires Indices(keep, |g.vertices|) && Increasing(keep) && WellFormed(g) && LabelsExact(g)
    ensures LabelsExact(Induced(g, keep))
  {
    var h := Induced(g, keep);
    InducedWellFormed(g, keep);
    forall e | e in h.edges && e.varId != NO_VAR ensures SharedVar(h, e.src, e.dst, e.varId) {
      InducedEdgeBack(g, keep, e);
    }
    forall u: nat, v: nat, x: VarId | Adj(h, u, v) && SharedVar(h, u, v, x) ensures Edge(u, v, x, false) in h.edges {
      InducedAdj(g, keep, u, v);
      assert SharedVar(g, keep[u], keep[v], x);
      InducedEdge(g, keep, u, v, x, false);
    }
  }

  /** Induced subgraphs of plain graphs are plain. */
  lemma InducedPlain(g: Graph, keep: seq<nat>)
    requires Indices(keep, |g.vertices|) && Increasing(keep) && Plain(g)
    ensures Plain(Induced(g, keep))
  {
    InducedWellFormed(g, keep);
    InducedCliques(g, keep);
    InducedLabels(g, keep);
    forall e | e in Induced(g, keep).edges ensures !e.opt {
      InducedEdgeBack(g, keep, e);
    }
  }

  lemma InducedClique(g: Graph, keep: seq<nat>)
    requires Indices(keep, |g.vertices|) && Increasing(keep)
    requires forall a: nat, b: nat :: a in keep && b in keep && a != b ==> Adj(g, a, b)
    ensures Clique(Induced(g, keep))
  {
    forall u: nat, v: nat | u < |keep| && v < |keep| && u != v ensures Adj(Induced(g, keep), u, v) {
      InducedAdj(g, keep, u, v);
      assert keep[u] in keep && keep[v] in keep && keep[u] != keep[v];
    }
  }

  /* ---------- resolving a variable ---------- */

  /** The vertices that stay when x is resolved: filters, and operands with another variable. */
  function Kept(vs: seq<Vertex>, x: VarId): (keep: seq<nat>)
    ensures Indices(keep, |vs|) && Increasing(keep)
    ensures forall i: nat :: i in keep <==> i < |vs| && (vs[i].FilterVertex? || RemoveFrom(vs[i].vars, x) != [])
  {
    if vs == [] then []
    else
      var before := Kept(Init(vs), x);
      var n := |vs| - 1;
      if Last(vs).FilterVertex? || RemoveFrom(Last(vs).vars, x) != [] then
        KeptAppend(before, n); before + [n]
      else before
  }

  lemma KeptAppend(keep: seq<nat>, n: nat)
    requires Increasing(keep) && Indices(keep, n)
    ensures Increasing(keep + [n]) && Indices(keep + [n], n + 1)
  {
    IncreasingAppend(keep, n);
  }

  function VertexWithout(v: Vertex, x: VarId): (w: Vertex)
    ensures w.vars == RemoveFrom(v.vars, x)
    ensures w.Operand? == v.Operand?
  {
    v.(vars := RemoveFrom(v.vars, x))
  }

  function VerticesWithout(vs: seq<Vertex>, x: VarId): (r: seq<Vertex>)
    ensures |r| == |vs| && forall i :: 0 <= i < |vs| ==> r[i] == VertexWithout(vs[i], x)
  {
    if vs == [] then [] else VerticesWithout(Init(vs), x) + [VertexWithout(Last(vs), x)]
  }

  function EdgesWithout(es: set<Edge>, x: VarId): set<Edge> {
    set e | e in es :: if e.varId == x then e.(varId := NO_VAR) else e
  }

  /** x erased from vertices and edges. */
  function Without(h: Graph, x: VarId): Graph {
    Graph(VerticesWithout(h.vertices, x), EdgesWithout(h.edges, x))
  }

  /** The graph after x is resolved. */
  function RemoveVar(g: Graph, x: VarId): (r: Graph)
    ensures |r.vertices| <= |g.vertices|
  {
    KeptShort(g.vertices, x);
    Without(Induced(g, Kept(g.vertices, x)), x)
  }

  lemma KeptShort(vs: seq<Vertex>, x: VarId)
    ensures |Kept(vs, x)| <= |vs|
  {
    IncreasingShort(Kept(vs, x), |vs|);
  }

  lemma {:induction false} IncreasingShort(s: seq<nat>, n: nat)
    requires Increasing(s) && Indices(s, n)
    ensures |s| <= n
  {
    if s != [] {
      IncreasingInit(Init(s), Last(s));
      assert forall i :: 0 <= i < |s| - 1 ==> s[i] < s[|s| - 1];
      IncreasingShort(Init(s), Last(s));
    }
  }

  lemma EdgesWithoutArcs(es: set<Edge>, x: VarId)
    ensures ArcsOf(EdgesWithout(es, x)) == ArcsOf(es)
  {
    forall a | a in ArcsOf(es) ensures a in ArcsOf(EdgesWithout(es, x)) {
      var e :| e in es && a == (e.src, e.dst);
      var d := if e.varId == x then e.(varId := NO_VAR) else e;
      assert d in EdgesWithout(es, x) && a == (d.src, d.dst);
    }
  }

  /** Resolving a variable keeps a plain graph plain: an edge labelled y stays exactly where both ends still share y. */
  lemma RemoveVarPlain(g: Graph, x: VarId)
    requires Plain(g) && x != NO_VAR
    ensures Plain(RemoveVar(g, x))
  {
    var h := Induced(g, Kept(g.vertices, x));
    InducedPlain(g, Kept(g.vertices, x));
    WithoutPlain(h, x);
  }

  lemma WithoutPlain(h: Graph, x: VarId)
    requires Plain(h) && x != NO_VAR
    ensures Plain(Without(h, x))
  {
    EdgesWithoutArcs(h.edges, x);
    WithoutLabels(h, x);
    var r := Without(h, x);
    assert forall u: nat, v: nat :: Adj(r, u, v) <==> Adj(h, u, v);
  }

  lemma WithoutLabels(h: Graph, x: VarId)
    requires LabelsExact(h) && x != NO_VAR
    ensures LabelsExact(Without(h, x))
  {
    var r := Without(h, x);
    EdgesWithoutArcs(h.edges, x);
    forall e | e in r.edges && e.varId != NO_VAR ensures SharedVar(r, e.src, e.dst, e.varId) {
      assert e in h.edges && e.varId != x;
      assert SharedVar(h, e.src, e.dst, e.varId);
    }
    forall u: nat, v: nat, y: VarId | Adj(r, u, v) && SharedVar(r, u, v, y) ensures Edge(u, v, y, false) in r.edges {
      assert Adj(h, u, v) && SharedVar(h, u, v, y);
      assert Edge(u, v, y, false) in h.edges && y != x;
    }
  }

  lemma InducedOfClique(g: Graph, keep: seq<nat>)
    requires Clique(g) && Indices(keep, |g.vertices|) && Increasing(keep)
    ensures Clique(Induced(g, keep))
  {
    InducedClique(g, keep);
  }

  lemma WithoutClique(h: Graph, x: VarId)
    requires Clique(h)
    ensures Clique(Without(h, x))
  {
    EdgesWithoutArcs(h.edges, x);
    var r := Without(h, x);
    forall u: nat, v: nat | u < |r.vertices| && v < |r.vertices| && u != v ensures Adj(r, u, v) {
      assert Adj(h, u, v);
    }
  }

  lemma RemoveVarClique(g: Graph, x: VarId)
    requires Clique(g)
    ensures Clique(RemoveVar(g, x))
  {
    InducedOfClique(g, Kept(g.vertices, x));
    WithoutClique(Induced(g, Kept(g.vertices, x)), x);
  }

  /* ---------- union components ---------- */

  /** The union components: the weakly connected components of the whole graph. */
  ghost function UnionParts(g: Graph): seq<seq<nat>> {
    Components(ArcsOf(g.edges), |g.vertices|)
  }

  lemma PartShape(g: Graph, part: seq<nat>)
    requires part in UnionParts(g)
    ensures Indices(part, |g.vertices|) && Increasing(part) && part != []
  {
    ComponentShape(ArcsOf(g.edges), |g.vertices|, part);
    assert forall i :: 0 <= i < |part| ==> part[i] in part;
  }

  /** In a plain graph connected vertices depend on each other directly. */
  lemma PlainConnected(g: Graph, u: nat, v: nat)
    requires Plain(g) && u < |g.vertices| && v < |g.vertices| && Connected(ArcsOf(g.edges), u, v)
    ensures u == v || Adj(g, u, v)
  {
    var es := ArcsOf(g.edges);
    var cell := set w: nat | w in Below(|g.vertices|) && (w == u || Adj(g, u, w));
    forall a, b | a in cell && (a, b) in Undirected(es) ensures b in cell {
      assert Adj(g, a, b) || Adj(g, b, a);
      assert Adj(g, a, b);
    }
    ClosedReach(Undirected(es), cell, u, v);
  }

  lemma AdjConnected(g: Graph, u: nat, v: nat)
    requires Adj(g, u, v)
    ensures Connected(ArcsOf(g.edges), u, v)
  {
    ReachArc(Undirected(ArcsOf(g.edges)), u, v);
  }

  /** Every union component of a plain graph is a clique. */
  lemma PartClique(g: Graph, part: seq<nat>)
    requires Plain(g) && part in UnionParts(g)
    ensures Indices(part, |g.vertices|) && Increasing(part) && part != []
    ensures Plain(Induced(g, part)) && Clique(Induced(g, part))
  {
    PartShape(g, part);
    InducedPlain(g, part);
    forall a: nat, b: nat | a in part && b in part && a != b ensures Adj(g, a, b) {
      ComponentConnected(ArcsOf(g.edges), |g.vertices|, part, a, b);
      PlainConnected(g, a, b);
    }
    InducedClique(g, part);
  }

  lemma CliqueConnected(g: Graph, u: nat, v: nat)
    requires Clique(g) && u < |g.vertices| && v < |g.vertices|
    ensures Connected(ArcsOf(g.edges), u, v)
  {
    if u == v {
      ReachRefl(Undirected(ArcsOf(g.edges)), u);
    } else {
      AdjConnected(g, u, v);
    }
  }

  lemma CliqueParts(g: Graph)
    requires Clique(g) && |g.vertices| > 0
    ensures UnionParts(g) == [Range(|g.vertices|)]
  {
    var es, n := ArcsOf(g.edges), |g.vertices|;
    forall u: nat, v: nat | u < n && v < n ensures Connected(es, u, v) {
      CliqueConnected(g, u, v);
    }
    ComponentsSingle(es, n);
    var c := UnionParts(g)[0];
    PartShape(g, c);
    assert c[0] in c;
    forall v: nat | v < n ensures v in c {
      ComponentClosed(es, n, c, c[0], v);
    }
    ComponentShape(es, n, c);
    IncreasingUnique(c, Range(n));
  }

  lemma SinglePartClique(g: Graph)
    requires Plain(g) && |UnionParts(g)| <= 1
    ensures Clique(g)
  {
    forall u: nat, v: nat | u < |g.vertices| && v < |g.vertices| && u != v ensures Adj(g, u, v) {
      var es := ArcsOf(g.edges);
      var c := ComponentsCover(es, |g.vertices|, u);
      var d := ComponentsCover(es, |g.vertices|, v);
      ComponentConnected(es, |g.vertices|, c, u, v);
      PlainConnected(g, u, v);
    }
  }

  /** One of several components leaves a vertex out. */
  lemma PartSmaller(es: Arcs, n: nat, part: seq<nat>)
    requires |Components(es, n)| > 1 && part in Components(es, n)
    ensures |part| < n
  {
    var i :| 0 <= i < |Components(es, n)| && Components(es, n)[i] == part;
    var j := if i == 0 then 1 else 0;
    ComponentShape(es, n, part);
    ComponentShape(es, n, Components(es, n)[j]);
    var v := Components(es, n)[j][0];
    assert v in Components(es, n)[j];
    ComponentsDisjoint(es, n, j, i, v);
    assert forall k :: 0 <= k < |part| ==> part[k] in part;
    IncreasingShort(part, n);
    if |part| == n {
      IncreasingFull(part, n);
    }
  }

  lemma {:induction false} IncreasingFull(s: seq<nat>, n: nat)
    requires Increasing(s) && Indices(s, n) && |s| == n
    ensures forall v: nat :: v < n ==> v in s
  {
    if n > 0 {
      IncreasingInit(Init(s), Last(s));
      assert forall i :: 0 <= i < n - 1 ==> s[i] < s[n - 1];
      assert Indices(Init(s), Last(s));
      IncreasingShort(Init(s), Last(s));
      IncreasingFull(Init(s), n - 1);
    }
  }
}
