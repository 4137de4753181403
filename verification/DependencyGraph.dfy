/**
 The read-only operations of the operand dependency graph, as the loops that
 compute them.
 */
module DependencyGraph {
  import opened Reachability
  import opened Graphs
  import opened LeafProof

  /** A new graph without x; operands left without a variable are dropped, expressions stay. */
  method RemoveVarId(g: Graph, x: VarId) returns (sub: Graph)
    ensures sub == RemoveVar(g, x)
  {
    var keep: seq<nat> := [];
    for i := 0 to |g.vertices|
      invariant keep == Kept(g.vertices[..i], x)
    {
      var rest := RemoveFrom(g.vertices[i].vars, x);
      assert Init(g.vertices[..i + 1]) == g.vertices[..i];
      if g.vertices[i].FilterVertex? || rest != [] {
        keep := keep + [i];
      }
    }
    assert g.vertices[..|g.vertices|] == g.vertices;
    sub := Induced(g, keep);
    sub := Graph(VerticesWithout(sub.vertices, x), EdgesWithout(sub.edges, x));
  }

  /** A new graph without the given vertices, and the positions its vertices had. */
  method RemoveVertices(g: Graph, removed: seq<nat>) returns (sub: Graph, originalPositions: seq<nat>)
    ensures originalPositions == Complement(|g.vertices|, removed)
    ensures sub == Induced(g, originalPositions)
  {
    originalPositions := [];
    for i := 0 to |g.vertices|
      invariant originalPositions == Complement(i, removed)
    {
      if i !in removed {
        originalPositions := originalPositions + [i];
      }
    }
    sub := Induced(g, originalPositions);
  }

  /** The arcs an empty operand is pruned along: those of mandatory edges. */
  function MandatoryArcs(g: Graph): Arcs {
    set e | e in g.edges && !e.opt :: (e.src, e.dst)
  }

  /** The vertices that do not depend on an empty operand. */
  ghost predicate Survives(g: Graph, empties: seq<nat>, v: nat) {
    v < |g.vertices| && !ReachedFrom(MandatoryArcs(g), empties, v)
  }

  /** Removes the empty operands and what transitively depends on them. */
  method PruneGraph(g: Graph, empties: seq<nat>) returns (sub: Graph, originalPositions: seq<nat>)
    requires WellFormed(g) && forall i :: i in empties ==> i < |g.vertices|
    ensures Indices(originalPositions, |g.vertices|) && Increasing(originalPositions)
    ensures forall v: nat :: v in originalPositions <==> Survives(g, empties, v)
    ensures sub == Induced(g, originalPositions)
  {
    var pruned := Closure(MandatoryArcs(g), |g.vertices|, empties);
    originalPositions := [];
    for v := 0 to |g.vertices|
      invariant Indices(originalPositions, v) && Increasing(originalPositions)
      invariant forall w: nat :: w in originalPositions <==> w < v && Survives(g, empties, w)
    {
      if v !in pruned {
        KeptAppend(originalPositions, v);
        originalPositions := originalPositions + [v];
      }
    }
    sub := Induced(g, originalPositions);
  }

  method UnionComponents(g: Graph) returns (parts: seq<seq<nat>>)
    requires WellFormed(g)
    ensures parts == UnionParts(g)
  {
    WellFormedArcs(g);
    parts := ConnectedComponents(ArcsOf(g.edges), |g.vertices|);
  }

  /** The independent strong component: the vertices on which only others depend. */
  ghost predicate InIsc(g: Graph, v: nat) {
    v < |g.vertices| && IsSource(ArcsOf(g.edges), v)
  }

  method IscOperands(g: Graph) returns (isc: seq<nat>)
    requires WellFormed(g)
    ensures Increasing(isc) && forall v: nat :: v in isc <==> InIsc(g, v)
  {
    WellFormedArcs(g);
    isc := SourceComponents(ArcsOf(g.edges), |g.vertices|);
  }

  /**
   The arcs that hold a cartesian component together: unlabelled edges into the
   independent strong component do not count, and vertices of the independent
   strong component without an edge stay together.
   */
  function CartesianArcs(g: Graph, isc: set<nat>): Arcs {
    (set e | e in g.edges && (e.dst !in isc || e.varId != NO_VAR) :: (e.src, e.dst))
    + (set a, b | a in isc && b in isc && !Adj(g, a, b) :: (a, b))
  }

  lemma CartesianArcsRange(g: Graph, isc: set<nat>)
    requires WellFormed(g) && forall v :: v in isc ==> v < |g.vertices|
    ensures WithinRange(CartesianArcs(g, isc), |g.vertices|)
  {
  }

  method CartesianComponents(g: Graph, isc: seq<nat>) returns (parts: seq<seq<nat>>)
    requires WellFormed(g) && forall v :: v in isc ==> v < |g.vertices|
    ensures parts == Components(CartesianArcs(g, Elements(isc)), |g.vertices|)
  {
    CartesianArcsRange(g, Elements(isc));
    parts := ConnectedComponents(CartesianArcs(g, Elements(isc)), |g.vertices|);
  }

  /** Whether the filter at v only has variables that no operand has. */
  predicate OnlyInFilters(v: Vertex, data: set<VarId>) {
    forall x :: x in v.vars ==> x !in data
  }

  /** The filters of the independent strong component that can be evaluated. */
  method FiltersForEvaluation(g: Graph, isc: seq<nat>) returns (filters: seq<nat>)
    requires forall v :: v in isc ==> v < |g.vertices|
    ensures forall p: nat :: p in filters <==> p in isc && g.vertices[p].FilterVertex? && OnlyInFilters(g.vertices[p], DataVars(g.vertices))
  {
    filters := [];
    for i := 0 to |isc|
      invariant forall p: nat :: p in filters <==>
                  p in isc[..i] && p < |g.vertices| && g.vertices[p].FilterVertex? && OnlyInFilters(g.vertices[p], DataVars(g.vertices))
    {
      assert isc[..i + 1] == isc[..i] + [isc[i]];
      assert isc[i] in isc;
      if g.vertices[isc[i]].FilterVertex? && OnlyInFilters(g.vertices[isc[i]], DataVars(g.vertices)) {
        filters := filters + [isc[i]];
      }
    }
    assert isc[..|isc|] == isc;
  }
}
