/**
 OPTIONAL: every union component of the mandatory side gets a copy of the
 optional side that depends on it, and when that is one graph per component.
 */
module OptionalNormalForm {
  import opened Reachability
  import opened Graphs
  import opened DependencyGraph
  import opened GraphBuilder
  import opened GraphUnions
  import opened SourceComponents
  import opened UnionNormalForm

  /* ---------- the operation ---------- */

  ghost predicate PartsWithin(g: Graph, parts: seq<seq<nat>>) {
    forall i :: 0 <= i < |parts| ==> Indices(parts[i], |g.vertices|)
  }

  /** The positions, counted within each component, of the sources of the components. */
  ghost function LocalSources(g: Graph, parts: seq<seq<nat>>): set<nat>
    requires PartsWithin(g, parts)
  {
    if parts == [] then {}
    else
      assert parts[|parts| - 1] == Last(parts);
      LocalSources(g, Init(parts)) + Sources(Induced(g, Last(parts)))
  }

  /** Links from the sources of c to the local source positions of the components, taken as positions in the whole of second. */
  ghost function OptionalLink(c: Graph, second: Graph, parts: seq<seq<nat>>): Graph
    requires PartsWithin(second, parts)
  {
    LinkedBy(c, second, Sources(c), ShiftSet(LocalSources(second, parts), |c.vertices|), false)
  }

  ghost function OptionalCombined(first: Graph, firstParts: seq<seq<nat>>, second: Graph, secondParts: seq<seq<nat>>): Graph
    requires PartsWithin(first, firstParts) && PartsWithin(second, secondParts)
  {
    if firstParts == [] then EMPTY_GRAPH
    else
      assert firstParts[|firstParts| - 1] == Last(firstParts);
      Merge(OptionalCombined(first, Init(firstParts), second, secondParts),
            OptionalLink(Induced(first, Last(firstParts)), second, secondParts))
  }

  lemma PartsAreOf(g: Graph)
    ensures PartsWithin(g, UnionParts(g))
  {
    hide UnionParts;
    forall i | 0 <= i < |UnionParts(g)| ensures Indices(UnionParts(g)[i], |g.vertices|) {
      PartAt(g, i);
    }
  }

  /** The optional side combined with every union component of the mandatory side. */
  method CombineOptional(first: Graph, second: Graph) returns (r: Graph)
    requires WellFormed(first) && WellFormed(second)
    ensures PartsWithin(first, UnionParts(first)) && PartsWithin(second, UnionParts(second))
    ensures second.vertices == [] ==> r.vertices == first.vertices && r.edges == first.edges
    ensures first.vertices == [] ==> r.vertices == second.vertices && r.edges == second.edges
    ensures first.vertices != [] && second.vertices != [] ==> r == OptionalCombined(first, UnionParts(first), second, UnionParts(second))
  {
    hide *;
    PartsAreOf(first);
    PartsAreOf(second);
    NoEdges(first);
    NoEdges(second);
    if first.vertices == [] && second.vertices == [] {
      return EMPTY_GRAPH;
    }
    if first.vertices == [] {
      return second;
    }
    if second.vertices == [] {
      return first;
    }
    r := EMPTY_GRAPH;
    var firstComps := UnionComponents(first);
    NoneCombined(first, firstComps, second, UnionParts(second));
    for i := 0 to |firstComps|
      invariant PartsWithin(first, firstComps[..i])
      invariant r == OptionalCombined(first, firstComps[..i], second, UnionParts(second))
    {
      PartAt(first, i);
      var temp := LinkOptional(first, firstComps[i], second);
      CombinedStep(first, firstComps, i, second, UnionParts(second));
      r := Merge(r, temp);
    }
    assert firstComps[..|firstComps|] == firstComps;
  }

  lemma NoEdges(g: Graph)
    requires WellFormed(g)
    ensures EMPTY_GRAPH.edges == {} && EMPTY_GRAPH.vertices == []
    ensures g.vertices == [] ==> g.edges == {}
  {
  }

  lemma NoneCombined(first: Graph, firstParts: seq<seq<nat>>, second: Graph, secondParts: seq<seq<nat>>)
    requires PartsWithin(second, secondParts)
    ensures PartsWithin(first, firstParts[..0])
    ensures OptionalCombined(first, firstParts[..0], second, secondParts) == EMPTY_GRAPH
  {
  }

  lemma CombinedStep(first: Graph, firstParts: seq<seq<nat>>, i: nat, second: Graph, secondParts: seq<seq<nat>>)
    requires PartsWithin(first, firstParts) && PartsWithin(second, secondParts) && i < |firstParts|
    ensures PartsWithin(first, firstParts[..i]) && PartsWithin(first, firstParts[..i + 1]) && Indices(firstParts[i], |first.vertices|)
    ensures OptionalCombined(first, firstParts[..i + 1], second, secondParts)
         == Merge(OptionalCombined(first, firstParts[..i], second, secondParts),
                  OptionalLink(Induced(first, firstParts[i]), second, secondParts))
  {
    assert Init(firstParts[..i + 1]) == firstParts[..i];
  }

  /** Adds the dependencies of the optional side on one component of the mandatory side. */
  method LinkOptional(first: Graph, part: seq<nat>, second: Graph) returns (r: Graph)
    requires WellFormed(first) && WellFormed(second) && part in UnionParts(first) && Indices(part, |first.vertices|)
    requires PartsWithin(second, UnionParts(second))
    ensures r == OptionalLink(Induced(first, part), second, UnionParts(second))
  {
    hide *;
    PartShape(first, part);
    InducedWellFormed(first, part);
    var firstComp := Induced(first, part);
    var temp := new OperandDependencyGraph(Merge(firstComp, second));
    var offset := |firstComp.vertices|;
    var secondComps := UnionComponents(second);
    NoLinksYet(firstComp, second, secondComps);
    for j := 0 to |secondComps|
      invariant PartsWithin(second, secondComps[..j]) && temp.graph == OptionalLink(firstComp, second, secondComps[..j])
    {
      PartAt(second, j);
      BranchAt(second, j);
      var secondComp := Induced(second, secondComps[j]);
      var firstIsc := IscOperands(firstComp);
      var secondIsc := IscOperands(secondComp);
      IscIsSources(firstComp, firstIsc);
      IscIsSources(secondComp, secondIsc);
      LinkStep(firstComp, second, secondComps, j);
      PartFits(firstComp, second, secondComps[j], temp.graph, secondIsc);
      LinkOperands(temp, firstIsc, secondIsc, offset, false);
    }
    assert secondComps[..|secondComps|] == secondComps;
    r := temp.graph;
  }

  lemma NoLinksYet(c: Graph, second: Graph, parts: seq<seq<nat>>)
    ensures PartsWithin(second, parts[..0]) && OptionalLink(c, second, parts[..0]) == Merge(c, second)
  {
    assert ShiftSet({}, |c.vertices|) == {};
  }

  lemma PartFits(c: Graph, second: Graph, part: seq<nat>, g: Graph, isc: seq<nat>)
    requires Indices(part, |second.vertices|) && Increasing(part)
    requires |g.vertices| == |c.vertices| + |second.vertices| && forall v :: v in isc ==> v < |part|
    ensures forall v :: v in isc ==> v + |c.vertices| < |g.vertices|
  {
    IncreasingShort(part, |second.vertices|);
  }

  lemma LinkStep(c: Graph, second: Graph, parts: seq<seq<nat>>, j: nat)
    requires PartsWithin(second, parts) && j < |parts|
    ensures Indices(parts[j], |second.vertices|)
    ensures PartsWithin(second, parts[..j]) && PartsWithin(second, parts[..j + 1])
    ensures |OptionalLink(c, second, parts[..j]).vertices| == |c.vertices| + |second.vertices|
    ensures |Induced(second, parts[j]).vertices| == |parts[j]|
    ensures var before := OptionalLink(c, second, parts[..j]);
            OptionalLink(c, second, parts[..j + 1])
            == Graph(before.vertices,
                     before.edges + Links(before.vertices, Sources(c), ShiftSet(Sources(Induced(second, parts[j])), |c.vertices|), false))
  {
    hide Links, Sources, ShiftSet, Merge, Induced;
    var n, s, t := |c.vertices|, LocalSources(second, parts[..j]), Sources(Induced(second, parts[j]));
    assert Init(parts[..j + 1]) == parts[..j];
    assert LocalSources(second, parts[..j + 1]) == s + t;
    LinksUnion(c.vertices + second.vertices, Sources(c), s, t, n);
  }

  lemma LinksUnion(vs: seq<Vertex>, a: set<nat>, s: set<nat>, t: set<nat>, n: nat)
    ensures Links(vs, a, ShiftSet(s + t, n), false) == Links(vs, a, ShiftSet(s, n), false) + Links(vs, a, ShiftSet(t, n), false)
  {
    assert ShiftSet(s + t, n) == ShiftSet(s, n) + ShiftSet(t, n);
    hide ShiftSet, Dependencies;
  }

  /* ---------- when the optional side depends on the mandatory one ---------- */

  /** One of the sources of the component lies at a position that is a local source position. */
  ghost predicate SourceHit(second: Graph, part: seq<nat>)
    requires PartsWithin(second, UnionParts(second))
  {
    exists t :: t in part && InIsc(second, t) && t in LocalSources(second, UnionParts(second))
  }

  /** Every component of the optional side has a source that is linked. */
  ghost predicate OffsetHarmless(second: Graph)
    requires PartsWithin(second, UnionParts(second))
  {
    forall part :: part in UnionParts(second) ==> SourceHit(second, part)
  }

  /** Every branch followed by the same vertices. */
  ghost function Extended(branches: seq<seq<Vertex>>, vs: seq<Vertex>): (r: seq<seq<Vertex>>)
    ensures |r| == |branches| && forall i :: 0 <= i < |r| ==> r[i] == branches[i] + vs
  {
    seq(|branches|, i requires 0 <= i < |branches| => branches[i] + vs)
  }

  lemma {:induction false} LocalBelow(g: Graph, parts: seq<seq<nat>>)
    requires PartsWithin(g, parts) && forall i :: 0 <= i < |parts| ==> Increasing(parts[i])
    ensures forall t :: t in LocalSources(g, parts) ==> t < |g.vertices|
    decreases |parts|
  {
    if parts != [] {
      assert parts[|parts| - 1] == Last(parts);
      LocalBelow(g, Init(parts));
      IncreasingShort(Last(parts), |g.vertices|);
      SourcesBelow(Induced(g, Last(parts)));
    }
  }

  lemma OptionalSets(c: Graph, second: Graph)
    requires PartsWithin(second, UnionParts(second))
    ensures LinkSets(|c.vertices|, |second.vertices|, Sources(c), ShiftSet(LocalSources(second, UnionParts(second)), |c.vertices|))
  {
    hide *;
    forall i | 0 <= i < |UnionParts(second)| ensures Increasing(UnionParts(second)[i]) {
      PartAt(second, i);
    }
    LocalBelow(second, UnionParts(second));
    SourcesLinkSets(c, second, LocalSources(second, UnionParts(second)));
  }

  /** Linked vertices of the optional side reach all of it. */
  lemma HarmlessReaches(second: Graph, n: nat, v: nat)
    requires PartsWithin(second, UnionParts(second)) && Rooted(second) && OffsetHarmless(second) && v < |second.vertices|
    ensures LinkReaches(second, n, ShiftSet(LocalSources(second, UnionParts(second)), n), v)
  {
    hide Rooted, LocalSources, UnionParts, Reach, Connected, IsSource;
    var part := PartOf(second, v);
    assert SourceHit(second, part);
    var t :| t in part && InIsc(second, t) && t in LocalSources(second, UnionParts(second));
    PartTogether(second, part, t, v);
    RootedSource(second, t, v);
    assert t + n - n == t;
    assert ReachesFrom(second, n, ShiftSet(LocalSources(second, UnionParts(second)), n), t, v);
  }

  lemma PartOf(g: Graph, v: nat) returns (part: seq<nat>)
    requires v < |g.vertices|
    ensures part in UnionParts(g) && v in part
  {
    part := ComponentsCover(ArcsOf(g.edges), |g.vertices|, v);
  }

  lemma PartTogether(g: Graph, part: seq<nat>, u: nat, v: nat)
    requires part in UnionParts(g) && u in part && v in part
    ensures Connected(ArcsOf(g.edges), u, v)
  {
    ComponentConnected(ArcsOf(g.edges), |g.vertices|, part, u, v);
  }

  /** One component of the mandatory side and the optional side become one component, with the sources of the former. */
  lemma HarmlessLink(first: Graph, i: nat, second: Graph)
    requires Rooted(first) && Rooted(second) && i < |UnionParts(first)| && Indices(UnionParts(first)[i], |first.vertices|)
    requires PartsWithin(second, UnionParts(second)) && OffsetHarmless(second)
    requires |Branches(first)| == |SourceBranches(first)| == |UnionParts(first)|
    ensures var l := OptionalLink(Induced(first, UnionParts(first)[i]), second, UnionParts(second));
            && Rooted(l) && Branches(l) == [Branches(first)[i] + second.vertices] && SourceBranches(l) == [SourceBranches(first)[i]]
  {
    hide *;
    RootedWellFormed(first);
    RootedWellFormed(second);
    BranchAt(first, i);
    var part := UnionParts(first)[i];
    var c := Induced(first, part);
    PartSourceVertices(first, part);
    var r := PartRoot(first, part);
    OptionalSets(c, second);
    forall v: nat | v < |second.vertices|
      ensures LinkReaches(second, |c.vertices|, ShiftSet(LocalSources(second, UnionParts(second)), |c.vertices|), v)
    {
      HarmlessReaches(second, |c.vertices|, v);
    }
    LinkedRoot(c, second, Sources(c), ShiftSet(LocalSources(second, UnionParts(second)), |c.vertices|), false, r);
    LinkedSources(c, second, Sources(c), ShiftSet(LocalSources(second, UnionParts(second)), |c.vertices|), false, r);
    OptionalLinkIs(c, second, UnionParts(second));
    RangeIndices(|c.vertices|);
    NothingAdded(SourceVertices(c, Range(|c.vertices|)));
  }

  lemma OptionalLinkIs(c: Graph, second: Graph, parts: seq<seq<nat>>)
    requires PartsWithin(second, parts)
    ensures OptionalLink(c, second, parts)
         == LinkedBy(c, second, Sources(c), ShiftSet(LocalSources(second, parts), |c.vertices|), false)
  {
  }

  lemma RangeIndices(n: nat)
    ensures Indices(Range(n), n)
  {
  }

  lemma NothingAdded(s: seq<Vertex>)
    ensures s + (if false then s else []) == s
  {
  }

  /** The first k components of the mandatory side combined. */
  lemma {:induction false} HarmlessCombined(first: Graph, second: Graph, k: nat)
    requires Rooted(first) && Rooted(second) && k <= |UnionParts(first)|
    requires PartsWithin(first, UnionParts(first)) && PartsWithin(second, UnionParts(second)) && OffsetHarmless(second)
    requires |Branches(first)| == |SourceBranches(first)| == |UnionParts(first)|
    ensures PartsWithin(first, UnionParts(first)[..k])
    ensures var r := OptionalCombined(first, UnionParts(first)[..k], second, UnionParts(second));
            Rooted(r) && Branches(r) == Extended(Branches(first)[..k], second.vertices) && SourceBranches(r) == SourceBranches(first)[..k]
    decreases k
  {
    hide *;
    if k == 0 {
      NoneCombined(first, UnionParts(first), second, UnionParts(second));
      NothingYet();
      NoneExtended(Branches(first), SourceBranches(first), second.vertices);
    } else {
      var i: nat := k - 1;
      HarmlessCombined(first, second, i);
      CombinedStep(first, UnionParts(first), i, second, UnionParts(second));
      HarmlessLink(first, i, second);
      var r := OptionalCombined(first, UnionParts(first)[..i], second, UnionParts(second));
      var l := OptionalLink(Induced(first, UnionParts(first)[i]), second, UnionParts(second));
      RootedWellFormed(r);
      RootedWellFormed(l);
      MergeRooted(r, l);
      MergeBranches(r, l);
      MergeSourceBranches(r, l);
      ExtendedStep(Branches(first), SourceBranches(first), i, second.vertices);
    }
  }

  lemma NoneExtended(bs: seq<seq<Vertex>>, ss: seq<seq<Vertex>>, vs: seq<Vertex>)
    ensures [] == Extended(bs[..0], vs) && [] == ss[..0]
  {
  }

  lemma ExtendedStep(bs: seq<seq<Vertex>>, ss: seq<seq<Vertex>>, i: nat, vs: seq<Vertex>)
    requires i < |bs| == |ss|
    ensures Extended(bs[..i + 1], vs) == Extended(bs[..i], vs) + [bs[i] + vs]
    ensures ss[..i + 1] == ss[..i] + [ss[i]]
  {
  }

  /* ---------- and when it does not ---------- */

  /** A vertex of the optional side reached from the mandatory side is reached from a linked vertex. */
  lemma EnteredThrough(c: Graph, second: Graph, b: set<nat>, r: nat, v: nat)
    requires WellFormed(c) && WellFormed(second) && LinkSets(|c.vertices|, |second.vertices|, Sources(c), b)
    requires r < |c.vertices| <= v
    requires Reach(ArcsOf(LinkedBy(c, second, Sources(c), b, false).edges), r, v)
    ensures LinkReaches(second, |c.vertices|, b, v - |c.vertices|)
  {
    hide Reach, ArcsOf, LinkedBy, Merge, Sources, Adj, WellFormed;
    var n, l := |c.vertices|, LinkedBy(c, second, Sources(c), b, false);
    LinkedByWellFormed(c, second, Sources(c), b, false);
    var side := set w | w in Below(|l.vertices|) && SideOf(second, n, b, w);
    forall s: nat, t: nat | s in side && (s, t) in ArcsOf(l.edges) ensures t in side {
      assert Adj(l, s, t) by { AdjIs(l, s, t); }
      AdjBelow(l, s, t);
      LinkedByAdj(c, second, Sources(c), b, false, s, t);
      SideStep(c, second, b, s, t);
    }
    ClosedReach(ArcsOf(l.edges), side, r, v);
  }

  lemma AdjIs(g: Graph, u: nat, v: nat)
    requires (u, v) in ArcsOf(g.edges)
    ensures Adj(g, u, v)
  {
  }

  ghost predicate SideOf(second: Graph, n: nat, b: set<nat>, w: nat) {
    w >= n ==> LinkReaches(second, n, b, w - n)
  }

  lemma SideStep(c: Graph, second: Graph, b: set<nat>, s: nat, t: nat)
    requires WellFormed(c) && WellFormed(second) && LinkSets(|c.vertices|, |second.vertices|, Sources(c), b)
    requires SideOf(second, |c.vertices|, b, s)
    requires Adj(Merge(c, second), s, t) || (s in Sources(c) && t in b)
    ensures SideOf(second, |c.vertices|, b, t)
  {
    hide Reach, Merge, Sources, Adj, WellFormed;
    var n := |c.vertices|;
    if t in b && s in Sources(c) {
      ReachRefl(ArcsOf(second.edges), t - n);
      assert ReachesFrom(second, n, b, t - n, t - n);
    } else if t >= n {
      MergeAdj(c, second, s, t);
      if s < n {
        AdjBelow(c, s, t);
      } else {
        var w: nat :| ReachesFrom(second, n, b, w, s - n);
        AdjArc(second, s - n, t - n);
        ReachStep(ArcsOf(second.edges), w, s - n, t - n);
        assert ReachesFrom(second, n, b, w, t - n);
      }
    }
  }

  lemma AdjArc(g: Graph, u: nat, v: nat)
    requires Adj(g, u, v)
    ensures (u, v) in ArcsOf(g.edges)
  {
  }

  lemma NothingLeadsBack(c: Graph, second: Graph, b: set<nat>, u: nat, v: nat)
    requires WellFormed(c) && WellFormed(second) && LinkSets(|c.vertices|, |second.vertices|, Sources(c), b)
    requires |c.vertices| <= u < |c.vertices| + |second.vertices|
    requires Reach(ArcsOf(LinkedBy(c, second, Sources(c), b, false).edges), u, v)
    ensures v >= |c.vertices|
  {
    hide Reach, ArcsOf, LinkedBy, Merge, Sources, Adj, WellFormed;
    var n, l := |c.vertices|, LinkedBy(c, second, Sources(c), b, false);
    LinkedByWellFormed(c, second, Sources(c), b, false);
    var side := set w | w in Below(|l.vertices|) && w >= n;
    forall s: nat, t: nat | s in side && (s, t) in ArcsOf(l.edges) ensures t in side {
      assert Adj(l, s, t) by { AdjIs(l, s, t); }
      AdjBelow(l, s, t);
      LinkedByAdj(c, second, Sources(c), b, false, s, t);
      MergeAdj(c, second, s, t);
    }
    ClosedReach(ArcsOf(l.edges), side, u, v);
  }

  /** If linking made one rooted component, every component of the optional side was hit. */
  lemma OneComponentHit(c: Graph, second: Graph)
    requires WellFormed(c) && c.vertices != [] && Rooted(second) && PartsWithin(second, UnionParts(second))
    requires Rooted(OptionalLink(c, second, UnionParts(second))) && |UnionParts(OptionalLink(c, second, UnionParts(second)))| == 1
    ensures OffsetHarmless(second)
  {
    hide *;
    var l := OptionalLink(c, second, UnionParts(second));
    RootedWellFormed(second);
    OptionalSets(c, second);
    OptionalLinkIs(c, second, UnionParts(second));
    LinkedByWellFormed(c, second, Sources(c), ShiftSet(LocalSources(second, UnionParts(second)), |c.vertices|), false);
    SomeMore(c, second);
    var r := WholeRoot(l);
    NotAbove(c, second, ShiftSet(LocalSources(second, UnionParts(second)), |c.vertices|), r);
    forall part | part in UnionParts(second) ensures SourceHit(second, part) {
      HitByRoot(c, second, part, r);
    }
    MakeHarmless(second);
  }

  lemma SomeMore(c: Graph, second: Graph)
    requires c.vertices != []
    ensures c.vertices + second.vertices != [] && |c.vertices + second.vertices| == |c.vertices| + |second.vertices|
  {
  }

  lemma MakeHarmless(second: Graph)
    requires PartsWithin(second, UnionParts(second)) && forall part :: part in UnionParts(second) ==> SourceHit(second, part)
    ensures OffsetHarmless(second)
  {
    hide SourceHit, UnionParts;
  }

  lemma WholeRoot(l: Graph) returns (r: nat)
    requires Rooted(l) && |UnionParts(l)| == 1 && l.vertices != []
    ensures RootsAll(l, r)
  {
    hide Reach, Connected, ArcsOf, UnionParts;
    var es, n := ArcsOf(l.edges), |l.vertices|;
    assert HasRoot(es, n, 0);
    r :| RootOf(es, n, r, 0);
    forall w: nat | w < n ensures Reach(es, r, w) {
      AllTogether(l, 0, w);
    }
  }

  lemma AllTogether(g: Graph, u: nat, v: nat)
    requires |UnionParts(g)| == 1 && u < |g.vertices| && v < |g.vertices|
    ensures Connected(ArcsOf(g.edges), u, v)
  {
    hide UnionParts, Connected;
    var p := PartOf(g, u);
    var q := PartOf(g, v);
    assert p == UnionParts(g)[0] && q == UnionParts(g)[0];
    PartTogether(g, p, u, v);
  }

  lemma NotAbove(c: Graph, second: Graph, b: set<nat>, r: nat)
    requires WellFormed(c) && WellFormed(second) && c.vertices != [] && LinkSets(|c.vertices|, |second.vertices|, Sources(c), b)
    requires RootsAll(LinkedBy(c, second, Sources(c), b, false), r)
    requires LinkedBy(c, second, Sources(c), b, false).vertices == c.vertices + second.vertices
    ensures r < |c.vertices|
  {
    hide Reach, ArcsOf, LinkedBy, Merge, Sources, LinkSets;
    if r >= |c.vertices| {
      assert Reach(ArcsOf(LinkedBy(c, second, Sources(c), b, false).edges), r, 0);
      NothingLeadsBack(c, second, b, r, 0);
    }
  }

  lemma HitByRoot(c: Graph, second: Graph, part: seq<nat>, r: nat)
    requires WellFormed(c) && Rooted(second) && PartsWithin(second, UnionParts(second)) && part in UnionParts(second)
    requires RootsAll(OptionalLink(c, second, UnionParts(second)), r) && r < |c.vertices|
    ensures SourceHit(second, part)
  {
    hide *;
    var b := ShiftSet(LocalSources(second, UnionParts(second)), |c.vertices|);
    RootedWellFormed(second);
    OptionalSets(c, second);
    OptionalLinkIs(c, second, UnionParts(second));
    LinkedByWellFormed(c, second, Sources(c), b, false);
    SomeMoreLength(c, second);
    var s := PartSource(second, part);
    RootsAt(LinkedBy(c, second, Sources(c), b, false), r, s + |c.vertices|);
    EnteredThrough(c, second, b, r, s + |c.vertices|);
    BackDown(s, |c.vertices|);
    var t := LinkedFrom(second, |c.vertices|, LocalSources(second, UnionParts(second)), s);
    SourceMeets(second, part, s, t);
  }

  lemma SomeMoreLength(c: Graph, second: Graph)
    ensures |c.vertices + second.vertices| == |c.vertices| + |second.vertices|
  {
  }

  lemma BackDown(s: nat, n: nat)
    ensures s + n - n == s
  {
  }

  lemma RootsAt(g: Graph, r: nat, w: nat)
    requires RootsAll(g, r) && w < |g.vertices|
    ensures Reach(ArcsOf(g.edges), r, w)
  {
  }

  lemma LinkedFrom(second: Graph, n: nat, locals: set<nat>, s: nat) returns (t: nat)
    requires LinkReaches(second, n, ShiftSet(locals, n), s)
    ensures t in locals && Reach(ArcsOf(second.edges), t, s)
  {
    hide Reach;
    t :| ReachesFrom(second, n, ShiftSet(locals, n), t, s);
    assert t + n - n == t;
  }

  lemma PartSource(g: Graph, part: seq<nat>) returns (s: nat)
    requires Rooted(g) && part in UnionParts(g)
    ensures s < |g.vertices| && s in part && InIsc(g, s)
  {
    hide UnionParts, Rooted, ArcsOf, IsSource;
    PartShape(g, part);
    RootedWellFormed(g);
    PartRooted(g, part);
    var i: nat :| InIsc(Induced(g, part), i);
    assert part[i] in part;
    s := part[i];
  }

  lemma SourceMeets(g: Graph, part: seq<nat>, s: nat, t: nat)
    requires Rooted(g) && PartsWithin(g, UnionParts(g)) && part in UnionParts(g)
    requires s in part && InIsc(g, s) && t in LocalSources(g, UnionParts(g)) && Reach(ArcsOf(g.edges), t, s)
    ensures SourceHit(g, part)
  {
    hide UnionParts, Reach, Connected, ArcsOf, LocalSources;
    var es := ArcsOf(g.edges);
    RootedWellFormed(g);
    WellFormedArcs(g);
    ReachRange(es, |g.vertices|, t, s);
    ReachConnected(es, t, s);
    Closed(g, part, s, t);
    assert Reach(es, s, t);
    forall w: nat | Reach(es, w, t) ensures Reach(es, t, w) {
      ReachTrans(es, w, t, s);
      ReachTrans(es, t, s, w);
    }
    assert InIsc(g, t);
  }

  lemma Closed(g: Graph, part: seq<nat>, u: nat, v: nat)
    requires part in UnionParts(g) && u in part && v < |g.vertices| && Connected(ArcsOf(g.edges), u, v)
    ensures v in part
  {
    ComponentClosed(ArcsOf(g.edges), |g.vertices|, part, u, v);
  }

  /* ---------- exactly when ---------- */

  /** The first of the linked components within the combined graph. */
  lemma {:induction false} FirstLink(first: Graph, second: Graph, k: nat)
    requires Rooted(first) && Rooted(second) && 1 <= k <= |UnionParts(first)|
    requires PartsWithin(first, UnionParts(first)) && PartsWithin(second, UnionParts(second))
    ensures PartsWithin(first, UnionParts(first)[..k]) && Indices(UnionParts(first)[0], |first.vertices|)
    ensures WellFormed(OptionalCombined(first, UnionParts(first)[..k], second, UnionParts(second)))
    ensures |UnionParts(OptionalCombined(first, UnionParts(first)[..k], second, UnionParts(second)))|
         >= k - 1 + |UnionParts(OptionalLink(Induced(first, UnionParts(first)[0]), second, UnionParts(second)))|
    ensures Rooted(OptionalCombined(first, UnionParts(first)[..k], second, UnionParts(second)))
        ==> Rooted(OptionalLink(Induced(first, UnionParts(first)[0]), second, UnionParts(second)))
    decreases k
  {
    hide *;
    var i: nat := k - 1;
    CombinedStep(first, UnionParts(first), i, second, UnionParts(second));
    LinkShape(first, i, second);
    var r := OptionalCombined(first, UnionParts(first)[..i], second, UnionParts(second));
    var l := OptionalLink(Induced(first, UnionParts(first)[i]), second, UnionParts(second));
    if i == 0 {
      NoneCombined(first, UnionParts(first), second, UnionParts(second));
      NothingYet();
      RootedWellFormed(EMPTY_GRAPH);
    } else {
      FirstLink(first, second, i);
    }
    MergeWellFormed(r, l);
    MergeRooted(r, l);
    MergeCount(r, l);
  }

  lemma MergeCount(g: Graph, h: Graph)
    requires WellFormed(g) && WellFormed(h)
    ensures |UnionParts(Merge(g, h))| == |UnionParts(g)| + |UnionParts(h)|
  {
    hide UnionParts, Merge;
    MergeParts(g, h);
  }

  lemma LinkShape(first: Graph, i: nat, second: Graph)
    requires Rooted(first) && Rooted(second) && i < |UnionParts(first)| && Indices(UnionParts(first)[i], |first.vertices|)
    requires PartsWithin(second, UnionParts(second))
    ensures WellFormed(Induced(first, UnionParts(first)[i])) && Induced(first, UnionParts(first)[i]).vertices != []
    ensures WellFormed(OptionalLink(Induced(first, UnionParts(first)[i]), second, UnionParts(second)))
    ensures |UnionParts(OptionalLink(Induced(first, UnionParts(first)[i]), second, UnionParts(second)))| >= 1
  {
    hide *;
    var c := Induced(first, UnionParts(first)[i]);
    RootedWellFormed(first);
    RootedWellFormed(second);
    BranchAt(first, i);
    PartSome(first, i);
    OptionalSets(c, second);
    OptionalLinkIs(c, second, UnionParts(second));
    LinkedByWellFormed(c, second, Sources(c), ShiftSet(LocalSources(second, UnionParts(second)), |c.vertices|), false);
    SomeMore(c, second);
    SomeBranch(OptionalLink(c, second, UnionParts(second)));
  }

  lemma PartSome(g: Graph, i: nat)
    requires i < |UnionParts(g)| && Indices(UnionParts(g)[i], |g.vertices|)
    ensures Induced(g, UnionParts(g)[i]).vertices != []
  {
    hide UnionParts;
    PartShape(g, UnionParts(g)[i]);
  }

  /**
   Combining gives each component of the mandatory side one optional part that
   depends on it, exactly if every component of the optional side has a source
   that is linked; then the independent strong components stay what they were.
   */
  lemma OptionalExactly(first: Graph, second: Graph)
    requires Rooted(first) && Rooted(second) && first.vertices != [] && second.vertices != []
    ensures PartsWithin(first, UnionParts(first)) && PartsWithin(second, UnionParts(second))
    ensures var r := OptionalCombined(first, UnionParts(first), second, UnionParts(second));
            && (Rooted(r) && |UnionParts(r)| == |UnionParts(first)| <==> OffsetHarmless(second))
            && (OffsetHarmless(second) ==>
                Branches(r) == Extended(Branches(first), second.vertices) && SourceBranches(r) == SourceBranches(first))
  {
    hide *;
    PartsAreOf(first);
    PartsAreOf(second);
    RootedWellFormed(first);
    SomeBranch(first);
    BranchCounts(first);
    var n := |UnionParts(first)|;
    var r := OptionalCombined(first, UnionParts(first), second, UnionParts(second));
    BranchCounts(r);
    WholeSlices(UnionParts(first), Branches(first), SourceBranches(first), second.vertices);
    if OffsetHarmless(second) {
      HarmlessCombined(first, second, n);
    }
    if Rooted(r) && |UnionParts(r)| == n {
      FirstLink(first, second, n);
      LinkShape(first, 0, second);
      OneComponentHit(Induced(first, UnionParts(first)[0]), second);
    }
  }

  lemma WholeSlices(parts: seq<seq<nat>>, bs: seq<seq<Vertex>>, ss: seq<seq<Vertex>>, vs: seq<Vertex>)
    ensures parts[..|parts|] == parts && bs[..|bs|] == bs && ss[..|ss|] == ss
    ensures |Extended(bs, vs)| == |bs|
  {
  }

  /** An optional side of one component is always linked. */
  lemma OneBranchHarmless(second: Graph)
    requires Rooted(second) && second.vertices != [] && |UnionParts(second)| == 1
    ensures PartsWithin(second, UnionParts(second)) && OffsetHarmless(second)
  {
    hide *;
    PartsAreOf(second);
    OnePart(second);
    var part := UnionParts(second)[0];
    PartAt(second, 0);
    PartRooted(second, part);
    var i := LocalSource(second, part);
    OneLocal(second, part, i);
    forall p | p in UnionParts(second) ensures SourceHit(second, p) {
      OneHit(second, p, part, i);
    }
    MakeHarmless(second);
  }

  lemma LocalSource(g: Graph, part: seq<nat>) returns (i: nat)
    requires Indices(part, |g.vertices|) && exists i: nat :: InIsc(Induced(g, part), i)
    ensures InIsc(Induced(g, part), i) && i < |part|
  {
    hide IsSource;
    i :| InIsc(Induced(g, part), i);
  }

  lemma OneHit(g: Graph, p: seq<nat>, part: seq<nat>, i: nat)
    requires p in UnionParts(g) && UnionParts(g) == [part] && part == Range(|g.vertices|) && PartsWithin(g, UnionParts(g))
    requires i < |part| && InIsc(g, part[i]) && i in LocalSources(g, UnionParts(g))
    ensures SourceHit(g, p)
  {
    hide UnionParts, IsSource, LocalSources;
    assert p == part && part[i] == i && i in part;
  }

  lemma OneLocal(g: Graph, part: seq<nat>, i: nat)
    requires UnionParts(g) == [part] && Indices(part, |g.vertices|) && InIsc(Induced(g, part), i) && PartsWithin(g, [part])
    ensures i in LocalSources(g, UnionParts(g))
  {
    hide UnionParts, InIsc, Induced;
    assert Last([part]) == part;
  }

  /** A union of single operands in OPTIONAL is not: only its first branch is linked. */
  lemma SinglesHarmful(second: Graph)
    requires second.edges == {} && |second.vertices| >= 2
    ensures PartsWithin(second, UnionParts(second)) && !OffsetHarmless(second)
  {
    hide LocalSources, InIsc;
    PartsAreOf(second);
    var part := PartOf(second, 1);
    SinglePart(second, part, 1);
    SingleLocals(second);
    assert !SourceHit(second, part);
  }

  lemma SinglePart(g: Graph, part: seq<nat>, v: nat)
    requires g.edges == {} && part in UnionParts(g) && v in part
    ensures part == [v]
  {
    hide UnionParts, Connected;
    PartShape(g, part);
    forall u | u in part ensures u == v {
      PartTogether(g, part, v, u);
      Unconnected(g, v, u);
    }
    IncreasingUnique(part, [v]);
  }

  lemma Unconnected(g: Graph, u: nat, v: nat)
    requires g.edges == {} && Connected(ArcsOf(g.edges), u, v)
    ensures u == v
  {
    ClosedReach(Undirected(ArcsOf(g.edges)), {u}, u, v);
  }

  lemma SingleLocals(g: Graph)
    requires g.edges == {} && PartsWithin(g, UnionParts(g))
    ensures forall t :: t in LocalSources(g, UnionParts(g)) ==> t == 0
  {
    hide UnionParts;
    forall i | 0 <= i < |UnionParts(g)| ensures |UnionParts(g)[i]| == 1 {
      PartAt(g, i);
      PartShape(g, UnionParts(g)[i]);
      assert UnionParts(g)[i][0] in UnionParts(g)[i];
      SinglePart(g, UnionParts(g)[i], UnionParts(g)[i][0]);
    }
    LocalZero(g, UnionParts(g));
  }

  lemma {:induction false} LocalZero(g: Graph, parts: seq<seq<nat>>)
    requires PartsWithin(g, parts) && forall i :: 0 <= i < |parts| ==> |parts[i]| == 1
    ensures forall t :: t in LocalSources(g, parts) ==> t == 0
    decreases |parts|
  {
    hide IsSource;
    if parts != [] {
      LocalZero(g, Init(parts));
      assert Last(parts) == parts[|parts| - 1];
    }
  }
}
