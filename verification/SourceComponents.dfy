/**
 The independent strong component: why every union component of a graph built
 from group patterns has exactly one, and everything depends on it.
 */
module SourceComponents {
  import opened Reachability
  import opened Graphs
  import opened DependencyGraph
  import opened GraphBuilder
  import opened GraphUnions

  /* ---------- one source, and a root ---------- */

  /** Every union component has one strong component that nothing outside it reaches. */
  ghost predicate OneSource(g: Graph) {
    && WellFormed(g)
    && forall u: nat, v: nat :: InIsc(g, u) && InIsc(g, v) && Connected(ArcsOf(g.edges), u, v) ==> Mutual(ArcsOf(g.edges), u, v)
  }

  /** r lies in the union component of v and reaches all of it. */
  ghost predicate RootOf(es: Arcs, n: nat, r: nat, v: nat) {
    r < n && Connected(es, v, r) && forall w: nat :: w < n && Connected(es, v, w) ==> Reach(es, r, w)
  }

  ghost predicate HasRoot(es: Arcs, n: nat, v: nat) {
    exists r: nat :: RootOf(es, n, r, v)
  }

  /** Every union component is reached from one of its vertices. */
  ghost predicate Rooted(g: Graph) {
    WellFormed(g) && forall v: nat :: v < |g.vertices| ==> HasRoot(ArcsOf(g.edges), |g.vertices|, v)
  }

  lemma ReachConnected(es: Arcs, u: nat, v: nat)
    requires Reach(es, u, v)
    ensures Connected(es, u, v) && Connected(es, v, u)
  {
    ReachMonotone(es, Undirected(es), u, v);
    ConnectedSym(es, u, v);
  }

  lemma ConnectedTrans(es: Arcs, u: nat, v: nat, w: nat)
    requires Connected(es, u, v) && Connected(es, v, w)
    ensures Connected(es, u, w)
  {
    ReachTrans(Undirected(es), u, v, w);
  }

  lemma ReachRange(es: Arcs, n: nat, u: nat, v: nat)
    requires WithinRange(es, n) && Reach(es, u, v) && v < n
    ensures u < n
  {
    if u >= n {
      ClosedReach(es, {u}, u, v);
    }
  }

  ghost function Ancestors(es: Arcs, n: nat, v: nat): set<nat> {
    set w | w in Below(n) && Reach(es, w, v)
  }

  lemma FewerAncestors(es: Arcs, n: nat, w: nat, v: nat)
    requires v < n && Reach(es, w, v) && !Reach(es, v, w)
    ensures Ancestors(es, n, w) < Ancestors(es, n, v)
  {
    hide Reach;
    ReachRefl(es, v);
    forall u | u in Ancestors(es, n, w) ensures u in Ancestors(es, n, v) {
      ReachTrans(es, u, w, v);
    }
    assert v in Ancestors(es, n, v) && v !in Ancestors(es, n, w);
  }

  /** Some source reaches every vertex of a finite graph. */
  lemma {:induction false} SourceAbove(es: Arcs, n: nat, v: nat) returns (s: nat)
    requires WithinRange(es, n) && v < n
    ensures s < n && IsSource(es, s) && Reach(es, s, v)
    decreases Ancestors(es, n, v)
  {
    hide Reach;
    if IsSource(es, v) {
      ReachRefl(es, v);
      return v;
    }
    var w: nat :| Reach(es, w, v) && !Reach(es, v, w);
    ReachRange(es, n, w, v);
    FewerAncestors(es, n, w, v);
    s := SourceAbove(es, n, w);
    ReachTrans(es, s, w, v);
  }

  lemma RootedSource(g: Graph, u: nat, v: nat)
    requires Rooted(g) && InIsc(g, u) && v < |g.vertices| && Connected(ArcsOf(g.edges), u, v)
    ensures Reach(ArcsOf(g.edges), u, v)
  {
    hide Reach, Connected, ArcsOf;
    var es := ArcsOf(g.edges);
    assert HasRoot(es, |g.vertices|, u);
    var r: nat :| RootOf(es, |g.vertices|, r, u);
    ReachRefl(es, u);
    ReachConnected(es, u, u);
    ReachTrans(es, u, r, v);
  }

  /** A union component with one source is reached from it, and conversely. */
  lemma RootedIff(g: Graph)
    requires WellFormed(g)
    ensures Rooted(g) <==> OneSource(g)
  {
    hide Reach, Connected, ArcsOf;
    if Rooted(g) {
      forall u: nat, v: nat | InIsc(g, u) && InIsc(g, v) && Connected(ArcsOf(g.edges), u, v)
        ensures Mutual(ArcsOf(g.edges), u, v)
      {
        RootedSource(g, u, v);
      }
    }
    if OneSource(g) {
      forall v: nat | v < |g.vertices| ensures HasRoot(ArcsOf(g.edges), |g.vertices|, v) {
        var r := SourceRoot(g, v);
      }
    }
  }

  lemma SourceRoot(g: Graph, v: nat) returns (r: nat)
    requires OneSource(g) && v < |g.vertices|
    ensures RootOf(ArcsOf(g.edges), |g.vertices|, r, v)
  {
    hide Reach, Connected, ArcsOf;
    var es, n := ArcsOf(g.edges), |g.vertices|;
    WellFormedArcs(g);
    r := SourceAbove(es, n, v);
    ReachConnected(es, r, v);
    forall w: nat | w < n && Connected(es, v, w) ensures Reach(es, r, w) {
      var s := SourceAbove(es, n, w);
      ReachConnected(es, s, w);
      ConnectedTrans(es, r, v, w);
      ConnectedTrans(es, r, w, s);
      assert Mutual(es, r, s);
      ReachTrans(es, r, s, w);
    }
  }

  /** The graphs of patterns without OPTIONAL are rooted: each vertex is a root. */
  lemma PlainRooted(g: Graph)
    requires Plain(g)
    ensures Rooted(g)
  {
    hide Plain, Reach, Connected, ArcsOf;
    assert WellFormed(g) by { PlainIs(g); }
    var es := ArcsOf(g.edges);
    forall v: nat | v < |g.vertices| ensures HasRoot(es, |g.vertices|, v) {
      forall w: nat | w < |g.vertices| && Connected(es, v, w) ensures Reach(es, v, w) {
        PlainReach(g, v, w);
      }
      ReachRefl(es, v);
      ReachConnected(es, v, v);
      assert RootOf(es, |g.vertices|, v, v);
    }
  }

  lemma PlainIs(g: Graph)
    requires Plain(g)
    ensures WellFormed(g)
  {
  }

  lemma PlainReach(g: Graph, v: nat, w: nat)
    requires Plain(g) && v < |g.vertices| && w < |g.vertices| && Connected(ArcsOf(g.edges), v, w)
    ensures Reach(ArcsOf(g.edges), v, w)
  {
    hide Plain, Reach, Connected, ArcsOf;
    PlainConnected(g, v, w);
    if v == w {
      ReachRefl(ArcsOf(g.edges), v);
    } else {
      ReachArc(ArcsOf(g.edges), v, w);
    }
  }

  /* ---------- side by side ---------- */

  lemma SideDirected(a: Arcs, b: Arcs, es: Arcs, n: nat, m: nat, u: nat, v: nat)
    requires SideBySide(a, b, es, n, m)
    ensures (u, v) in es <==> (u, v) in a || (u >= n && v >= n && (u - n, v - n) in b)
    ensures (u, v) in a ==> u < n && v < n
    ensures u >= n && v >= n && (u - n, v - n) in b ==> u < n + m && v < n + m
  {
    hide ShiftArcs;
    ShiftHas(b, n, u, v);
    assert (u, v) in a ==> (u, v).0 < n && (u, v).1 < n;
    if u >= n && v >= n && (u - n, v - n) in b {
      assert (u - n, v - n).0 < m && (u - n, v - n).1 < m;
    }
  }

  lemma ReachLow(a: Arcs, b: Arcs, es: Arcs, n: nat, m: nat, u: nat, v: nat)
    requires SideBySide(a, b, es, n, m) && u < n
    ensures Reach(es, u, v) <==> v < n && Reach(a, u, v)
  {
    hide Reach;
    if Reach(es, u, v) {
      ReachRefl(a, u);
      var side := set w | w in Below(n) && Reach(a, u, w);
      forall s: nat, t: nat | s in side && (s, t) in es ensures t in side {
        hide SideBySide;
        SideDirected(a, b, es, n, m, s, t);
        ReachStep(a, u, s, t);
      }
      ClosedReach(es, side, u, v);
    }
    if Reach(a, u, v) {
      ReachMonotone(a, es, u, v);
    }
  }

  lemma ReachUp(a: Arcs, b: Arcs, es: Arcs, n: nat, m: nat, u: nat, v: nat)
    requires SideBySide(a, b, es, n, m) && u < m && Reach(b, u, v)
    ensures Reach(es, u + n, v + n)
  {
    hide Reach, SideBySide;
    ReachRefl(es, u + n);
    var side := set w | w in Below(m) && Reach(es, u + n, w + n);
    forall s: nat, t: nat | s in side && (s, t) in b ensures t in side {
      SideDirected(a, b, es, n, m, s + n, t + n);
      assert (s + n - n, t + n - n) == (s, t);
      ReachStep(es, u + n, s + n, t + n);
    }
    ClosedReach(b, side, u, v);
  }

  lemma ReachDown(a: Arcs, b: Arcs, es: Arcs, n: nat, m: nat, u: nat, v: nat)
    requires SideBySide(a, b, es, n, m) && u < m && Reach(es, u + n, v)
    ensures v >= n && Reach(b, u, v - n)
  {
    hide Reach, SideBySide;
    ReachRefl(b, u);
    var side := set w | w in Below(n + m) && ReachedHigh(b, n, u, w);
    assert ReachedHigh(b, n, u, u + n);
    forall s: nat, t: nat | s in side && (s, t) in es ensures t in side {
      SideDirected(a, b, es, n, m, s, t);
      ReachStep(b, u, s - n, t - n);
    }
    ClosedReach(es, side, u + n, v);
  }

  ghost predicate ReachedHigh(b: Arcs, n: nat, u: nat, w: nat) {
    n <= w && Reach(b, u, w - n)
  }

  /** A vertex of the merged graph is a source exactly when it is one where it comes from. */
  lemma MergeIsc(g: Graph, h: Graph, u: nat)
    requires WellFormed(g) && WellFormed(h) && u < |g.vertices| + |h.vertices|
    ensures InIsc(Merge(g, h), u) <==>
            if u < |g.vertices| then InIsc(g, u) else InIsc(h, u - |g.vertices|)
  {
    hide Reach, ArcsOf, Merge, SideBySide;
    var a, b, es, n, m := ArcsOf(g.edges), ArcsOf(h.edges), ArcsOf(Merge(g, h).edges), |g.vertices|, |h.vertices|;
    MergeSides(g, h);
    WellFormedArcs(h);
    if u < n {
      forall w: nat ensures Reach(es, w, u) <==> w < n && Reach(a, w, u) {
        OnlyLow(g, h, w, u);
      }
      forall w: nat ensures Reach(es, u, w) <==> w < n && Reach(a, u, w) {
        ReachLow(a, b, es, n, m, u, w);
      }
      WellFormedArcs(g);
      LowSource(a, es, n, u);
    } else {
      forall w: nat ensures Reach(es, w, u) <==> w >= n && Reach(b, w - n, u - n) {
        OnlyHigh(g, h, w, u);
      }
      forall w: nat ensures Reach(es, u, w) <==> w >= n && Reach(b, u - n, w - n) {
        HighOnly(g, h, u, w);
      }
      HighSource(b, es, n, u, u - n);
    }
  }

  lemma LowSource(a: Arcs, es: Arcs, n: nat, u: nat)
    requires WithinRange(a, n) && u < n
    requires forall w: nat :: Reach(es, w, u) <==> w < n && Reach(a, w, u)
    requires forall w: nat :: Reach(es, u, w) <==> w < n && Reach(a, u, w)
    ensures IsSource(es, u) <==> IsSource(a, u)
  {
    hide Reach;
    if IsSource(es, u) {
      forall w: nat | Reach(a, w, u) ensures Reach(a, u, w) {
        ReachRange(a, n, w, u);
        assert Reach(es, w, u);
      }
    }
  }

  lemma HighSource(b: Arcs, es: Arcs, n: nat, u: nat, q: nat)
    requires u == q + n
    requires forall w: nat :: Reach(es, w, u) <==> w >= n && Reach(b, w - n, q)
    requires forall w: nat :: Reach(es, u, w) <==> w >= n && Reach(b, q, w - n)
    ensures IsSource(es, u) <==> IsSource(b, q)
  {
    hide Reach;
    if IsSource(es, u) {
      forall w: nat | Reach(b, w, q) ensures Reach(b, q, w) {
        assert w + n - n == w;
        assert Reach(es, w + n, u) && Reach(es, u, w + n);
      }
    }
  }

  lemma OnlyLow(g: Graph, h: Graph, w: nat, u: nat)
    requires WellFormed(g) && WellFormed(h) && u < |g.vertices|
    ensures Reach(ArcsOf(Merge(g, h).edges), w, u) <==> w < |g.vertices| && Reach(ArcsOf(g.edges), w, u)
  {
    hide Reach, ArcsOf, Merge, SideBySide;
    var a, b, es, n, m := ArcsOf(g.edges), ArcsOf(h.edges), ArcsOf(Merge(g, h).edges), |g.vertices|, |h.vertices|;
    MergeSides(g, h);
    MergeWellFormed(g, h);
    WellFormedArcs(Merge(g, h));
    if w < n {
      ReachLow(a, b, es, n, m, w, u);
    } else if Reach(es, w, u) {
      ReachRange(es, n + m, w, u);
      ReachDown(a, b, es, n, m, w - n, u);
    }
  }

  lemma OnlyHigh(g: Graph, h: Graph, w: nat, u: nat)
    requires WellFormed(g) && WellFormed(h) && |g.vertices| <= u < |g.vertices| + |h.vertices|
    ensures Reach(ArcsOf(Merge(g, h).edges), w, u)
       <==> w >= |g.vertices| && Reach(ArcsOf(h.edges), w - |g.vertices|, u - |g.vertices|)
  {
    hide Reach, ArcsOf, Merge, SideBySide;
    var a, b, es, n, m := ArcsOf(g.edges), ArcsOf(h.edges), ArcsOf(Merge(g, h).edges), |g.vertices|, |h.vertices|;
    MergeSides(g, h);
    MergeWellFormed(g, h);
    WellFormedArcs(Merge(g, h));
    WellFormedArcs(h);
    if Reach(es, w, u) {
      ReachRange(es, n + m, w, u);
      if w < n {
        ReachLow(a, b, es, n, m, w, u);
      } else {
        ReachDown(a, b, es, n, m, w - n, u);
      }
    }
    if w >= n && Reach(b, w - n, u - n) {
      ReachRange(b, m, w - n, u - n);
      ReachUp(a, b, es, n, m, w - n, u - n);
    }
  }

  lemma HighOnly(g: Graph, h: Graph, u: nat, w: nat)
    requires WellFormed(g) && WellFormed(h) && |g.vertices| <= u < |g.vertices| + |h.vertices|
    ensures Reach(ArcsOf(Merge(g, h).edges), u, w)
       <==> w >= |g.vertices| && Reach(ArcsOf(h.edges), u - |g.vertices|, w - |g.vertices|)
  {
    hide Reach, ArcsOf, Merge, SideBySide;
    var a, b, es, n, m := ArcsOf(g.edges), ArcsOf(h.edges), ArcsOf(Merge(g, h).edges), |g.vertices|, |h.vertices|;
    MergeSides(g, h);
    if Reach(es, u, w) {
      ReachDown(a, b, es, n, m, u - n, w);
    }
    if w >= n && Reach(b, u - n, w - n) {
      ReachUp(a, b, es, n, m, u - n, w - n);
    }
  }

  /** Merged graphs are rooted exactly when both are. */
  lemma MergeRooted(g: Graph, h: Graph)
    requires WellFormed(g) && WellFormed(h)
    ensures Rooted(Merge(g, h)) <==> Rooted(g) && Rooted(h)
  {
    hide Merge, WellFormed;
    MergeWellFormed(g, h);
    RootedIff(Merge(g, h));
    RootedIff(g);
    RootedIff(h);
    if OneSource(Merge(g, h)) {
      LowOneSource(g, h);
      HighOneSource(g, h);
    }
    if OneSource(g) && OneSource(h) {
      BothOneSource(g, h);
    }
  }

  lemma MergeConnected(g: Graph, h: Graph, u: nat, v: nat)
    requires WellFormed(g) && WellFormed(h) && u < |g.vertices| + |h.vertices|
    ensures u < |g.vertices| ==>
              (Connected(ArcsOf(Merge(g, h).edges), u, v) <==> v < |g.vertices| && Connected(ArcsOf(g.edges), u, v))
    ensures u >= |g.vertices| ==>
              (Connected(ArcsOf(Merge(g, h).edges), u, v) <==>
               v >= |g.vertices| && Connected(ArcsOf(h.edges), u - |g.vertices|, v - |g.vertices|))
  {
    hide Connected, ArcsOf, Merge, SideBySide;
    MergeSides(g, h);
    if u < |g.vertices| {
      ConnectedLow(ArcsOf(g.edges), ArcsOf(h.edges), ArcsOf(Merge(g, h).edges), |g.vertices|, |h.vertices|, u, v);
    } else {
      ConnectedHigh(ArcsOf(g.edges), ArcsOf(h.edges), ArcsOf(Merge(g, h).edges), |g.vertices|, |h.vertices|, u, v);
    }
  }

  lemma MergeLength(g: Graph, h: Graph)
    ensures |Merge(g, h).vertices| == |g.vertices| + |h.vertices|
  {
  }

  lemma LowOneSource(g: Graph, h: Graph)
    requires WellFormed(g) && WellFormed(h) && OneSource(Merge(g, h))
    ensures OneSource(g)
  {
    hide Reach, Connected, ArcsOf, Merge, IsSource;
    MergeLength(g, h);
    forall u: nat, v: nat | InIsc(g, u) && InIsc(g, v) && Connected(ArcsOf(g.edges), u, v)
      ensures Mutual(ArcsOf(g.edges), u, v)
    {
      MergeIsc(g, h, u);
      MergeIsc(g, h, v);
      MergeConnected(g, h, u, v);
      OnlyLow(g, h, u, v);
      OnlyLow(g, h, v, u);
    }
  }

  lemma HighOneSource(g: Graph, h: Graph)
    requires WellFormed(g) && WellFormed(h) && OneSource(Merge(g, h))
    ensures OneSource(h)
  {
    hide Reach, Connected, ArcsOf, Merge, IsSource;
    MergeLength(g, h);
    var n := |g.vertices|;
    forall u: nat, v: nat | InIsc(h, u) && InIsc(h, v) && Connected(ArcsOf(h.edges), u, v)
      ensures Mutual(ArcsOf(h.edges), u, v)
    {
      HighOneSourceAt(g, h, u + n, v + n);
    }
  }

  lemma HighOneSourceAt(g: Graph, h: Graph, u: nat, v: nat)
    requires WellFormed(g) && WellFormed(h) && OneSource(Merge(g, h)) && u >= |g.vertices| && v >= |g.vertices|
    requires InIsc(h, u - |g.vertices|) && InIsc(h, v - |g.vertices|)
    requires Connected(ArcsOf(h.edges), u - |g.vertices|, v - |g.vertices|)
    ensures Mutual(ArcsOf(h.edges), u - |g.vertices|, v - |g.vertices|)
  {
    hide Reach, Connected, ArcsOf, Merge, IsSource;
    MergeLength(g, h);
    MergeIsc(g, h, u);
    MergeIsc(g, h, v);
    MergeConnected(g, h, u, v);
    OnlyHigh(g, h, u, v);
    OnlyHigh(g, h, v, u);
  }

  lemma BothOneSource(g: Graph, h: Graph)
    requires WellFormed(g) && WellFormed(h) && OneSource(g) && OneSource(h)
    ensures OneSource(Merge(g, h))
  {
    hide Reach, Connected, ArcsOf, Merge, IsSource;
    MergeWellFormed(g, h);
    MergeLength(g, h);
    var r := Merge(g, h);
    forall u: nat, v: nat | InIsc(r, u) && InIsc(r, v) && Connected(ArcsOf(r.edges), u, v)
      ensures Mutual(ArcsOf(r.edges), u, v)
    {
      MergeIsc(g, h, u);
      MergeIsc(g, h, v);
      MergeConnected(g, h, u, v);
      if u < |g.vertices| {
        OnlyLow(g, h, u, v);
        OnlyLow(g, h, v, u);
      } else {
        OnlyHigh(g, h, u, v);
        OnlyHigh(g, h, v, u);
      }
    }
  }

  /* ---------- one union component ---------- */

  lemma PartClosed(g: Graph, part: seq<nat>, u: nat, v: nat)
    requires WellFormed(g) && part in UnionParts(g) && Adj(g, u, v)
    ensures u in part <==> v in part
  {
    hide Connected;
    var es := ArcsOf(g.edges);
    WellFormedArcs(g);
    assert (u, v).0 < |g.vertices| && (u, v).1 < |g.vertices|;
    ReachArc(es, u, v);
    ReachConnected(es, u, v);
    if u in part {
      ComponentClosed(es, |g.vertices|, part, u, v);
    }
    if v in part {
      ComponentClosed(es, |g.vertices|, part, v, u);
    }
  }

  ghost predicate ReachesIn(h: Graph, part: seq<nat>, i: nat, w: nat) {
    w in part && Reach(ArcsOf(h.edges), i, IndexIn(part, w))
  }

  /** Reachability in a union component alone is that in the graph. */
  lemma PartReach(g: Graph, part: seq<nat>, i: nat, j: nat)
    requires WellFormed(g) && part in UnionParts(g) && i < |part| && j < |part|
    ensures Indices(part, |g.vertices|)
    ensures Reach(ArcsOf(Induced(g, part).edges), i, j) <==> Reach(ArcsOf(g.edges), part[i], part[j])
  {
    hide UnionParts, Reach, Induced, ArcsOf;
    PartShape(g, part);
    if Reach(ArcsOf(Induced(g, part).edges), i, j) {
      PartReachForth(g, part, i, j);
    }
    if Reach(ArcsOf(g.edges), part[i], part[j]) {
      PartReachBack(g, part, i, j);
    }
  }

  lemma PartReachForth(g: Graph, part: seq<nat>, i: nat, j: nat)
    requires Indices(part, |g.vertices|) && Increasing(part) && i < |part| && j < |part| && WellFormed(g)
    requires Reach(ArcsOf(Induced(g, part).edges), i, j)
    ensures Reach(ArcsOf(g.edges), part[i], part[j])
  {
    hide Reach, Induced, ArcsOf, Adj;
    var h := Induced(g, part);
    ReachRefl(ArcsOf(g.edges), part[i]);
    var side := set k | k in Below(|part|) && Reach(ArcsOf(g.edges), part[i], part[k]);
    InducedWellFormed(g, part);
    forall s: nat, t: nat | s in side && (s, t) in ArcsOf(h.edges) ensures t in side {
      PartArcForth(g, part, s, t);
      ReachStep(ArcsOf(g.edges), part[i], part[s], part[t]);
    }
    ClosedReach(ArcsOf(h.edges), side, i, j);
  }

  lemma PartArcForth(g: Graph, part: seq<nat>, s: nat, t: nat)
    requires Indices(part, |g.vertices|) && Increasing(part) && WellFormed(g)
    requires (s, t) in ArcsOf(Induced(g, part).edges)
    ensures s < |part| && t < |part| && (part[s], part[t]) in ArcsOf(g.edges)
  {
    hide Induced;
    InducedWellFormed(g, part);
    AdjBelow(Induced(g, part), s, t);
    InducedAdj(g, part, s, t);
  }

  lemma PartReachBack(g: Graph, part: seq<nat>, i: nat, j: nat)
    requires WellFormed(g) && part in UnionParts(g) && i < |part| && j < |part|
    requires Indices(part, |g.vertices|) && Increasing(part) && Reach(ArcsOf(g.edges), part[i], part[j])
    ensures Reach(ArcsOf(Induced(g, part).edges), i, j)
  {
    hide UnionParts, Reach, Induced, ArcsOf;
    var h := Induced(g, part);
    ReachRefl(ArcsOf(h.edges), i);
    IndexInUnique(part, i);
    IndexInUnique(part, j);
    var side := set w | w in Elements(part) && ReachesIn(h, part, i, w);
    assert part[i] in side;
    forall s: nat, t: nat | s in side && (s, t) in ArcsOf(g.edges) ensures t in side {
      PartClosed(g, part, s, t);
      InducedAdj(g, part, IndexIn(part, s), IndexIn(part, t));
      ReachStep(ArcsOf(h.edges), i, IndexIn(part, s), IndexIn(part, t));
    }
    ClosedReach(ArcsOf(g.edges), side, part[i], part[j]);
  }

  /** A union component alone is reached from each of its sources, and these are those of the graph. */
  lemma PartRooted(g: Graph, part: seq<nat>)
    requires Rooted(g) && part in UnionParts(g)
    ensures Indices(part, |g.vertices|) && WellFormed(Induced(g, part))
    ensures forall i: nat :: i < |part| ==> (InIsc(Induced(g, part), i) <==> InIsc(g, part[i]))
    ensures forall i: nat, j: nat :: InIsc(Induced(g, part), i) && j < |part| ==> Reach(ArcsOf(Induced(g, part).edges), i, j)
    ensures exists i: nat :: InIsc(Induced(g, part), i)
  {
    hide UnionParts, Reach, Induced, ArcsOf, IsSource, Connected;
    PartShape(g, part);
    InducedWellFormed(g, part);
    forall i: nat | i < |part| ensures InIsc(Induced(g, part), i) <==> InIsc(g, part[i]) {
      PartIsc(g, part, i);
    }
    forall i: nat, j: nat | InIsc(Induced(g, part), i) && j < |part|
      ensures Reach(ArcsOf(Induced(g, part).edges), i, j)
    {
      PartIsc(g, part, i);
      PartConnected(g, part, i, j);
      RootedSource(g, part[i], part[j]);
      PartReach(g, part, i, j);
    }
    WellFormedArcs(Induced(g, part));
    var s := SourceAbove(ArcsOf(Induced(g, part).edges), |part|, 0);
    assert InIsc(Induced(g, part), s);
  }

  lemma PartConnected(g: Graph, part: seq<nat>, i: nat, j: nat)
    requires part in UnionParts(g) && i < |part| && j < |part|
    ensures Connected(ArcsOf(g.edges), part[i], part[j])
  {
    hide Connected;
    assert part[i] in part && part[j] in part;
    ComponentConnected(ArcsOf(g.edges), |g.vertices|, part, part[i], part[j]);
  }

  lemma PartIsc(g: Graph, part: seq<nat>, i: nat)
    requires WellFormed(g) && part in UnionParts(g) && i < |part| && Indices(part, |g.vertices|) && Increasing(part)
    ensures InIsc(Induced(g, part), i) <==> InIsc(g, part[i])
  {
    hide UnionParts, Reach, Induced, ArcsOf, Connected;
    var es, fs := ArcsOf(g.edges), ArcsOf(Induced(g, part).edges);
    InducedWellFormed(g, part);
    if InIsc(Induced(g, part), i) {
      forall w: nat | Reach(es, w, part[i]) ensures Reach(es, part[i], w) {
        var j := PartReacher(g, part, i, w);
        PartReach(g, part, j, i);
        PartReach(g, part, i, j);
      }
    }
    if InIsc(g, part[i]) {
      forall j: nat | Reach(fs, j, i) ensures Reach(fs, i, j) {
        WellFormedArcs(Induced(g, part));
        ReachRange(fs, |part|, j, i);
        PartReach(g, part, j, i);
        PartReach(g, part, i, j);
      }
    }
  }

  lemma PartReacher(g: Graph, part: seq<nat>, i: nat, w: nat) returns (j: nat)
    requires WellFormed(g) && part in UnionParts(g) && i < |part| && Indices(part, |g.vertices|)
    requires Reach(ArcsOf(g.edges), w, part[i])
    ensures j < |part| && part[j] == w
  {
    hide Reach, ArcsOf, Connected;
    WellFormedArcs(g);
    ReachRange(ArcsOf(g.edges), |g.vertices|, w, part[i]);
    ReachConnected(ArcsOf(g.edges), w, part[i]);
    assert part[i] in part;
    ComponentClosed(ArcsOf(g.edges), |g.vertices|, part, part[i], w);
    j := IndexIn(part, w);
  }

  /* ---------- linking ---------- */

  /** r reaches every vertex. */
  ghost predicate RootsAll(g: Graph, r: nat) {
    r < |g.vertices| && forall w: nat :: w < |g.vertices| ==> Reach(ArcsOf(g.edges), r, w)
  }

  /** A graph with such a vertex is one rooted union component, and its sources are the vertices that reach r. */
  lemma RootsAllRooted(g: Graph, r: nat)
    requires WellFormed(g) && RootsAll(g, r)
    ensures Rooted(g) && |UnionParts(g)| == 1
    ensures forall u: nat :: InIsc(g, u) <==> u < |g.vertices| && Reach(ArcsOf(g.edges), u, r)
  {
    hide Reach, Connected, ArcsOf;
    var es, n := ArcsOf(g.edges), |g.vertices|;
    forall u: nat, v: nat | u < n && v < n ensures Connected(es, u, v) {
      ReachConnected(es, r, u);
      ReachConnected(es, r, v);
      ConnectedTrans(es, u, r, v);
    }
    ComponentsSingle(es, n);
    forall v: nat | v < n ensures HasRoot(es, n, v) {
      assert RootOf(es, n, r, v);
    }
    forall u: nat ensures InIsc(g, u) <==> u < n && Reach(es, u, r) {
      RootSource(g, r, u);
    }
  }

  lemma RootSource(g: Graph, r: nat, u: nat)
    requires WellFormed(g) && RootsAll(g, r)
    ensures InIsc(g, u) <==> u < |g.vertices| && Reach(ArcsOf(g.edges), u, r)
  {
    hide Reach, ArcsOf;
    var es, n := ArcsOf(g.edges), |g.vertices|;
    if u < n && Reach(es, u, r) {
      forall w: nat | Reach(es, w, u) ensures Reach(es, u, w) {
        WellFormedArcs(g);
        ReachRange(es, n, w, u);
        ReachTrans(es, u, r, w);
      }
    }
  }

  ghost predicate LinkSets(n: nat, m: nat, a: set<nat>, b: set<nat>) {
    (forall u :: u in a ==> u < n) && (forall v :: v in b ==> n <= v < n + m)
  }

  lemma LinkedByEdge(g: Graph, h: Graph, a: set<nat>, b: set<nat>, bidirectional: bool, e: Edge)
    requires LinkSets(|g.vertices|, |h.vertices|, a, b) && e in LinkedBy(g, h, a, b, bidirectional).edges
    ensures e in Merge(g, h).edges || (e.src in a && e.dst in b) || (bidirectional && e.src in b && e.dst in a)
  {
    LinkEdge(g.vertices + h.vertices, a, b, bidirectional, e);
  }

  lemma LinkedByWellFormed(g: Graph, h: Graph, a: set<nat>, b: set<nat>, bidirectional: bool)
    requires WellFormed(g) && WellFormed(h) && LinkSets(|g.vertices|, |h.vertices|, a, b)
    ensures WellFormed(LinkedBy(g, h, a, b, bidirectional))
    ensures LinkedBy(g, h, a, b, bidirectional).vertices == g.vertices + h.vertices
  {
    var r := LinkedBy(g, h, a, b, bidirectional);
    MergeWellFormed(g, h);
    assert r.vertices == g.vertices + h.vertices;
    hide LinkedBy, Merge;
    MergeLength(g, h);
    forall e | e in r.edges ensures e.src < |r.vertices| && e.dst < |r.vertices| && e.src != e.dst {
      LinkedByEdge(g, h, a, b, bidirectional, e);
    }
  }

  /** The arcs of a linked graph are those of both sides and the links. */
  lemma LinkedByAdj(g: Graph, h: Graph, a: set<nat>, b: set<nat>, bidirectional: bool, u: nat, v: nat)
    requires LinkSets(|g.vertices|, |h.vertices|, a, b)
    ensures Adj(LinkedBy(g, h, a, b, bidirectional), u, v) <==>
            Adj(Merge(g, h), u, v) || (u in a && v in b) || (bidirectional && u in b && v in a)
  {
    hide Merge, LinkedBy;
    var r := LinkedBy(g, h, a, b, bidirectional);
    if Adj(r, u, v) {
      var e := AdjEdge(r, u, v);
      LinkedByEdge(g, h, a, b, bidirectional, e);
      if e in Merge(g, h).edges {
        EdgeAdj(Merge(g, h), e);
      }
    }
    if Adj(Merge(g, h), u, v) {
      var e := AdjEdge(Merge(g, h), u, v);
      MergedEdge(g, h, a, b, bidirectional, e);
      EdgeAdj(r, e);
    }
    if u in a && v in b {
      LinkAdj(g, h, a, b, bidirectional, u, v, u, v);
    }
    if bidirectional && u in b && v in a {
      LinkAdj(g, h, a, b, bidirectional, v, u, u, v);
    }
  }

  lemma MergedEdge(g: Graph, h: Graph, a: set<nat>, b: set<nat>, bidirectional: bool, e: Edge)
    requires e in Merge(g, h).edges
    ensures e in LinkedBy(g, h, a, b, bidirectional).edges
  {
  }

  lemma LinkAdj(g: Graph, h: Graph, a: set<nat>, b: set<nat>, bidirectional: bool, s: nat, t: nat, u: nat, v: nat)
    requires LinkSets(|g.vertices|, |h.vertices|, a, b) && s in a && t in b
    requires (u == s && v == t) || (bidirectional && u == t && v == s)
    ensures Adj(LinkedBy(g, h, a, b, bidirectional), u, v)
  {
    var vs := g.vertices + h.vertices;
    SomeLabel(vs[s], vs[t]);
    var x :| x in Labels(vs[s], vs[t]);
    LinkEdge(vs, a, b, bidirectional, Edge(u, v, x, false));
    EdgeAdj(LinkedBy(g, h, a, b, bidirectional), Edge(u, v, x, false));
  }

  /** A root of the first side, linked with a root of the second, reaches both. */
  lemma LinkedRoot(g: Graph, h: Graph, a: set<nat>, b: set<nat>, bidirectional: bool, r: nat)
    requires WellFormed(g) && WellFormed(h) && LinkSets(|g.vertices|, |h.vertices|, a, b)
    requires RootsAll(g, r) && r in a
    requires forall v: nat :: v < |h.vertices| ==> LinkReaches(h, |g.vertices|, b, v)
    ensures RootsAll(LinkedBy(g, h, a, b, bidirectional), r)
  {
    hide Reach, ArcsOf, LinkedBy;
    var n, l := |g.vertices|, LinkedBy(g, h, a, b, bidirectional);
    LinkedByWellFormed(g, h, a, b, bidirectional);
    forall w: nat | w < |l.vertices| ensures Reach(ArcsOf(l.edges), r, w) {
      MergeInLinked(g, h, a, b, bidirectional);
      if w < n {
        OnlyLow(g, h, r, w);
        ReachMonotone(ArcsOf(Merge(g, h).edges), ArcsOf(l.edges), r, w);
      } else {
        var v: nat := w - n;
        assert LinkReaches(h, n, b, v);
        var t: nat :| ReachesFrom(h, n, b, t, v);
        LinkedByAdj(g, h, a, b, bidirectional, r, t + n);
        ReachArc(ArcsOf(l.edges), r, t + n);
        OnlyHigh(g, h, t + n, w);
        ReachMonotone(ArcsOf(Merge(g, h).edges), ArcsOf(l.edges), t + n, w);
        ReachTrans(ArcsOf(l.edges), r, t + n, w);
      }
    }
  }

  /** t is linked, and reaches v. */
  ghost predicate ReachesFrom(h: Graph, n: nat, b: set<nat>, t: nat, v: nat) {
    t + n in b && Reach(ArcsOf(h.edges), t, v)
  }

  ghost predicate LinkReaches(h: Graph, n: nat, b: set<nat>, v: nat) {
    exists t: nat :: ReachesFrom(h, n, b, t, v)
  }

  lemma MergeInLinked(g: Graph, h: Graph, a: set<nat>, b: set<nat>, bidirectional: bool)
    requires LinkSets(|g.vertices|, |h.vertices|, a, b)
    ensures ArcsOf(Merge(g, h).edges) <= ArcsOf(LinkedBy(g, h, a, b, bidirectional).edges)
  {
    hide Merge, LinkedBy, ArcsOf;
    forall p: (nat, nat) | p in ArcsOf(Merge(g, h).edges) ensures p in ArcsOf(LinkedBy(g, h, a, b, bidirectional).edges) {
      assert Adj(Merge(g, h), p.0, p.1);
      LinkedByAdj(g, h, a, b, bidirectional, p.0, p.1);
    }
  }

  /** The sources of the first side, and those of the second if the links lead back. */
  ghost predicate SourceOf(g: Graph, h: Graph, bidirectional: bool, u: nat) {
    if u < |g.vertices| then InIsc(g, u) else bidirectional && InIsc(h, u - |g.vertices|)
  }

  /** An arc into a source comes from a source. */
  lemma IntoSource(g: Graph, u: nat, v: nat)
    requires WellFormed(g) && Adj(g, u, v) && InIsc(g, v)
    ensures InIsc(g, u)
  {
    hide Reach;
    var es := ArcsOf(g.edges);
    AdjBelow(g, u, v);
    ReachArc(es, u, v);
    forall w: nat | Reach(es, w, u) ensures Reach(es, u, w) {
      ReachTrans(es, w, u, v);
      ReachTrans(es, u, v, w);
    }
  }

  lemma IntoSourceOf(g: Graph, h: Graph, a: set<nat>, b: set<nat>, bidirectional: bool, u: nat, v: nat)
    requires WellFormed(g) && WellFormed(h) && LinkSets(|g.vertices|, |h.vertices|, a, b)
    requires forall u: nat :: u in a <==> InIsc(g, u)
    requires bidirectional ==> forall v: nat :: v in b ==> InIsc(h, v - |g.vertices|)
    requires Adj(LinkedBy(g, h, a, b, bidirectional), u, v) && SourceOf(g, h, bidirectional, v)
    ensures SourceOf(g, h, bidirectional, u)
  {
    hide IsSource, LinkedBy, Merge, ArcsOf, Adj, WellFormed;
    LinkedByAdj(g, h, a, b, bidirectional, u, v);
    if Adj(Merge(g, h), u, v) {
      MergeAdj(g, h, u, v);
      if u < |g.vertices| {
        AdjBelow(g, u, v);
        IntoSource(g, u, v);
      } else {
        IntoSource(h, u - |g.vertices|, v - |g.vertices|);
      }
    }
  }

  /** After linking, the sources are those of the first side, and those of the second if the links lead back. */
  lemma LinkedIsc(g: Graph, h: Graph, a: set<nat>, b: set<nat>, bidirectional: bool, r: nat, u: nat)
    requires WellFormed(g) && WellFormed(h) && LinkSets(|g.vertices|, |h.vertices|, a, b)
    requires forall u: nat :: u in a <==> InIsc(g, u)
    requires bidirectional ==> forall v: nat :: v < |h.vertices| ==> (v + |g.vertices| in b <==> InIsc(h, v))
    requires RootsAll(g, r) && r in a && RootsAll(LinkedBy(g, h, a, b, bidirectional), r)
    requires u < |g.vertices| + |h.vertices|
    ensures InIsc(LinkedBy(g, h, a, b, bidirectional), u) <==> SourceOf(g, h, bidirectional, u)
  {
    hide IsSource, LinkedBy, Merge, ArcsOf, Adj, Reach, WellFormed;
    var l := LinkedBy(g, h, a, b, bidirectional);
    LinkedByWellFormed(g, h, a, b, bidirectional);
    RootsAllRooted(l, r);
    BackLinks(g, h, b, bidirectional);
    if SourceOf(g, h, bidirectional, u) {
      SourceReachesRoot(g, h, a, b, bidirectional, r, u);
    }
    if !SourceOf(g, h, bidirectional, u) && Reach(ArcsOf(l.edges), u, r) {
      NonSourceStays(g, h, a, b, bidirectional, u, r);
    }
  }

  lemma BackLinks(g: Graph, h: Graph, b: set<nat>, bidirectional: bool)
    requires forall v :: v in b ==> |g.vertices| <= v < |g.vertices| + |h.vertices|
    requires bidirectional ==> forall v: nat :: v < |h.vertices| ==> (v + |g.vertices| in b <==> InIsc(h, v))
    ensures bidirectional ==> forall v: nat :: v in b ==> InIsc(h, v - |g.vertices|)
  {
    hide IsSource;
    if bidirectional {
      forall v: nat | v in b ensures InIsc(h, v - |g.vertices|) {
        assert v - |g.vertices| + |g.vertices| in b;
      }
    }
  }

  lemma SourceReachesRoot(g: Graph, h: Graph, a: set<nat>, b: set<nat>, bidirectional: bool, r: nat, u: nat)
    requires WellFormed(g) && WellFormed(h) && LinkSets(|g.vertices|, |h.vertices|, a, b)
    requires bidirectional ==> forall v: nat :: v < |h.vertices| ==> (v + |g.vertices| in b <==> InIsc(h, v))
    requires RootsAll(g, r) && r in a && SourceOf(g, h, bidirectional, u)
    ensures Reach(ArcsOf(LinkedBy(g, h, a, b, bidirectional).edges), u, r)
  {
    hide LinkedBy, Merge, ArcsOf, Reach;
    var l := LinkedBy(g, h, a, b, bidirectional);
    if u < |g.vertices| {
      assert Reach(ArcsOf(g.edges), r, u);
      assert Reach(ArcsOf(g.edges), u, r);
      OnlyLow(g, h, u, r);
      MergeInLinked(g, h, a, b, bidirectional);
      ReachMonotone(ArcsOf(Merge(g, h).edges), ArcsOf(l.edges), u, r);
    } else {
      assert u - |g.vertices| + |g.vertices| in b;
      LinkedByAdj(g, h, a, b, bidirectional, u, r);
      ReachArc(ArcsOf(l.edges), u, r);
    }
  }

  lemma NonSourceStays(g: Graph, h: Graph, a: set<nat>, b: set<nat>, bidirectional: bool, u: nat, r: nat)
    requires WellFormed(g) && WellFormed(h) && LinkSets(|g.vertices|, |h.vertices|, a, b)
    requires forall u: nat :: u in a <==> InIsc(g, u)
    requires bidirectional ==> forall v: nat :: v in b ==> InIsc(h, v - |g.vertices|)
    requires !SourceOf(g, h, bidirectional, u) && u < |g.vertices| + |h.vertices|
    requires Reach(ArcsOf(LinkedBy(g, h, a, b, bidirectional).edges), u, r)
    ensures !SourceOf(g, h, bidirectional, r)
  {
    hide IsSource, LinkedBy, Merge, ArcsOf, Reach, WellFormed;
    var l := LinkedBy(g, h, a, b, bidirectional);
    LinkedByWellFormed(g, h, a, b, bidirectional);
    var others := set w | w in Below(|l.vertices|) && !SourceOf(g, h, bidirectional, w);
    forall s: nat, t: nat | s in others && (s, t) in ArcsOf(l.edges) ensures t in others {
      AdjBelow(l, s, t);
      if SourceOf(g, h, bidirectional, t) {
        IntoSourceOf(g, h, a, b, bidirectional, s, t);
      }
    }
    ClosedReach(ArcsOf(l.edges), others, u, r);
  }

  /* ---------- the sources of every union component ---------- */

  /** The vertices at the listed positions that are sources. */
  ghost function SourceVertices(g: Graph, part: seq<nat>): seq<Vertex>
    requires Indices(part, |g.vertices|)
  {
    if part == [] then []
    else SourceVertices(g, Init(part)) + (if InIsc(g, Last(part)) then [g.vertices[Last(part)]] else [])
  }

  /** The independent strong component of every union component. */
  ghost function SourceBranches(g: Graph): (r: seq<seq<Vertex>>)
    ensures |r| == |UnionParts(g)|
    ensures forall i :: 0 <= i < |r| ==> Indices(UnionParts(g)[i], |g.vertices|) && r[i] == SourceVertices(g, UnionParts(g)[i])
  {
    forall i | 0 <= i < |UnionParts(g)| ensures Indices(UnionParts(g)[i], |g.vertices|) { PartShape(g, UnionParts(g)[i]); }
    seq(|UnionParts(g)|, i requires 0 <= i < |UnionParts(g)| => SourceVertices(g, UnionParts(g)[i]))
  }

  lemma {:induction false} SourceVerticesSame(g: Graph, h: Graph, p: seq<nat>, q: seq<nat>)
    requires Indices(p, |g.vertices|) && Indices(q, |h.vertices|) && |p| == |q|
    requires forall i :: 0 <= i < |p| ==> g.vertices[p[i]] == h.vertices[q[i]] && (InIsc(g, p[i]) <==> InIsc(h, q[i]))
    ensures SourceVertices(g, p) == SourceVertices(h, q)
    decreases |p|
  {
    hide InIsc;
    if p != [] {
      SourceVerticesSame(g, h, Init(p), Init(q));
      assert p[|p| - 1] == Last(p) && q[|p| - 1] == Last(q);
    }
  }

  lemma {:induction false} SourceVerticesAppend(g: Graph, p: seq<nat>, q: seq<nat>)
    requires Indices(p + q, |g.vertices|)
    ensures Indices(p, |g.vertices|) && Indices(q, |g.vertices|)
    ensures SourceVertices(g, p + q) == SourceVertices(g, p) + SourceVertices(g, q)
    decreases |q|
  {
    hide *;
    IndicesParts(p, q, |g.vertices|);
    if q == [] {
      NoSources(g);
    } else {
      AppendInit(p, q, |g.vertices|);
      SourceVerticesAppend(g, p, Init(q));
      LastSource(g, p + q);
      LastSource(g, q);
    }
  }

  lemma IndicesParts(p: seq<nat>, q: seq<nat>, n: nat)
    requires Indices(p + q, n)
    ensures Indices(p, n) && Indices(q, n) && (q == [] ==> p + q == p)
  {
    assert forall i :: 0 <= i < |p| ==> (p + q)[i] == p[i];
    assert forall i :: 0 <= i < |q| ==> (p + q)[|p| + i] == q[i];
  }

  lemma AppendInit(p: seq<nat>, q: seq<nat>, n: nat)
    requires q != [] && Indices(p + q, n)
    ensures Indices(p + Init(q), n) && p + q != [] && Init(p + q) == p + Init(q) && Last(p + q) == Last(q)
  {
    assert forall i :: 0 <= i < |p + Init(q)| ==> (p + Init(q))[i] == (p + q)[i];
  }

  lemma NoSources(g: Graph)
    ensures SourceVertices(g, []) == []
  {
  }

  lemma LastSource(g: Graph, p: seq<nat>)
    requires Indices(p, |g.vertices|) && p != []
    ensures Last(p) < |g.vertices| && Indices(Init(p), |g.vertices|)
    ensures SourceVertices(g, p)
         == SourceVertices(g, Init(p)) + (if InIsc(g, Last(p)) then [g.vertices[Last(p)]] else [])
  {
    hide InIsc;
  }

  lemma {:induction false} NoSourceVertices(g: Graph, p: seq<nat>)
    requires Indices(p, |g.vertices|) && forall i :: 0 <= i < |p| ==> !InIsc(g, p[i])
    ensures SourceVertices(g, p) == []
    decreases |p|
  {
    hide InIsc;
    if p != [] {
      NoSourceVertices(g, Init(p));
      assert p[|p| - 1] == Last(p);
    }
  }

  /** Merged graphs have the sources of both. */
  lemma MergeSourceBranches(g: Graph, h: Graph)
    requires WellFormed(g) && WellFormed(h)
    ensures SourceBranches(Merge(g, h)) == SourceBranches(g) + SourceBranches(h)
  {
    hide UnionParts, Merge, WellFormed, InIsc, SourceVertices;
    MergeParts(g, h);
    var r, n := SourceBranches(Merge(g, h)), |UnionParts(g)|;
    forall i | 0 <= i < |r| ensures r[i] == (SourceBranches(g) + SourceBranches(h))[i] {
      if i < n {
        PartAt(g, i);
        LowSourceVertices(g, h, UnionParts(g)[i]);
      } else {
        PartAt(h, i - n);
        HighSourceVertices(g, h, UnionParts(h)[i - n]);
      }
    }
  }

  lemma PartAt(g: Graph, i: nat)
    requires i < |UnionParts(g)|
    ensures Indices(UnionParts(g)[i], |g.vertices|) && Increasing(UnionParts(g)[i]) && UnionParts(g)[i] in UnionParts(g)
  {
    hide UnionParts, Increasing;
    PartShape(g, UnionParts(g)[i]);
  }

  lemma LowSourceVertices(g: Graph, h: Graph, p: seq<nat>)
    requires WellFormed(g) && WellFormed(h) && Indices(p, |g.vertices|)
    ensures Indices(p, |Merge(g, h).vertices|) && SourceVertices(Merge(g, h), p) == SourceVertices(g, p)
  {
    hide InIsc, WellFormed;
    forall i | 0 <= i < |p| ensures InIsc(Merge(g, h), p[i]) <==> InIsc(g, p[i]) {
      MergeIsc(g, h, p[i]);
    }
    SourceVerticesSame(Merge(g, h), g, p, p);
  }

  lemma HighSourceVertices(g: Graph, h: Graph, p: seq<nat>)
    requires WellFormed(g) && WellFormed(h) && Indices(p, |h.vertices|)
    ensures Indices(Shifted(p, |g.vertices|), |Merge(g, h).vertices|)
    ensures SourceVertices(Merge(g, h), Shifted(p, |g.vertices|)) == SourceVertices(h, p)
  {
    hide InIsc, WellFormed;
    var n, q := |g.vertices|, Shifted(p, |g.vertices|);
    forall i | 0 <= i < |p| ensures InIsc(Merge(g, h), q[i]) <==> InIsc(h, p[i]) {
      MergeIsc(g, h, p[i] + n);
    }
    SourceVerticesSame(Merge(g, h), h, q, p);
  }

  /** A connected graph is one branch. */
  lemma OnePart(g: Graph)
    requires g.vertices != [] && |UnionParts(g)| == 1
    ensures UnionParts(g) == [Range(|g.vertices|)]
    ensures Branches(g) == [g.vertices] && SourceBranches(g) == [SourceVertices(g, Range(|g.vertices|))]
  {
    hide Connected, InIsc, SourceVertices;
    var n, c := |g.vertices|, UnionParts(g)[0];
    PartShape(g, c);
    forall v: nat | v < n ensures v in c {
      var d := ComponentsCover(ArcsOf(g.edges), n, v);
    }
    ComponentShape(ArcsOf(g.edges), n, c);
    IncreasingUnique(c, Range(n));
    PickAll(g.vertices);
  }

  lemma RangeSplit(n: nat, m: nat)
    ensures Range(n + m) == Range(n) + Shifted(Range(m), n)
  {
  }

  /** The sources of a union component alone. */
  lemma PartSourceVertices(g: Graph, part: seq<nat>)
    requires Rooted(g) && part in UnionParts(g)
    ensures Indices(part, |g.vertices|) && Induced(g, part).vertices == Pick(g.vertices, part)
    ensures SourceVertices(Induced(g, part), Range(|part|)) == SourceVertices(g, part)
  {
    hide InIsc, WellFormed, UnionParts;
    PartRooted(g, part);
    var h := Induced(g, part);
    assert forall i :: 0 <= i < |part| ==> Range(|part|)[i] == i && h.vertices[i] == g.vertices[part[i]];
    hide Induced;
    SourceVerticesSame(h, g, Range(|part|), part);
  }

  /** The branch of two linked graphs, and its sources. */
  lemma LinkedSources(g: Graph, h: Graph, a: set<nat>, b: set<nat>, bidirectional: bool, r: nat)
    requires WellFormed(g) && WellFormed(h) && LinkSets(|g.vertices|, |h.vertices|, a, b)
    requires forall u: nat :: u in a <==> InIsc(g, u)
    requires bidirectional ==> forall v: nat :: v < |h.vertices| ==> (v + |g.vertices| in b <==> InIsc(h, v))
    requires RootsAll(g, r) && r in a && RootsAll(LinkedBy(g, h, a, b, bidirectional), r)
    ensures var l := LinkedBy(g, h, a, b, bidirectional);
            && Rooted(l) && Branches(l) == [g.vertices + h.vertices]
            && SourceBranches(l) == [SourceVertices(g, Range(|g.vertices|))
                                     + if bidirectional then SourceVertices(h, Range(|h.vertices|)) else []]
  {
    hide RootsAll, InIsc, LinkedBy, WellFormed, SourceVertices;
    var l, n, m := LinkedBy(g, h, a, b, bidirectional), |g.vertices|, |h.vertices|;
    LinkedByWellFormed(g, h, a, b, bidirectional);
    RootsAllRooted(l, r);
    RootsSome(l, r);
    OnePart(l);
    RangeSplit(n, m);
    SourceVerticesAppend(l, Range(n), Shifted(Range(m), n));
    forall u: nat | u < n + m ensures InIsc(l, u) <==> SourceOf(g, h, bidirectional, u) {
      LinkedIsc(g, h, a, b, bidirectional, r, u);
    }
    LinkedLow(g, h, l, bidirectional);
    LinkedHigh(g, h, l, bidirectional);
  }

  lemma RootsSome(g: Graph, r: nat)
    requires RootsAll(g, r)
    ensures g.vertices != []
  {
  }

  lemma LinkedLow(g: Graph, h: Graph, l: Graph, bidirectional: bool)
    requires l.vertices == g.vertices + h.vertices
    requires forall u: nat :: u < |l.vertices| ==> (InIsc(l, u) <==> SourceOf(g, h, bidirectional, u))
    ensures SourceVertices(l, Range(|g.vertices|)) == SourceVertices(g, Range(|g.vertices|))
  {
    hide InIsc;
    SourceVerticesSame(l, g, Range(|g.vertices|), Range(|g.vertices|));
  }

  lemma LinkedHigh(g: Graph, h: Graph, l: Graph, bidirectional: bool)
    requires l.vertices == g.vertices + h.vertices
    requires forall u: nat :: u < |l.vertices| ==> (InIsc(l, u) <==> SourceOf(g, h, bidirectional, u))
    ensures SourceVertices(l, Shifted(Range(|h.vertices|), |g.vertices|))
         == if bidirectional then SourceVertices(h, Range(|h.vertices|)) else []
  {
    hide InIsc, SourceVertices, Range, Shifted;
    var n, m := |g.vertices|, |h.vertices|;
    var p, q := Range(m), Shifted(Range(m), n);
    forall i | 0 <= i < |q| ensures q[i] == p[i] + n && p[i] == i && l.vertices[q[i]] == h.vertices[p[i]] {
    }
    forall i | 0 <= i < |q| ensures InIsc(l, q[i]) <==> bidirectional && InIsc(h, p[i]) {
      assert SourceOf(g, h, bidirectional, q[i]) <==> bidirectional && InIsc(h, p[i]);
    }
    if bidirectional {
      SourceVerticesSame(l, h, q, p);
    } else {
      NoSourceVertices(l, q);
    }
  }

  /* ---------- linking two union components ---------- */

  ghost function Sources(g: Graph): (s: set<nat>)
    ensures forall u: nat :: u in s <==> InIsc(g, u)
  {
    set u | u in Below(|g.vertices|) && InIsc(g, u)
  }

  ghost function ShiftSet(s: set<nat>, n: nat): (r: set<nat>)
    ensures forall v: nat :: v in r <==> v >= n && v - n in s
  {
    set u | u in s :: u + n
  }

  /** Two graphs with dependencies between the sources of both. */
  ghost function SourcesLinked(g: Graph, h: Graph): Graph {
    LinkedBy(g, h, Sources(g), ShiftSet(Sources(h), |g.vertices|), true)
  }

  lemma SourcesLinkSets(g: Graph, h: Graph, b: set<nat>)
    requires forall t :: t in b ==> t < |h.vertices|
    ensures LinkSets(|g.vertices|, |h.vertices|, Sources(g), ShiftSet(b, |g.vertices|))
  {
  }

  lemma PartRoot(g: Graph, part: seq<nat>) returns (r: nat)
    requires Rooted(g) && part in UnionParts(g)
    ensures Indices(part, |g.vertices|) && r in Sources(Induced(g, part)) && RootsAll(Induced(g, part), r)
  {
    hide UnionParts, Reach, Induced, ArcsOf, IsSource;
    PartRooted(g, part);
    r :| InIsc(Induced(g, part), r);
  }

  /** Linking two union components makes one, and their sources are its sources. */
  lemma SourcesLinkedBranch(first: Graph, p: seq<nat>, second: Graph, q: seq<nat>)
    requires Rooted(first) && p in UnionParts(first) && Rooted(second) && q in UnionParts(second)
    ensures Indices(p, |first.vertices|) && Indices(q, |second.vertices|)
    ensures var l := SourcesLinked(Induced(first, p), Induced(second, q));
            && Rooted(l) && Branches(l) == [Pick(first.vertices, p) + Pick(second.vertices, q)]
            && SourceBranches(l) == [SourceVertices(first, p) + SourceVertices(second, q)]
  {
    hide RootsAll, InIsc, LinkedBy, WellFormed, SourceVertices, UnionParts, Sources, ShiftSet, Induced, LinkSets, Rooted;
    PartSourceVertices(first, p);
    PartSourceVertices(second, q);
    PartRooted(first, p);
    PartRooted(second, q);
    var r := PartRoot(first, p);
    var s := PartRoot(second, q);
    LinkedBySources(Induced(first, p), Induced(second, q), r, s);
  }

  lemma LinkedBySources(g: Graph, h: Graph, r: nat, s: nat)
    requires WellFormed(g) && WellFormed(h) && RootsAll(g, r) && r in Sources(g) && RootsAll(h, s) && s in Sources(h)
    ensures var l := SourcesLinked(g, h);
            && Rooted(l) && Branches(l) == [g.vertices + h.vertices]
            && SourceBranches(l) == [SourceVertices(g, Range(|g.vertices|)) + SourceVertices(h, Range(|h.vertices|))]
  {
    hide InIsc, LinkedBy, WellFormed, SourceVertices, Sources, ShiftSet, LinkSets, Rooted, Reach, ArcsOf;
    var a, b := Sources(g), ShiftSet(Sources(h), |g.vertices|);
    SourcesBelow(h);
    SourcesLinkSets(g, h, Sources(h));
    forall v: nat | v < |h.vertices| ensures LinkReaches(h, |g.vertices|, b, v) {
      assert s + |g.vertices| - |g.vertices| in Sources(h);
      assert ReachesFrom(h, |g.vertices|, b, s, v);
    }
    LinkedRoot(g, h, a, b, true, r);
    forall v: nat | v < |h.vertices| ensures v + |g.vertices| in b <==> InIsc(h, v) {
      assert v + |g.vertices| - |g.vertices| == v;
    }
    LinkedSources(g, h, a, b, true, r);
  }

  lemma SourcesBelow(g: Graph)
    ensures forall t :: t in Sources(g) ==> t < |g.vertices|
  {
  }
}
