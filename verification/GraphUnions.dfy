/**
 Graphs side by side: the union components of the merged graph are those of both.
 */
module GraphUnions {
  import opened Reachability
  import opened Graphs
  import opened GraphBuilder

  /* ---------- components of graphs side by side ---------- */

  function ShiftArcs(es: Arcs, n: nat): Arcs {
    set a | a in es :: (a.0 + n, a.1 + n)
  }

  function Shifted(p: seq<nat>, n: nat): (r: seq<nat>)
    ensures |r| == |p| && forall i :: 0 <= i < |p| ==> r[i] == p[i] + n
  {
    seq(|p|, i requires 0 <= i < |p| => p[i] + n)
  }

  function ShiftParts(parts: seq<seq<nat>>, n: nat): (r: seq<seq<nat>>)
    ensures |r| == |parts| && forall i :: 0 <= i < |parts| ==> r[i] == Shifted(parts[i], n)
  {
    seq(|parts|, i requires 0 <= i < |parts| => Shifted(parts[i], n))
  }

  ghost predicate SideBySide(a: Arcs, b: Arcs, es: Arcs, n: nat, m: nat) {
    WithinRange(a, n) && WithinRange(b, m) && es == a + ShiftArcs(b, n)
  }

  lemma UndirectedHas(es: Arcs, u: nat, v: nat)
    ensures (u, v) in Undirected(es) <==> (u, v) in es || (v, u) in es
  {
    if (v, u) in es {
      assert ((v, u).1, (v, u).0) == (u, v);
    }
  }

  lemma ShiftHas(es: Arcs, n: nat, u: nat, v: nat)
    ensures (u, v) in ShiftArcs(es, n) <==> u >= n && v >= n && (u - n, v - n) in es
  {
    if u >= n && v >= n && (u - n, v - n) in es {
      assert ((u - n, v - n).0 + n, (u - n, v - n).1 + n) == (u, v);
    }
  }

  lemma SideArc(a: Arcs, b: Arcs, es: Arcs, n: nat, m: nat, u: nat, v: nat)
    requires SideBySide(a, b, es, n, m)
    ensures (u, v) in Undirected(es) <==>
            (u, v) in Undirected(a) || (u >= n && v >= n && (u - n, v - n) in Undirected(b))
    ensures (u, v) in Undirected(a) ==> u < n && v < n
    ensures u >= n && v >= n && (u - n, v - n) in Undirected(b) ==> u < n + m && v < n + m
  {
    hide Undirected, ShiftArcs;
    UndirectedHas(es, u, v);
    UndirectedHas(a, u, v);
    ShiftHas(b, n, u, v);
    ShiftHas(b, n, v, u);
    if u >= n && v >= n {
      UndirectedHas(b, u - n, v - n);
    }
  }

  lemma ConnectedLow(a: Arcs, b: Arcs, es: Arcs, n: nat, m: nat, u: nat, v: nat)
    requires SideBySide(a, b, es, n, m) && u < n
    ensures Connected(es, u, v) <==> v < n && Connected(a, u, v)
  {
    hide Undirected, SideBySide;
    if Connected(es, u, v) {
      ReachRefl(Undirected(a), u);
      var side := set w | w in Below(n) && Connected(a, u, w);
      forall s, t | s in side && (s, t) in Undirected(es) ensures t in side {
        SideArc(a, b, es, n, m, s, t);
        ReachStep(Undirected(a), u, s, t);
      }
      ClosedReach(Undirected(es), side, u, v);
    }
    if v < n && Connected(a, u, v) {
      forall s: nat, t: nat | (s, t) in Undirected(a) ensures (s, t) in Undirected(es) { SideArc(a, b, es, n, m, s, t); }
      assert forall p :: p in Undirected(a) ==> (p.0, p.1) == p;
      ReachMonotone(Undirected(a), Undirected(es), u, v);
    }
  }

  /** w lies above n, connected to u above n. */
  ghost predicate Above(b: Arcs, n: nat, u: nat, w: nat) {
    n <= u && n <= w && Connected(b, u - n, w - n)
  }

  ghost predicate ReachesShifted(es: Arcs, n: nat, u: nat, w: nat) {
    Connected(es, u, w + n)
  }

  lemma ConnectedHigh(a: Arcs, b: Arcs, es: Arcs, n: nat, m: nat, u: nat, v: nat)
    requires SideBySide(a, b, es, n, m) && n <= u < n + m
    ensures Connected(es, u, v) <==> Above(b, n, u, v)
  {
    hide Undirected, SideBySide;
    if Connected(es, u, v) {
      ReachRefl(Undirected(b), u - n);
      var side := set w | w in Below(n + m) && Above(b, n, u, w);
      assert Above(b, n, u, u) && u in side;
      forall s: nat, t: nat | s in side && (s, t) in Undirected(es) ensures t in side {
        SideArc(a, b, es, n, m, s, t);
        ReachStep(Undirected(b), u - n, s - n, t - n);
      }
      ClosedReach(Undirected(es), side, u, v);
    }
    if Above(b, n, u, v) {
      HighBack(a, b, es, n, m, u, v);
    }
  }

  lemma HighBack(a: Arcs, b: Arcs, es: Arcs, n: nat, m: nat, u: nat, v: nat)
    requires SideBySide(a, b, es, n, m) && n <= u < n + m && Above(b, n, u, v)
    ensures Connected(es, u, v)
  {
    hide Undirected, SideBySide;
    ReachRefl(Undirected(es), u);
    var side := set w | w in Below(m) && ReachesShifted(es, n, u, w);
    assert ReachesShifted(es, n, u, u - n);
    forall s: nat, t: nat | s in side && (s, t) in Undirected(b) ensures t in side {
      SideArc(a, b, es, n, m, s + n, t + n);
      assert (s + n - n, t + n - n) == (s, t);
      ReachStep(Undirected(es), u, s + n, t + n);
    }
    ClosedReach(Undirected(b), side, u - n, v - n);
  }

  lemma ComponentLow(a: Arcs, b: Arcs, es: Arcs, n: nat, m: nat, r: nat)
    requires SideBySide(a, b, es, n, m) && r < n
    ensures IsFirst(es, r) <==> IsFirst(a, r)
    ensures ComponentOf(es, n + m, r) == ComponentOf(a, n, r)
  {
    hide SideBySide, Connected;
    forall v: nat ensures Connected(es, r, v) <==> v < n && Connected(a, r, v) { ConnectedLow(a, b, es, n, m, r, v); }
    IncreasingUnique(ComponentOf(es, n + m, r), ComponentOf(a, n, r));
  }

  lemma ShiftedIncreasing(p: seq<nat>, n: nat)
    requires Increasing(p)
    ensures Increasing(Shifted(p, n))
    ensures forall v: nat :: v in Shifted(p, n) <==> v >= n && v - n in p
  {
    forall v: nat | v >= n && v - n in p ensures v in Shifted(p, n) {
      var i :| 0 <= i < |p| && p[i] == v - n;
      assert Shifted(p, n)[i] == v;
    }
  }

  lemma ComponentHigh(a: Arcs, b: Arcs, es: Arcs, n: nat, m: nat, r: nat)
    requires SideBySide(a, b, es, n, m) && n <= r < n + m
    ensures IsFirst(es, r) <==> IsFirst(b, r - n)
    ensures ComponentOf(es, n + m, r) == Shifted(ComponentOf(b, m, r - n), n)
  {
    hide SideBySide, Connected;
    forall v: nat ensures Connected(es, r, v) <==> n <= v && Connected(b, r - n, v - n) { ConnectedHigh(a, b, es, n, m, r, v); }
    FirstHigh(es, b, n, r);
    ShiftedIncreasing(ComponentOf(b, m, r - n), n);
    IncreasingUnique(ComponentOf(es, n + m, r), Shifted(ComponentOf(b, m, r - n), n));
  }

  lemma FirstHigh(es: Arcs, b: Arcs, n: nat, r: nat)
    requires n <= r
    requires forall v: nat :: Connected(es, r, v) <==> n <= v && Connected(b, r - n, v - n)
    ensures IsFirst(es, r) <==> IsFirst(b, r - n)
  {
    hide Connected;
    if IsFirst(es, r) {
      var q: nat := r - n;
      forall v: nat | v < q ensures !Connected(b, q, v) {
        assert !Connected(es, r, v + n);
        assert v + n - n == v;
      }
    }
    if IsFirst(b, r - n) {
      forall v: nat | v < r ensures !Connected(es, r, v) {
        assert n <= v ==> !Connected(b, r - n, v - n);
      }
    }
  }

  lemma {:induction false} ComponentsLow(a: Arcs, b: Arcs, es: Arcs, n: nat, m: nat, k: nat)
    requires SideBySide(a, b, es, n, m) && k <= n
    ensures ComponentsBelow(es, n + m, k) == ComponentsBelow(a, n, k)
  {
    hide SideBySide, IsFirst;
    if k > 0 {
      ComponentsLow(a, b, es, n, m, k - 1);
      ComponentLow(a, b, es, n, m, k - 1);
    }
  }

  lemma {:induction false} ComponentsHigh(a: Arcs, b: Arcs, es: Arcs, n: nat, m: nat, k: nat)
    requires SideBySide(a, b, es, n, m) && k <= m
    ensures ComponentsBelow(es, n + m, n + k) == Components(a, n) + ShiftParts(ComponentsBelow(b, m, k), n)
  {
    hide SideBySide, IsFirst;
    if k == 0 {
      ComponentsLow(a, b, es, n, m, n);
      assert ComponentsBelow(b, m, 0) == [];
    } else {
      ComponentsHigh(a, b, es, n, m, k - 1);
      ComponentHigh(a, b, es, n, m, n + k - 1);
    }
  }

  /** The components of two graphs side by side are those of the first and then those of the second. */
  lemma MergeParts(g: Graph, h: Graph)
    requires WellFormed(g) && WellFormed(h)
    ensures UnionParts(Merge(g, h)) == UnionParts(g) + ShiftParts(UnionParts(h), |g.vertices|)
  {
    hide ArcsOf, WellFormed, Merge;
    MergeSides(g, h);
    ComponentsHigh(ArcsOf(g.edges), ArcsOf(h.edges), ArcsOf(Merge(g, h).edges), |g.vertices|, |h.vertices|, |h.vertices|);
  }

  lemma MergeSides(g: Graph, h: Graph)
    requires WellFormed(g) && WellFormed(h)
    ensures SideBySide(ArcsOf(g.edges), ArcsOf(h.edges), ArcsOf(Merge(g, h).edges), |g.vertices|, |h.vertices|)
  {
    var n, m := |g.vertices|, |h.vertices|;
    var a, b, es := ArcsOf(g.edges), ArcsOf(h.edges), ArcsOf(Merge(g, h).edges);
    WellFormedArcs(g);
    WellFormedArcs(h);
    hide ArcsOf, ShiftArcs, Merge, WellFormed;
    forall p: (nat, nat) ensures p in es <==> p in a + ShiftArcs(b, n) {
      MergeArc(g, h, p.0, p.1);
    }
  }

  lemma MergeArc(g: Graph, h: Graph, u: nat, v: nat)
    requires WellFormed(g) && WellFormed(h)
    ensures (u, v) in ArcsOf(Merge(g, h).edges) <==>
            (u, v) in ArcsOf(g.edges) + ShiftArcs(ArcsOf(h.edges), |g.vertices|)
  {
    hide ArcsOf, ShiftArcs, Merge;
    MergeAdj(g, h, u, v);
    ShiftHas(ArcsOf(h.edges), |g.vertices|, u, v);
    if Adj(g, u, v) {
      AdjBelow(g, u, v);
    }
  }

  /* ---------- the components as lists of vertices ---------- */

  /** The vertices of every union component. */
  ghost function Branches(g: Graph): (r: seq<seq<Vertex>>)
    ensures |r| == |UnionParts(g)|
    ensures forall i :: 0 <= i < |r| ==> Indices(UnionParts(g)[i], |g.vertices|) && r[i] == Pick(g.vertices, UnionParts(g)[i])
  {
    forall i | 0 <= i < |UnionParts(g)| ensures Indices(UnionParts(g)[i], |g.vertices|) { PartShape(g, UnionParts(g)[i]); }
    seq(|UnionParts(g)|, i requires 0 <= i < |UnionParts(g)| => Pick(g.vertices, UnionParts(g)[i]))
  }

  lemma ShiftedPick<T>(s: seq<T>, t: seq<T>, p: seq<nat>)
    requires Indices(p, |t|)
    ensures Indices(Shifted(p, |s|), |s + t|) && Pick(s + t, Shifted(p, |s|)) == Pick(t, p)
  {
    var q := Shifted(p, |s|);
    forall i | 0 <= i < |p| ensures q[i] < |s + t| && (s + t)[q[i]] == t[p[i]] {
    }
    hide Pick, Shifted;
    assert forall i :: 0 <= i < |p| ==> Pick(s + t, q)[i] == Pick(t, p)[i];
  }

  lemma FrontPick<T>(s: seq<T>, t: seq<T>, p: seq<nat>)
    requires Indices(p, |s|)
    ensures Indices(p, |s + t|) && Pick(s + t, p) == Pick(s, p)
  {
  }

  /** A union has the branches of both sides. */
  lemma MergeBranches(g: Graph, h: Graph)
    requires WellFormed(g) && WellFormed(h)
    ensures Branches(Merge(g, h)) == Branches(g) + Branches(h)
  {
    hide UnionParts, Merge, WellFormed, Pick;
    MergeParts(g, h);
    var r := Branches(Merge(g, h));
    var n := |Branches(g)|;
    forall i | 0 <= i < |r| ensures r[i] == (Branches(g) + Branches(h))[i] {
      if i < n {
        assert UnionParts(g)[i] in UnionParts(g);
        PartShape(g, UnionParts(g)[i]);
        FrontPick(g.vertices, h.vertices, UnionParts(g)[i]);
      } else {
        assert UnionParts(h)[i - n] in UnionParts(h);
        PartShape(h, UnionParts(h)[i - n]);
        ShiftedPick(g.vertices, h.vertices, UnionParts(h)[i - n]);
      }
    }
  }

  lemma CliqueBranches(g: Graph)
    requires Clique(g) && g.vertices != []
    ensures Branches(g) == [g.vertices]
  {
    CliqueParts(g);
    PickAll(g.vertices);
  }

  lemma NoBranches()
    ensures Branches(EMPTY_GRAPH) == []
  {
  }

  /* ---------- the components hold every vertex once ---------- */

  ghost function TotalLength<T>(lists: seq<seq<T>>): nat {
    if lists == [] then 0 else TotalLength(Init(lists)) + |Last(lists)|
  }

  lemma {:induction false} TotalLengthAppend<T>(a: seq<seq<T>>, b: seq<seq<T>>)
    ensures TotalLength(a + b) == TotalLength(a) + TotalLength(b)
  {
    if b == [] {
      assert a + b == a;
    } else {
      TotalLengthAppend(a, Init(b));
      assert Init(a + b) == a + Init(b) && Last(a + b) == Last(b);
    }
  }

  lemma {:induction false} TotalLengthSame<T, U>(a: seq<seq<T>>, b: seq<seq<U>>)
    requires |a| == |b| && forall i :: 0 <= i < |a| ==> |a[i]| == |b[i]|
    ensures TotalLength(a) == TotalLength(b)
  {
    if a != [] {
      TotalLengthSame(Init(a), Init(b));
    }
  }

  lemma {:induction false} IncreasingSize(p: seq<nat>)
    requires Increasing(p)
    ensures |Elements(p)| == |p|
  {
    if p != [] {
      IncreasingSize(Init(p));
      assert Elements(p) == Elements(Init(p)) + {Last(p)};
      forall i | 0 <= i < |p| - 1 ensures Init(p)[i] != Last(p) {
        assert p[i] < Last(p);
      }
    }
  }

  /** The vertices of the first parts. */
  ghost function Held(parts: seq<seq<nat>>, n: nat): (s: set<nat>)
    requires n <= |parts|
    ensures forall v :: v in s <==> exists i :: 0 <= i < n && v in parts[i]
  {
    if n == 0 then {} else Held(parts, n - 1) + Elements(parts[n - 1])
  }

  lemma {:induction false} HeldSize(g: Graph, n: nat)
    requires n <= |UnionParts(g)|
    ensures |Held(UnionParts(g), n)| == TotalLength(UnionParts(g)[..n])
  {
    var parts := UnionParts(g);
    hide Components, ArcsOf;
    if n > 0 {
      HeldSize(g, n - 1);
      assert Init(parts[..n]) == parts[..n - 1] && Last(parts[..n]) == parts[n - 1];
      PartShape(g, parts[n - 1]);
      IncreasingSize(parts[n - 1]);
      HeldApart(g, n);
    }
  }

  lemma HeldApart(g: Graph, n: nat)
    requires 0 < n <= |UnionParts(g)|
    ensures Held(UnionParts(g), n - 1) !! Elements(UnionParts(g)[n - 1])
  {
    var parts := UnionParts(g);
    hide Components, ArcsOf;
    var before, last := Held(parts, n - 1), Elements(parts[n - 1]);
    forall v: nat | v in before ensures v !in last {
      var i :| 0 <= i < n - 1 && v in parts[i];
      ComponentsDisjoint(ArcsOf(g.edges), |g.vertices|, i, n - 1, v);
    }
  }

  lemma HeldAll(g: Graph)
    ensures Held(UnionParts(g), |UnionParts(g)|) == Below(|g.vertices|)
  {
    hide Components, ArcsOf;
    var parts := UnionParts(g);
    forall v: nat ensures v in Held(parts, |parts|) <==> v < |g.vertices| {
      if v < |g.vertices| {
        var p := ComponentsCover(ArcsOf(g.edges), |g.vertices|, v);
      }
      if v in Held(parts, |parts|) {
        var i :| 0 <= i < |parts| && v in parts[i];
        PartShape(g, parts[i]);
      }
    }
  }

  lemma {:induction false} BelowSize(n: nat)
    ensures |Below(n)| == n
  {
    hide *;
    BelowStep(n);
    if n > 0 {
      BelowSize(n - 1);
    }
  }

  lemma BelowStep(n: nat)
    ensures n == 0 ==> Below(n) == {}
    ensures n > 0 ==> Below(n) == Below(n - 1) + {n - 1} && n - 1 !in Below(n - 1)
  {
  }

  /** The branches of a graph have as many vertices as the graph. */
  lemma BranchesHold(g: Graph)
    ensures TotalLength(Branches(g)) == |g.vertices|
  {
    hide Components, ArcsOf, Pick;
    var parts := UnionParts(g);
    HeldSize(g, |parts|);
    HeldAll(g);
    BelowSize(|g.vertices|);
    assert parts[..|parts|] == parts;
    TotalLengthSame(Branches(g), parts);
  }
}
