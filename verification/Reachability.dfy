/**
 Reachability in a finite directed graph, and the connected and source
 components the engine takes from its graph library.
 */
module Reachability {

  type Arcs = set<(nat, nat)>

  ghost predicate IsPath(es: Arcs, p: seq<nat>) {
    forall i :: 0 <= i < |p| - 1 ==> (p[i], p[i + 1]) in es
  }

  ghost predicate PathFromTo(es: Arcs, p: seq<nat>, u: nat, v: nat) {
    |p| > 0 && p[0] == u && p[|p| - 1] == v && IsPath(es, p)
  }

  /** Some path, possibly of no arc, leads from u to v. */
  ghost predicate Reach(es: Arcs, u: nat, v: nat) {
    exists p :: PathFromTo(es, p, u, v)
  }

  lemma ReachRefl(es: Arcs, u: nat)
    ensures Reach(es, u, u)
  {
    assert PathFromTo(es, [u], u, u);
  }

  lemma ReachStep(es: Arcs, u: nat, v: nat, w: nat)
    requires Reach(es, u, v) && (v, w) in es
    ensures Reach(es, u, w)
  {
    var p :| PathFromTo(es, p, u, v);
    assert PathFromTo(es, p + [w], u, w);
  }

  lemma ReachArc(es: Arcs, u: nat, v: nat)
    requires (u, v) in es
    ensures Reach(es, u, v)
  {
    assert PathFromTo(es, [u, v], u, v);
  }

  lemma ReachTrans(es: Arcs, u: nat, v: nat, w: nat)
    requires Reach(es, u, v) && Reach(es, v, w)
    ensures Reach(es, u, w)
  {
    var p :| PathFromTo(es, p, u, v);
    var q :| PathFromTo(es, q, v, w);
    assert PathFromTo(es, p + q[1..], u, w);
  }

  /** A set closed under the arcs that holds u holds all that u reaches. */
  lemma {:induction false} ClosedPath(es: Arcs, s: set<nat>, p: seq<nat>)
    requires forall a, b :: a in s && (a, b) in es ==> b in s
    requires |p| > 0 && p[0] in s && IsPath(es, p)
    ensures p[|p| - 1] in s
  {
    if |p| > 1 {
      assert (p[0], p[1]) in es;
      ClosedPath(es, s, p[1..]);
    }
  }

  lemma ClosedReach(es: Arcs, s: set<nat>, u: nat, v: nat)
    requires forall a, b :: a in s && (a, b) in es ==> b in s
    requires u in s && Reach(es, u, v)
    ensures v in s
  {
    var p :| PathFromTo(es, p, u, v);
    ClosedPath(es, s, p);
  }

  /** Fewer arcs reach less. */
  lemma ReachMonotone(es: Arcs, fs: Arcs, u: nat, v: nat)
    requires es <= fs && Reach(es, u, v)
    ensures Reach(fs, u, v)
  {
    var p :| PathFromTo(es, p, u, v);
    assert PathFromTo(fs, p, u, v);
  }

  function Undirected(es: Arcs): Arcs {
    es + set e | e in es :: (e.1, e.0)
  }

  lemma {:induction false} ReverseReach(es: Arcs, p: seq<nat>, u: nat, v: nat)
    requires PathFromTo(Undirected(es), p, u, v)
    ensures Reach(Undirected(es), v, u)
  {
    if |p| == 1 {
      ReachRefl(Undirected(es), u);
    } else {
      var w := p[1];
      assert (u, w) in Undirected(es);
      ReverseReach(es, p[1..], w, v);
      ReachStep(Undirected(es), v, w, u);
    }
  }

  /** u and v lie in one weakly connected component. */
  ghost predicate Connected(es: Arcs, u: nat, v: nat) {
    Reach(Undirected(es), u, v)
  }

  lemma ConnectedSym(es: Arcs, u: nat, v: nat)
    requires Connected(es, u, v)
    ensures Connected(es, v, u)
  {
    var p :| PathFromTo(Undirected(es), p, u, v);
    ReverseReach(es, p, u, v);
  }

  ghost predicate WithinRange(es: Arcs, n: nat) {
    forall e :: e in es ==> e.0 < n && e.1 < n
  }

  /** The vertices below n that are weakly connected to r, in increasing order. */
  ghost function ComponentOf(es: Arcs, n: nat, r: nat): (c: seq<nat>)
    ensures forall v: nat :: v in c <==> v < n && Connected(es, r, v)
    ensures Increasing(c)
  {
    if n == 0 then []
    else
      var before := ComponentOf(es, n - 1, r);
      if Connected(es, r, n - 1) then IncreasingAppend(before, n - 1); before + [n - 1] else before
  }

  predicate Increasing(s: seq<nat>) {
    forall i, j :: 0 <= i < j < |s| ==> s[i] < s[j]
  }

  lemma IncreasingAppend(s: seq<nat>, x: nat)
    requires Increasing(s) && forall v :: v in s ==> v < x
    ensures Increasing(s + [x])
  {
    assert forall i :: 0 <= i < |s| ==> s[i] in s;
  }

  /** r is the first vertex of its component. */
  ghost predicate IsFirst(es: Arcs, r: nat) {
    forall v: nat :: v < r ==> !Connected(es, r, v)
  }

  /** The components whose first vertex is below m, ordered by first vertex. */
  ghost function ComponentsBelow(es: Arcs, n: nat, m: nat): seq<seq<nat>>
  {
    if m == 0 then []
    else ComponentsBelow(es, n, m - 1) + (if IsFirst(es, m - 1) then [ComponentOf(es, n, m - 1)] else [])
  }

  /** All weakly connected components of a graph on n vertices. */
  ghost function Components(es: Arcs, n: nat): seq<seq<nat>> {
    ComponentsBelow(es, n, n)
  }

  ghost predicate ReachedFrom(es: Arcs, sources: seq<nat>, v: nat) {
    exists s :: s in sources && Reach(es, s, v)
  }

  lemma ReachedStep(es: Arcs, sources: seq<nat>, u: nat, targets: seq<nat>)
    requires ReachedFrom(es, sources, u)
    requires forall v :: v in targets ==> (u, v) in es
    ensures forall v :: v in targets ==> ReachedFrom(es, sources, v)
  {
    var s :| s in sources && Reach(es, s, u);
    forall t | t in targets ensures ReachedFrom(es, sources, t) {
      ReachStep(es, s, u, t);
    }
  }

  function Below(n: nat): (s: set<nat>)
    ensures forall v: nat :: v in s <==> v < n
  {
    if n == 0 then {} else Below(n - 1) + {n - 1}
  }

  /** Every arc out of a marked vertex ends in a marked or a pending one. */
  ghost predicate Covered(es: Arcs, marked: set<nat>, pending: seq<nat>) {
    forall a, b :: a in marked && (a, b) in es ==> b in marked || b in pending
  }

  /** The state of the work list: what is marked or pending is reached, and
      what is reached is marked or lies behind something pending. */
  ghost predicate Working(es: Arcs, n: nat, sources: seq<nat>, marked: set<nat>, pending: seq<nat>) {
    && (forall v :: v in pending || v in marked ==> 0 <= v < n && ReachedFrom(es, sources, v))
    && (forall s :: s in sources ==> s in marked || s in pending)
    && Covered(es, marked, pending)
  }

  lemma WorkStart(es: Arcs, n: nat, sources: seq<nat>)
    requires forall s :: s in sources ==> s < n
    ensures Working(es, n, sources, {}, sources)
  {
    forall s | s in sources ensures ReachedFrom(es, sources, s) { ReachRefl(es, s); }
  }

  lemma WorkSkip(es: Arcs, n: nat, sources: seq<nat>, marked: set<nat>, u: nat, rest: seq<nat>)
    requires Working(es, n, sources, marked, [u] + rest) && u in marked
    ensures Working(es, n, sources, marked, rest)
  {
  }

  lemma WorkMark(es: Arcs, n: nat, sources: seq<nat>, marked: set<nat>, u: nat, rest: seq<nat>, targets: seq<nat>)
    requires WithinRange(es, n) && Working(es, n, sources, marked, [u] + rest)
    requires forall v :: v in targets <==> (u, v) in es
    ensures u < n && Working(es, n, sources, marked + {u}, rest + targets)
  {
    assert u in [u] + rest;
    ReachedStep(es, sources, u, targets);
    forall v | v in rest + targets || v in marked + {u}
      ensures 0 <= v < n && ReachedFrom(es, sources, v)
    {
      if v in targets {
        assert (u, v) in es;
      } else if v in rest {
        assert v in [u] + rest;
      }
    }
  }

  /** With nothing pending, the marked vertices are those the sources reach. */
  lemma WorkDone(es: Arcs, n: nat, sources: seq<nat>, marked: set<nat>)
    requires Working(es, n, sources, marked, [])
    ensures forall v: nat :: v in marked <==> ReachedFrom(es, sources, v)
  {
    forall v: nat | ReachedFrom(es, sources, v) ensures v in marked {
      var s :| s in sources && Reach(es, s, v);
      ClosedReach(es, marked, s, v);
    }
  }

  /** Marks what the sources reach: a work list, first in first out. */
  method Closure(es: Arcs, n: nat, sources: seq<nat>) returns (marked: set<nat>)
    requires WithinRange(es, n) && forall s :: s in sources ==> s < n
    ensures forall v: nat :: v in marked <==> ReachedFrom(es, sources, v)
    ensures marked <= Below(n)
  {
    marked := {};
    var toCheck := sources;
    WorkStart(es, n, sources);
    while toCheck != []
      invariant Working(es, n, sources, marked, toCheck)
      invariant marked <= Below(n)
      decreases Below(n) - marked, |toCheck|
    {
      var operand := toCheck[0];
      var rest := toCheck[1..];
      assert toCheck == [operand] + rest;
      if operand in marked {
        WorkSkip(es, n, sources, marked, operand, rest);
        toCheck := rest;
      } else {
        var targets := Targets(es, operand);
        WorkMark(es, n, sources, marked, operand, rest, targets);
        assert operand in Below(n) - marked;
        marked := marked + {operand};
        toCheck := rest + targets;
      }
    }
    WorkDone(es, n, sources, marked);
  }

  /** The heads of the arcs that leave u. */
  method Targets(es: Arcs, u: nat) returns (ts: seq<nat>)
    ensures forall v :: v in ts <==> (u, v) in es
  {
    ts := [];
    var rest := es;
    while rest != {}
      invariant rest <= es
      invariant forall v :: v in ts ==> (u, v) in es
      invariant forall v :: (u, v) in es ==> v in ts || (u, v) in rest
      decreases rest
    {
      var e :| e in rest;
      rest := rest - {e};
      if e.0 == u {
        ts := ts + [e.1];
      }
    }
  }

  /** Lists a set of numbers below n in increasing order. */
  method Sorted(s: set<nat>, n: nat) returns (c: seq<nat>)
    requires forall v :: v in s ==> v < n
    ensures Increasing(c) && (forall v :: v in c <==> v in s)
  {
    c := [];
    for i := 0 to n
      invariant Increasing(c)
      invariant forall v :: v in c <==> v in s && v < i
    {
      if i in s {
        IncreasingAppend(c, i);
        c := c + [i];
      }
    }
  }

  lemma InitElements(a: seq<nat>, a': seq<nat>, x: nat)
    requires Increasing(a) && a == a' + [x]
    ensures forall v :: v in a' <==> v in a && v != x
  {
    assert forall i :: 0 <= i < |a'| ==> a'[i] == a[i] < a[|a| - 1];
  }

  lemma LastInOther(a: seq<nat>, b: seq<nat>)
    requires a != [] && Increasing(b) && forall v :: v in a ==> v in b
    ensures b != [] && a[|a| - 1] <= b[|b| - 1]
  {
    var x := a[|a| - 1];
    assert x in b;
    var i :| 0 <= i < |b| && b[i] == x;
  }

  /** An increasing list is determined by its elements. */
  lemma {:induction false} IncreasingUnique(a: seq<nat>, b: seq<nat>)
    requires Increasing(a) && Increasing(b)
    requires forall v :: v in a <==> v in b
    ensures a == b
    decreases |a| + |b|
  {
    if a == [] {
      if b != [] {
        LastInOther(b, a);
      }
    } else {
      LastInOther(a, b);
      LastInOther(b, a);
      var x := a[|a| - 1];
      var a', b' := a[..|a| - 1], b[..|b| - 1];
      assert a == a' + [x] && b == b' + [x];
      InitElements(a, a', x);
      InitElements(b, b', x);
      IncreasingInit(a', x);
      IncreasingInit(b', x);
      IncreasingUnique(a', b');
    }
  }

  lemma IncreasingInit(a: seq<nat>, x: nat)
    requires Increasing(a + [x])
    ensures Increasing(a)
  {
    var b := a + [x];
    forall i, j | 0 <= i < j < |a| ensures a[i] < a[j] {
      assert b[i] < b[j];
    }
  }

  /** Numbers the weakly connected components in the order of their first vertices. */
  method ConnectedComponents(es: Arcs, n: nat) returns (comps: seq<seq<nat>>)
    requires WithinRange(es, n)
    ensures comps == Components(es, n)
  {
    comps := [];
    var numbered: set<nat> := {};
    var both := Undirected(es);
    for r := 0 to n
      invariant comps == ComponentsBelow(es, n, r)
      invariant forall v: nat :: v in numbered <==> v < n && exists u: nat :: u < r && Connected(es, u, v)
    {
      ReachRefl(both, r);
      if r !in numbered {
        var reached := Closure(both, n, [r]);
        assert forall v: nat :: v in reached <==> Connected(es, r, v);
        var comp := Sorted(reached, n);
        IncreasingUnique(comp, ComponentOf(es, n, r));
        comps := comps + [comp];
        forall u: nat | u < r ensures !Connected(es, r, u) {
          if Connected(es, r, u) {
            ConnectedSym(es, r, u);
          }
        }
        numbered := numbered + reached;
      } else {
        ghost var u: nat :| u < r && Connected(es, u, r);
        ConnectedSym(es, u, r);
        forall v | Connected(es, r, v) ensures Connected(es, u, v) {
          ReachTrans(both, u, r, v);
        }
      }
    }
  }

  /** u and v reach each other. */
  ghost predicate Mutual(es: Arcs, u: nat, v: nat) {
    Reach(es, u, v) && Reach(es, v, u)
  }

  lemma MutualTrans(es: Arcs, u: nat, v: nat, w: nat)
    requires Mutual(es, u, v) && Mutual(es, v, w)
    ensures Mutual(es, u, w)
  {
    ReachTrans(es, u, v, w);
    ReachTrans(es, w, v, u);
  }

  /** u belongs to a strong component that nothing outside it reaches. */
  ghost predicate IsSource(es: Arcs, u: nat) {
    forall w: nat :: Reach(es, w, u) ==> Reach(es, u, w)
  }

  /** A numbering of the strong components: equal numbers exactly on mutual reach. */
  ghost predicate StrongNumbering(es: Arcs, n: nat, comp: seq<nat>) {
    && |comp| == n
    && forall u, v :: 0 <= u < n && 0 <= v < n ==> (comp[u] == comp[v] <==> Mutual(es, u, v))
  }

  /** The first vertex that u and it reach each other. */
  method Representative(es: Arcs, n: nat, u: nat) returns (r: nat)
    requires WithinRange(es, n) && u < n
    ensures r < n && Mutual(es, u, r)
    ensures forall v: nat :: v < r ==> !Mutual(es, u, v)
  {
    ReachRefl(es, u);
    var fromU := Closure(es, n, [u]);
    r := 0;
    while r < u
      invariant r <= u
      invariant forall v: nat :: v < r ==> !Mutual(es, u, v)
    {
      var fromR := Closure(es, n, [r]);
      if r in fromU && u in fromR {
        return;
      }
      r := r + 1;
    }
  }

  lemma RepresentativesAgree(es: Arcs, u: nat, v: nat, r: nat, s: nat)
    requires Mutual(es, u, r) && forall w: nat :: w < r ==> !Mutual(es, u, w)
    requires Mutual(es, v, s) && forall w: nat :: w < s ==> !Mutual(es, v, w)
    ensures r == s <==> Mutual(es, u, v)
  {
    if r == s {
      MutualTrans(es, u, r, v);
    }
    if Mutual(es, u, v) {
      MutualTrans(es, u, v, s);
      MutualTrans(es, v, u, r);
    }
  }

  ghost predicate Represents(es: Arcs, u: nat, r: nat) {
    Mutual(es, u, r) && forall w: nat :: w < r ==> !Mutual(es, u, w)
  }

  method StrongComponents(es: Arcs, n: nat) returns (comp: seq<nat>)
    requires WithinRange(es, n)
    ensures StrongNumbering(es, n, comp)
    ensures forall u :: 0 <= u < n ==> comp[u] < n
  {
    comp := [];
    for u := 0 to n
      invariant |comp| == u
      invariant forall v :: 0 <= v < u ==> comp[v] < n && Represents(es, v, comp[v])
    {
      var r := Representative(es, n, u);
      comp := comp + [r];
    }
    forall u, v | 0 <= u < n && 0 <= v < n ensures comp[u] == comp[v] <==> Mutual(es, u, v) {
      RepresentativesAgree(es, u, v, comp[u], comp[v]);
    }
  }

  /** An arc enters the component of u from another component. */
  ghost predicate Entered(es: Arcs, comp: seq<nat>, c: nat) {
    exists e :: e in es && e.0 < |comp| && e.1 < |comp| && comp[e.1] == c && comp[e.0] != c
  }

  lemma EnteredNotSource(es: Arcs, n: nat, comp: seq<nat>, u: nat)
    requires WithinRange(es, n) && StrongNumbering(es, n, comp) && u < n
    requires Entered(es, comp, comp[u])
    ensures !IsSource(es, u)
  {
    var e :| e in es && e.0 < |comp| && e.1 < |comp| && comp[e.1] == comp[u] && comp[e.0] != comp[u];
    assert Mutual(es, e.1, u);
    assert !Mutual(es, e.0, u);
    ReachArc(es, e.0, e.1);
    ReachTrans(es, e.0, e.1, u);
  }

  lemma NotEnteredSource(es: Arcs, n: nat, comp: seq<nat>, u: nat)
    requires WithinRange(es, n) && StrongNumbering(es, n, comp) && u < n
    requires !Entered(es, comp, comp[u])
    ensures IsSource(es, u)
  {
    forall w: nat | Reach(es, w, u) ensures Reach(es, u, w) {
      if w >= n {
        ClosedReach(es, Below(w + 1) - Below(n), w, u);
      } else if comp[w] != comp[u] {
        var outside := set a: nat | a in Below(n) && comp[a] != comp[u];
        forall a, b | a in outside && (a, b) in es ensures b in outside {
          assert (a, b) in es && (a, b).0 < n && (a, b).1 < n;
        }
        ClosedReach(es, outside, w, u);
      }
    }
  }

  /**
   The independent strong components: every strong component is a candidate
   until an arc from another component enters it.
   */
  method SourceComponents(es: Arcs, n: nat) returns (sources: seq<nat>)
    requires WithinRange(es, n)
    ensures Increasing(sources)
    ensures forall u: nat :: u in sources <==> u < n && IsSource(es, u)
  {
    var comp := StrongComponents(es, n);
    var candidates := Below(n);
    var rest := es;
    while rest != {}
      invariant rest <= es
      invariant forall c: nat :: c < n && c !in candidates ==> Entered(es, comp, c)
      invariant forall e :: e in es - rest && comp[e.0] != comp[e.1] ==> comp[e.1] !in candidates
      decreases rest
    {
      var e :| e in rest;
      rest := rest - {e};
      if comp[e.0] != comp[e.1] {
        candidates := candidates - {comp[e.1]};
      }
    }
    sources := [];
    for u := 0 to n
      invariant Increasing(sources)
      invariant forall v: nat :: v in sources <==> v < u && IsSource(es, v)
    {
      if comp[u] in candidates {
        NotEnteredSource(es, n, comp, u);
        IncreasingAppend(sources, u);
        sources := sources + [u];
      } else {
        EnteredNotSource(es, n, comp, u);
      }
    }
  }

  /* ---------- facts about components ---------- */

  lemma {:induction false} ComponentsMember(es: Arcs, n: nat, m: nat, c: seq<nat>)
    requires c in ComponentsBelow(es, n, m)
    ensures exists r: nat :: r < m && IsFirst(es, r) && c == ComponentOf(es, n, r)
  {
    var before := ComponentsBelow(es, n, m - 1);
    if c in before {
      ComponentsMember(es, n, m - 1, c);
    }
  }

  lemma {:induction false} ComponentsHas(es: Arcs, n: nat, m: nat, r: nat)
    requires r < m && IsFirst(es, r)
    ensures ComponentOf(es, n, r) in ComponentsBelow(es, n, m)
  {
    if r < m - 1 {
      ComponentsHas(es, n, m - 1, r);
    }
  }

  /** Distinct places in the list of components hold components of distinct first vertices. */
  lemma {:induction false} ComponentFirst(es: Arcs, n: nat, m: nat, i: nat) returns (r: nat)
    requires i < |ComponentsBelow(es, n, m)|
    ensures r < m && IsFirst(es, r) && ComponentsBelow(es, n, m)[i] == ComponentOf(es, n, r)
    ensures i == |ComponentsBelow(es, n, r)|
  {
    var before := ComponentsBelow(es, n, m - 1);
    if i < |before| {
      r := ComponentFirst(es, n, m - 1, i);
    } else {
      r := m - 1;
    }
  }

  lemma FirstExists(es: Arcs, u: nat) returns (r: nat)
    ensures r <= u && IsFirst(es, r) && Connected(es, r, u)
  {
    ReachRefl(Undirected(es), u);
    r := u;
    while !IsFirst(es, r)
      invariant r <= u && Connected(es, r, u)
      decreases r
    {
      var v: nat :| v < r && Connected(es, r, v);
      ConnectedSym(es, r, v);
      ReachTrans(Undirected(es), v, r, u);
      r := v;
    }
  }

  /** Two first vertices of one component are the same vertex. */
  lemma FirstUnique(es: Arcs, r: nat, s: nat)
    requires IsFirst(es, r) && IsFirst(es, s) && Connected(es, r, s)
    ensures r == s
  {
    ConnectedSym(es, r, s);
  }

  /** Every vertex lies in a component. */
  lemma ComponentsCover(es: Arcs, n: nat, u: nat) returns (c: seq<nat>)
    requires u < n
    ensures c in Components(es, n) && u in c
  {
    var r := FirstExists(es, u);
    ComponentsHas(es, n, n, r);
    c := ComponentOf(es, n, r);
  }

  /** Members of one component are connected. */
  lemma ComponentConnected(es: Arcs, n: nat, c: seq<nat>, u: nat, v: nat)
    requires c in Components(es, n) && u in c && v in c
    ensures u < n && v < n && Connected(es, u, v)
  {
    ComponentsMember(es, n, n, c);
    var r: nat :| r < n && IsFirst(es, r) && c == ComponentOf(es, n, r);
    ConnectedSym(es, r, u);
    ReachTrans(Undirected(es), u, r, v);
  }

  /** A component holds everything connected to one of its members. */
  lemma ComponentClosed(es: Arcs, n: nat, c: seq<nat>, u: nat, v: nat)
    requires c in Components(es, n) && u in c && v < n && Connected(es, u, v)
    ensures v in c
  {
    ComponentsMember(es, n, n, c);
    var r: nat :| r < n && IsFirst(es, r) && c == ComponentOf(es, n, r);
    ReachTrans(Undirected(es), r, u, v);
  }

  lemma ComponentShape(es: Arcs, n: nat, c: seq<nat>)
    requires c in Components(es, n)
    ensures Increasing(c) && c != []
    ensures forall v :: v in c ==> 0 <= v < n
  {
    ComponentsMember(es, n, n, c);
    var r: nat :| r < n && IsFirst(es, r) && c == ComponentOf(es, n, r);
    ReachRefl(Undirected(es), r);
    assert r in c;
  }

  /** Different components share no vertex. */
  lemma ComponentsDisjoint(es: Arcs, n: nat, i: nat, j: nat, u: nat)
    requires i < |Components(es, n)| && j < |Components(es, n)| && i != j
    requires u in Components(es, n)[i]
    ensures u !in Components(es, n)[j]
  {
    var r := ComponentFirst(es, n, n, i);
    var s := ComponentFirst(es, n, n, j);
    if u in Components(es, n)[j] {
      ConnectedSym(es, s, u);
      ReachTrans(Undirected(es), r, u, s);
      FirstUnique(es, r, s);
    }
  }

  /** With everything connected there is one component. */
  lemma ComponentsSingle(es: Arcs, n: nat)
    requires n > 0 && forall u: nat, v: nat :: u < n && v < n ==> Connected(es, u, v)
    ensures |Components(es, n)| == 1
  {
    var c := ComponentsCover(es, n, 0);
    if |Components(es, n)| > 1 {
      ComponentShape(es, n, Components(es, n)[0]);
      ComponentShape(es, n, Components(es, n)[1]);
      var u, v := Components(es, n)[0][0], Components(es, n)[1][0];
      assert u in Components(es, n)[0] && v in Components(es, n)[1];
      ComponentClosed(es, n, Components(es, n)[0], u, v);
      ComponentsDisjoint(es, n, 0, 1, v);
    }
  }
}
