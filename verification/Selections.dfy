/**
 What a selection of vertices of a plain graph keeps of its bag of solutions.
 */
module Selections {
  import opened Reachability
  import opened Graphs
  import opened Tries
  import opened Semantics
  import opened Projection
  import opened ProductProof
  import opened Bags
  import opened EngineSteps

  /** Some vertex of the part is kept. */
  predicate Touches(p: seq<nat>, keep: seq<nat>) {
    exists v :: v in p && v in keep
  }

  /** The parts that some kept vertex lies in. */
  function KeptParts(parts: seq<seq<nat>>, keep: seq<nat>): (r: seq<seq<nat>>)
    ensures forall p :: p in r <==> p in parts && Touches(p, keep)
    ensures |r| <= |parts|
  {
    if parts == [] then []
    else
      assert forall p :: p in parts <==> p in Init(parts) || p == Last(parts);
      KeptParts(Init(parts), keep) + (if Touches(Last(parts), keep) then [Last(parts)] else [])
  }

  /** The parts none of whose vertices is kept. */
  function LostParts(parts: seq<seq<nat>>, keep: seq<nat>): (r: seq<seq<nat>>)
    ensures forall p :: p in r <==> p in parts && !Touches(p, keep)
    ensures |r| + |KeptParts(parts, keep)| == |parts|
  {
    if parts == [] then []
    else
      assert forall p :: p in parts <==> p in Init(parts) || p == Last(parts);
      LostParts(Init(parts), keep) + (if Touches(Last(parts), keep) then [] else [Last(parts)])
  }

  lemma {:induction false} BagSplit(vs: seq<Vertex>, ops: seq<Trie>, parts: seq<seq<nat>>, keep: seq<nat>,
                                    tracked: seq<VarId>, c: Key, k: Key)
    requires |vs| == |ops| && |c| == |tracked| && forall p :: p in parts ==> Indices(p, |vs|)
    ensures BagCount(vs, ops, parts, tracked, c, k)
         == BagCount(vs, ops, KeptParts(parts, keep), tracked, c, k) + BagCount(vs, ops, LostParts(parts, keep), tracked, c, k)
    decreases |parts|
  {
    hide *;
    if parts == [] {
      NothingSplit(keep);
      NoParts(vs, ops, tracked, c, k);
    } else {
      var before, p := Init(parts), Last(parts);
      assert forall q :: q in before ==> q in parts;
      assert p in parts;
      BagSplit(vs, ops, before, keep, tracked, c, k);
      SplitLast(parts, keep);
      BagSnoc(vs, ops, before, p, tracked, c, k);
      if Touches(p, keep) {
        BagSnoc(vs, ops, KeptParts(before, keep), p, tracked, c, k);
      } else {
        BagSnoc(vs, ops, LostParts(before, keep), p, tracked, c, k);
      }
    }
  }

  lemma NothingSplit(keep: seq<nat>)
    ensures KeptParts([], keep) == [] && LostParts([], keep) == []
  {
  }

  lemma SplitLast(parts: seq<seq<nat>>, keep: seq<nat>)
    requires parts != []
    ensures parts == Init(parts) + [Last(parts)]
    ensures Touches(Last(parts), keep) ==>
              KeptParts(parts, keep) == KeptParts(Init(parts), keep) + [Last(parts)]
              && LostParts(parts, keep) == LostParts(Init(parts), keep)
    ensures !Touches(Last(parts), keep) ==>
              KeptParts(parts, keep) == KeptParts(Init(parts), keep)
              && LostParts(parts, keep) == LostParts(Init(parts), keep) + [Last(parts)]
  {
  }

  lemma NoParts(vs: seq<Vertex>, ops: seq<Trie>, tracked: seq<VarId>, c: Key, k: Key)
    requires |vs| == |ops| && |c| == |tracked|
    ensures BagCount(vs, ops, [], tracked, c, k) == 0
  {
  }

  ghost predicate Disjoint(parts: seq<seq<nat>>) {
    forall i, j, v :: 0 <= i < |parts| && 0 <= j < |parts| && i != j && v in parts[i] ==> v !in parts[j]
  }

  lemma {:induction false} KeptDisjoint(parts: seq<seq<nat>>, keep: seq<nat>)
    requires Disjoint(parts)
    ensures Disjoint(KeptParts(parts, keep))
  {
    if parts != [] {
      var before := Init(parts);
      assert Disjoint(before);
      KeptDisjoint(before, keep);
      var r := KeptParts(before, keep);
      if Touches(Last(parts), keep) {
        forall i, v | 0 <= i < |r| && v in r[i] ensures v !in Last(parts) {
          assert r[i] in r;
          var j :| 0 <= j < |before| && before[j] == r[i];
          assert parts[j] == r[i];
        }
      }
    }
  }

  lemma PartsDisjoint(es: Arcs, n: nat)
    ensures Disjoint(Components(es, n))
  {
    forall i, j, v | 0 <= i < |Components(es, n)| && 0 <= j < |Components(es, n)| && i != j && v in Components(es, n)[i]
      ensures v !in Components(es, n)[j]
    {
      ComponentsDisjoint(es, n, i, j, v);
    }
  }

  /** The number of the part that holds v. */
  ghost function Owner(parts: seq<seq<nat>>, v: nat): (i: nat)
    ensures (exists j :: 0 <= j < |parts| && v in parts[j]) ==> i < |parts| && v in parts[i]
  {
    if j :| 0 <= j < |parts| && v in parts[j] then j else 0
  }

  /* ---------- components of the selection ---------- */

  /** Two kept vertices lie in one component of the graph exactly when they do in the selection. */
  lemma SamePart(g: Graph, keep: seq<nat>, p: seq<nat>, q: seq<nat>, s: nat, t: nat)
    requires Plain(g) && Indices(keep, |g.vertices|) && Increasing(keep) && s < |keep| && t < |keep|
    requires p in UnionParts(g) && q in UnionParts(Induced(g, keep))
    requires keep[s] in p && s in q
    ensures keep[t] in p <==> t in q
  {
    hide Plain, Induced, Connected, ArcsOf;
    var h := Induced(g, keep);
    InducedPlain(g, keep);
    InducedAdj(g, keep, s, t);
    if keep[t] in p {
      ComponentConnected(ArcsOf(g.edges), |g.vertices|, p, keep[s], keep[t]);
      PlainConnected(g, keep[s], keep[t]);
      KeepPlaces(keep, s, t);
      SelfOrAdj(h, s, t);
      ComponentClosed(ArcsOf(h.edges), |h.vertices|, q, s, t);
    }
    if t in q {
      ComponentConnected(ArcsOf(h.edges), |h.vertices|, q, s, t);
      PlainConnected(h, s, t);
      SelfOrAdj(g, keep[s], keep[t]);
      ComponentClosed(ArcsOf(g.edges), |g.vertices|, p, keep[s], keep[t]);
    }
  }

  lemma KeepPlaces(keep: seq<nat>, s: nat, t: nat)
    requires Increasing(keep) && s < |keep| && t < |keep|
    ensures keep[s] == keep[t] ==> s == t
  {
  }

  lemma SelfOrAdj(g: Graph, u: nat, v: nat)
    requires u == v || Adj(g, u, v)
    ensures Connected(ArcsOf(g.edges), u, v)
  {
    if u == v {
      ReachRefl(Undirected(ArcsOf(g.edges)), u);
    } else {
      AdjConnected(g, u, v);
    }
  }

  /* ---------- solutions of a part and of its selection ---------- */

  /** A pattern without variables that holds. */
  predicate TrueScalar(v: Vertex, t: Trie) {
    v.Operand? && v.vars == [] && [] in t.rows
  }

  lemma ScalarVars(vs: seq<Vertex>, ops: seq<Trie>, a: seq<nat>, b: seq<nat>)
    requires |vs| == |ops| && Indices(a, |vs|) && Indices(b, |vs|)
    requires (forall v :: v in b ==> v in a) && forall v :: v in a && v !in b ==> TrueScalar(vs[v], ops[v])
    ensures DataVars(Pick(vs, a)) == DataVars(Pick(vs, b))
  {
    PickDataVars(vs, b, a);
    hide *;
    forall x | x in DataVars(Pick(vs, a)) ensures x in DataVars(Pick(vs, b)) {
      ScalarVar(vs, ops, a, b, x);
    }
  }

  lemma ScalarVar(vs: seq<Vertex>, ops: seq<Trie>, a: seq<nat>, b: seq<nat>, x: VarId)
    requires |vs| == |ops| && Indices(a, |vs|) && Indices(b, |vs|) && x in DataVars(Pick(vs, a))
    requires forall v :: v in a && v !in b ==> TrueScalar(vs[v], ops[v])
    ensures x in DataVars(Pick(vs, b))
  {
    hide DataVars, Pick;
    var i :| 0 <= i < |a| && Pick(vs, a)[i].Operand? && x in Pick(vs, a)[i].vars;
    assert a[i] in a;
    var j :| 0 <= j < |b| && b[j] == a[i];
    assert Pick(vs, b)[j] == vs[a[i]];
  }

  lemma SatFewer(vs: seq<Vertex>, ops: seq<Trie>, base: Binding, a: seq<nat>, b: seq<nat>, m: Binding)
    requires |vs| == |ops| && Indices(a, |vs|) && Indices(b, |vs|)
    requires (forall v :: v in b ==> v in a) && DataVars(Pick(vs, a)) == DataVars(Pick(vs, b))
    requires Sat(Pick(vs, a), Pick(ops, a), base, m)
    ensures Sat(Pick(vs, b), Pick(ops, b), base, m)
  {
    hide DataVars, FitsAt, Passes;
    var va, vb, oa, ob := Pick(vs, a), Pick(vs, b), Pick(ops, a), Pick(ops, b);
    assert m.Keys == DataVars(vb);
    hide Sat, SatJoin, PassesAll;
    forall j: nat | j < |b|
      ensures vb[j].Operand? ==> forall x :: x in vb[j].vars ==> x in m
      ensures FitsAt(vb[j], ob[j], m)
      ensures vb[j].FilterVertex? ==> Passes(vb[j].filter, base, m)
    {
      assert b[j] in a;
      var i :| 0 <= i < |a| && a[i] == b[j];
      SatAt(va, oa, base, m, i);
    }
    SatAll(vb, ob, base, m);
  }

  lemma SatAll(vs: seq<Vertex>, ops: seq<Trie>, base: Binding, m: Binding)
    requires |vs| == |ops| && m.Keys == DataVars(vs)
    requires forall i: nat :: i < |vs| && vs[i].Operand? ==> forall x :: x in vs[i].vars ==> x in m
    requires forall i: nat :: i < |vs| ==> FitsAt(vs[i], ops[i], m)
    requires forall i: nat :: i < |vs| && vs[i].FilterVertex? ==> Passes(vs[i].filter, base, m)
    ensures Sat(vs, ops, base, m)
  {
  }

  lemma SatAt(vs: seq<Vertex>, ops: seq<Trie>, base: Binding, m: Binding, i: nat)
    requires |vs| == |ops| && Sat(vs, ops, base, m) && i < |vs|
    ensures vs[i].Operand? ==> forall x :: x in vs[i].vars ==> x in m
    ensures FitsAt(vs[i], ops[i], m)
    ensures vs[i].FilterVertex? ==> Passes(vs[i].filter, base, m)
  {
  }

  lemma SatMore(vs: seq<Vertex>, ops: seq<Trie>, base: Binding, a: seq<nat>, b: seq<nat>, m: Binding)
    requires |vs| == |ops| && Indices(a, |vs|) && Indices(b, |vs|)
    requires DataVars(Pick(vs, a)) == DataVars(Pick(vs, b))
    requires forall v :: v in a && v !in b ==> TrueScalar(vs[v], ops[v])
    requires Sat(Pick(vs, b), Pick(ops, b), base, m)
    ensures Sat(Pick(vs, a), Pick(ops, a), base, m)
  {
    SatKeysOf(vs, ops, base, b, m);
    hide DataVars, FitsAt, Passes, TrueScalar, Sat;
    var va, oa := Pick(vs, a), Pick(ops, a);
    forall i: nat | i < |a|
      ensures va[i].Operand? ==> forall x :: x in va[i].vars ==> x in m
      ensures FitsAt(va[i], oa[i], m)
      ensures va[i].FilterVertex? ==> Passes(va[i].filter, base, m)
    {
      assert a[i] in a;
      if a[i] in b {
        SatPicked(vs, ops, base, b, m, a[i]);
      } else {
        ScalarFits(vs[a[i]], ops[a[i]], m);
      }
    }
    assert m.Keys == DataVars(va);
    SatAll(va, oa, base, m);
  }

  lemma SatKeysOf(vs: seq<Vertex>, ops: seq<Trie>, base: Binding, b: seq<nat>, m: Binding)
    requires |vs| == |ops| && Indices(b, |vs|) && Sat(Pick(vs, b), Pick(ops, b), base, m)
    ensures m.Keys == DataVars(Pick(vs, b))
  {
    hide DataVars, FitsAt, PassesAll, Pick;
  }

  lemma SatPicked(vs: seq<Vertex>, ops: seq<Trie>, base: Binding, b: seq<nat>, m: Binding, v: nat)
    requires |vs| == |ops| && Indices(b, |vs|) && v in b && Sat(Pick(vs, b), Pick(ops, b), base, m)
    ensures v < |vs| && (vs[v].Operand? ==> forall x :: x in vs[v].vars ==> x in m)
    ensures FitsAt(vs[v], ops[v], m) && (vs[v].FilterVertex? ==> Passes(vs[v].filter, base, m))
  {
    hide Sat, DataVars, FitsAt, Passes, Pick;
    var j: nat :| j < |b| && b[j] == v;
    assert Pick(vs, b)[j] == vs[v] && Pick(ops, b)[j] == ops[v];
    SatAt(Pick(vs, b), Pick(ops, b), base, m, j);
  }

  lemma ScalarFits(v: Vertex, t: Trie, m: Binding)
    requires TrueScalar(v, t)
    ensures v.Operand? && v.vars == [] && FitsAt(v, t, m)
  {
    assert RowOf([], m) == [];
  }

  lemma SatWithoutScalars(vs: seq<Vertex>, ops: seq<Trie>, base: Binding, a: seq<nat>, b: seq<nat>, m: Binding)
    requires |vs| == |ops| && Indices(a, |vs|) && Indices(b, |vs|)
    requires (forall v :: v in b ==> v in a) && forall v :: v in a && v !in b ==> TrueScalar(vs[v], ops[v])
    ensures Sat(Pick(vs, a), Pick(ops, a), base, m) <==> Sat(Pick(vs, b), Pick(ops, b), base, m)
  {
    hide DataVars, Sat, TrueScalar, Pick;
    ScalarVars(vs, ops, a, b);
    if Sat(Pick(vs, a), Pick(ops, a), base, m) {
      SatFewer(vs, ops, base, a, b, m);
    }
    if Sat(Pick(vs, b), Pick(ops, b), base, m) {
      SatMore(vs, ops, base, a, b, m);
    }
  }

  /** Patterns without variables that hold do not change the solutions. */
  lemma MatchingWithoutScalars(vs: seq<Vertex>, ops: seq<Trie>, tracked: seq<VarId>, c: Key, k: Key, a: seq<nat>, b: seq<nat>)
    requires |vs| == |ops| && |c| == |tracked| && Indices(a, |vs|) && Indices(b, |vs|)
    requires (forall v :: v in b ==> v in a) && forall v :: v in a && v !in b ==> TrueScalar(vs[v], ops[v])
    ensures Matching(Pick(vs, a), Pick(ops, a), tracked, c, k) == Matching(Pick(vs, b), Pick(ops, b), tracked, c, k)
  {
    hide Matching, SatJoin, PassesAll, TrueScalar;
    forall m
      ensures m in Matching(Pick(vs, a), Pick(ops, a), tracked, c, k)
         <==> m in Matching(Pick(vs, b), Pick(ops, b), tracked, c, k)
    {
      MatchingIff(Pick(vs, a), Pick(ops, a), tracked, c, k, m);
      MatchingIff(Pick(vs, b), Pick(ops, b), tracked, c, k, m);
      SatWithoutScalars(vs, ops, AsBinding(tracked, c), a, b, m);
    }
  }

  lemma PickPick<T>(s: seq<T>, keep: seq<nat>, q: seq<nat>)
    requires Indices(keep, |s|) && Indices(q, |keep|)
    ensures Indices(Pick(keep, q), |s|) && Pick(Pick(s, keep), q) == Pick(s, Pick(keep, q))
  {
  }

  /* ---------- the bag of a selection ---------- */

  /** Within the parts that are touched, only patterns that hold are dropped. */
  ghost predicate DropsScalars(g: Graph, ops: seq<Trie>, keep: seq<nat>)
    requires |g.vertices| == |ops|
  {
    forall p, v :: p in UnionParts(g) && Touches(p, keep) && v in p && v !in keep ==>
      0 <= v < |g.vertices| && TrueScalar(g.vertices[v], ops[v])
  }

  lemma TouchedSame(g: Graph, ops: seq<Trie>, tracked: seq<VarId>, c: Key, k: Key, keep: seq<nat>,
                    p: seq<nat>, q: seq<nat>, t: nat)
    requires Plain(g) && |g.vertices| == |ops| && |c| == |tracked|
    requires Indices(keep, |g.vertices|) && Increasing(keep) && DropsScalars(g, ops, keep)
    requires p in UnionParts(g) && q in UnionParts(Induced(g, keep)) && t < |keep| && keep[t] in p && t in q
    ensures Indices(p, |g.vertices|) && Indices(q, |keep|)
    ensures Matching(Pick(g.vertices, p), Pick(ops, p), tracked, c, k)
         == Matching(Pick(Pick(g.vertices, keep), q), Pick(Pick(ops, keep), q), tracked, c, k)
  {
    hide Plain, Matching, Pick, TrueScalar, UnionParts;
    PartShape(g, p);
    PartShape(Induced(g, keep), q);
    PickPick(g.vertices, keep, q);
    PickPick(ops, keep, q);
    var b := Pick(keep, q);
    assert Touches(p, keep);
    forall v | v in b ensures v in p {
      var j :| 0 <= j < |q| && keep[q[j]] == v;
      assert q[j] in q;
      SamePart(g, keep, p, q, t, q[j]);
    }
    forall v: nat | v in p && v in keep ensures v in b {
      var s :| 0 <= s < |keep| && keep[s] == v;
      SamePart(g, keep, p, q, t, s);
      var j :| 0 <= j < |q| && q[j] == s;
      assert b[j] == v;
    }
    MatchingWithoutScalars(g.vertices, ops, tracked, c, k, p, b);
  }

  ghost function KeptSide(g: Graph, ops: seq<Trie>, keep: seq<nat>): (s: Parted)
    requires |g.vertices| == |ops|
    ensures s.Valid()
  {
    forall p | p in UnionParts(g) ensures Indices(p, |g.vertices|) { PartShape(g, p); }
    Parted(g.vertices, ops, KeptParts(UnionParts(g), keep))
  }

  ghost function SelectionSide(g: Graph, ops: seq<Trie>, keep: seq<nat>): (s: Parted)
    requires |g.vertices| == |ops| && Indices(keep, |g.vertices|)
    ensures s.Valid()
  {
    var h := Induced(g, keep);
    forall p | p in UnionParts(h) ensures Indices(p, |h.vertices|) { PartShape(h, p); }
    Parted(h.vertices, Pick(ops, keep), UnionParts(h))
  }

  /** The selection's part with the first kept vertex of the i-th touched part. */
  ghost function ToSelection(a: seq<seq<nat>>, b: seq<seq<nat>>, keep: seq<nat>): nat -> nat {
    (i: nat) =>
      if i < |a| && (exists s :: 0 <= s < |keep| && keep[s] in a[i]) then
        var s :| 0 <= s < |keep| && keep[s] in a[i];
        Owner(b, s)
      else 0
  }

  ghost function FromSelection(a: seq<seq<nat>>, b: seq<seq<nat>>, keep: seq<nat>): nat -> nat {
    (j: nat) => if j < |b| && b[j] != [] && b[j][0] < |keep| then Owner(a, keep[b[j][0]]) else 0
  }

  lemma OwnerIs(parts: seq<seq<nat>>, v: nat, i: nat)
    requires Disjoint(parts) && i < |parts| && v in parts[i]
    ensures Owner(parts, v) == i
  {
  }

  lemma TouchedPlace(p: seq<nat>, keep: seq<nat>)
    requires Touches(p, keep)
    ensures exists s :: 0 <= s < |keep| && keep[s] in p
  {
    var v :| v in p && v in keep;
    var s :| 0 <= s < |keep| && keep[s] == v;
  }

  lemma SendsDown(g: Graph, ops: seq<Trie>, tracked: seq<VarId>, c: Key, k: Key, keep: seq<nat>)
    requires Plain(g) && |g.vertices| == |ops| && |c| == |tracked|
    requires Indices(keep, |g.vertices|) && Increasing(keep) && DropsScalars(g, ops, keep)
    ensures var a, b := KeptSide(g, ops, keep), SelectionSide(g, ops, keep);
            Sends(a, b, tracked, c, k, ToSelection(a.parts, b.parts, keep), FromSelection(a.parts, b.parts, keep))
  {
    hide Plain, Matching, Pick, DropsScalars;
    var a, b := KeptSide(g, ops, keep), SelectionSide(g, ops, keep);
    var h := Induced(g, keep);
    KeptDisjointParts(g, keep);
    forall i: nat | i < |a.parts|
      ensures var f := ToSelection(a.parts, b.parts, keep)(i);
              f < |b.parts| && PartMatching(b, tracked, c, k, f) == PartMatching(a, tracked, c, k, i)
              && FromSelection(a.parts, b.parts, keep)(f) == i
    {
      assert a.parts[i] in a.parts;
      TouchedPlace(a.parts[i], keep);
      var s :| 0 <= s < |keep| && keep[s] in a.parts[i] && ToSelection(a.parts, b.parts, keep)(i) == Owner(b.parts, s);
      InSomePart(ArcsOf(h.edges), |h.vertices|, s);
      var f := Owner(b.parts, s);
      TouchedSame(g, ops, tracked, c, k, keep, a.parts[i], b.parts[f], s);
      PartShape(h, b.parts[f]);
      assert b.parts[f][0] in b.parts[f];
      SamePart(g, keep, a.parts[i], b.parts[f], s, b.parts[f][0]);
      OwnerIs(a.parts, keep[b.parts[f][0]], i);
    }
  }

  lemma SendsUp(g: Graph, ops: seq<Trie>, tracked: seq<VarId>, c: Key, k: Key, keep: seq<nat>)
    requires Plain(g) && |g.vertices| == |ops| && |c| == |tracked|
    requires Indices(keep, |g.vertices|) && Increasing(keep) && DropsScalars(g, ops, keep)
    ensures var a, b := KeptSide(g, ops, keep), SelectionSide(g, ops, keep);
            Sends(b, a, tracked, c, k, FromSelection(a.parts, b.parts, keep), ToSelection(a.parts, b.parts, keep))
  {
    hide Plain, Matching, Pick, DropsScalars;
    var a, b := KeptSide(g, ops, keep), SelectionSide(g, ops, keep);
    var h := Induced(g, keep);
    PartsDisjoint(ArcsOf(h.edges), |h.vertices|);
    forall j: nat | j < |b.parts|
      ensures var f := FromSelection(a.parts, b.parts, keep)(j);
              f < |a.parts| && PartMatching(a, tracked, c, k, f) == PartMatching(b, tracked, c, k, j)
              && ToSelection(a.parts, b.parts, keep)(f) == j
    {
      assert b.parts[j] in b.parts;
      PartShape(h, b.parts[j]);
      var t := b.parts[j][0];
      assert t in b.parts[j];
      KeptHas(g, keep, t);
      var f := Owner(a.parts, keep[t]);
      assert a.parts[f] in a.parts;
      TouchedSame(g, ops, tracked, c, k, keep, a.parts[f], b.parts[j], t);
      var s :| 0 <= s < |keep| && keep[s] in a.parts[f] && ToSelection(a.parts, b.parts, keep)(f) == Owner(b.parts, s);
      SamePart(g, keep, a.parts[f], b.parts[j], t, s);
      OwnerIs(b.parts, s, j);
    }
  }

  lemma KeptDisjointParts(g: Graph, keep: seq<nat>)
    ensures Disjoint(KeptParts(UnionParts(g), keep))
  {
    PartsDisjoint(ArcsOf(g.edges), |g.vertices|);
    KeptDisjoint(UnionParts(g), keep);
  }

  lemma KeptHas(g: Graph, keep: seq<nat>, t: nat)
    requires Indices(keep, |g.vertices|) && t < |keep|
    ensures exists j :: 0 <= j < |KeptParts(UnionParts(g), keep)| && keep[t] in KeptParts(UnionParts(g), keep)[j]
  {
    var p := ComponentsCover(ArcsOf(g.edges), |g.vertices|, keep[t]);
    assert keep[t] in keep;
    assert Touches(p, keep);
    assert p in KeptParts(UnionParts(g), keep);
  }

  /** The bag of a selection that drops only patterns that hold, and the bag of the parts that are lost. */
  lemma SelectionBag(g: Graph, ops: seq<Trie>, tracked: seq<VarId>, c: Key, k: Key, keep: seq<nat>)
    requires Plain(g) && |g.vertices| == |ops| && |c| == |tracked|
    requires Indices(keep, |g.vertices|) && Increasing(keep) && DropsScalars(g, ops, keep)
    ensures (forall p :: p in UnionParts(g) ==> Indices(p, |g.vertices|))
         && (forall p :: p in UnionParts(Induced(g, keep)) ==> Indices(p, |keep|))
    ensures BagCount(g.vertices, ops, UnionParts(g), tracked, c, k)
         == BagCount(Induced(g, keep).vertices, Pick(ops, keep), UnionParts(Induced(g, keep)), tracked, c, k)
            + BagCount(g.vertices, ops, LostParts(UnionParts(g), keep), tracked, c, k)
  {
    hide Plain, Matching, Pick, DropsScalars, BagCount, Sends;
    forall p | p in UnionParts(g) ensures Indices(p, |g.vertices|) { PartShape(g, p); }
    forall p | p in UnionParts(Induced(g, keep)) ensures Indices(p, |keep|) { PartShape(Induced(g, keep), p); }
    BagSplit(g.vertices, ops, UnionParts(g), keep, tracked, c, k);
    var a, b := KeptSide(g, ops, keep), SelectionSide(g, ops, keep);
    SendsDown(g, ops, tracked, c, k, keep);
    SendsUp(g, ops, tracked, c, k, keep);
    BagMatch(a, b, tracked, c, k, ToSelection(a.parts, b.parts, keep), FromSelection(a.parts, b.parts, keep));
  }
}
