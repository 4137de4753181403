/**
 Why cartesian components can be evaluated apart and multiplied, and why an
 untracked operand on its own can be counted out.
 */
module CartesianProof {
  import opened Reachability
  import opened Graphs
  import opened Tries
  import opened Semantics
  import opened Projection
  import opened JoinProof
  import opened ProductProof
  import opened DependencyGraph
  import opened EngineFacts
  import opened Counting

  /** No vertex of a shares a variable with a vertex of b. */
  ghost predicate ApartLists(vs: seq<Vertex>, a: seq<nat>, b: seq<nat>)
    requires Indices(a, |vs|) && Indices(b, |vs|)
  {
    forall u, w, x :: u in a && w in b && x in vs[u].vars ==> x !in vs[w].vars
  }

  lemma Owner(vs: seq<Vertex>, b: seq<nat>, x: VarId)
    requires Indices(b, |vs|)
    ensures x in DataVars(Pick(vs, b)) ==> exists w :: w in b && x in vs[w].vars && x in DataVars(vs)
  {
    if x in DataVars(Pick(vs, b)) {
      var j :| 0 <= j < |b| && Pick(vs, b)[j].Operand? && x in Pick(vs, b)[j].vars;
      assert b[j] in b && vs[b[j]].Operand? && x in vs[b[j]].vars;
    }
  }

  lemma FilterApart(vs: seq<Vertex>, tracked: seq<VarId>, a: seq<nat>, b: seq<nat>)
    requires Indices(a, |vs|) && Indices(b, |vs|) && FiltersOk(vs, tracked) && ApartLists(vs, a, b)
    ensures forall i :: 0 <= i < |a| && Pick(vs, a)[i].FilterVertex? ==>
              Pick(vs, a)[i].filter.vars !! DataVars(Pick(vs, b))
  {
    hide DataVars;
    forall i, x | 0 <= i < |a| && Pick(vs, a)[i].FilterVertex? && x in Pick(vs, a)[i].filter.vars
      ensures x !in DataVars(Pick(vs, b))
    {
      assert a[i] in a && FilterOk(vs[a[i]], DataVars(vs), tracked);
      assert x in DataVars(vs) ==> x in Elements(vs[a[i]].vars);
      Owner(vs, b, x);
    }
  }

  lemma DataApart(vs: seq<Vertex>, a: seq<nat>, b: seq<nat>)
    requires Indices(a, |vs|) && Indices(b, |vs|) && ApartLists(vs, a, b)
    ensures DataVars(Pick(vs, a)) !! DataVars(Pick(vs, b))
  {
    hide DataVars;
    forall x | x in DataVars(Pick(vs, a)) ensures x !in DataVars(Pick(vs, b)) {
      Owner(vs, a, x);
      Owner(vs, b, x);
    }
  }

  /** Vertices that share no variable are independent parts of a query. */
  lemma IndependentLists(vs: seq<Vertex>, tracked: seq<VarId>, a: seq<nat>, b: seq<nat>)
    requires Indices(a, |vs|) && Indices(b, |vs|) && FiltersOk(vs, tracked)
    requires ApartLists(vs, a, b) && ApartLists(vs, b, a)
    ensures Independent(Pick(vs, a), Pick(vs, b))
  {
    hide ApartLists, FiltersOk, Pick, DataVars;
    DataApart(vs, a, b);
    FilterApart(vs, tracked, a, b);
    FilterApart(vs, tracked, b, a);
  }

  /* ---------- any number of parts ---------- */

  function Flat(parts: seq<seq<nat>>): (r: seq<nat>)
    ensures forall i :: i in r <==> exists p :: p in parts && i in p
  {
    if parts == [] then []
    else
      assert forall p :: p in parts <==> p in Init(parts) || p == Last(parts);
      Flat(Init(parts)) + Last(parts)
  }

  ghost predicate PartsFit(vs: seq<Vertex>, parts: seq<seq<nat>>) {
    && (forall i :: 0 <= i < |parts| ==> Indices(parts[i], |vs|))
    && (forall i, j :: 0 <= i < |parts| && 0 <= j < |parts| && i != j ==> ApartLists(vs, parts[i], parts[j]))
  }

  lemma FlatIndices(vs: seq<Vertex>, parts: seq<seq<nat>>)
    requires PartsFit(vs, parts)
    ensures Indices(Flat(parts), |vs|)
  {
    forall i | 0 <= i < |Flat(parts)| ensures Flat(parts)[i] < |vs| {
      assert Flat(parts)[i] in Flat(parts);
      var p :| p in parts && Flat(parts)[i] in p;
    }
  }

  lemma PartsFitInit(vs: seq<Vertex>, parts: seq<seq<nat>>)
    requires PartsFit(vs, parts) && parts != []
    ensures PartsFit(vs, Init(parts)) && Indices(Last(parts), |vs|)
    ensures Indices(Flat(Init(parts)), |vs|)
    ensures ApartLists(vs, Flat(Init(parts)), Last(parts)) && ApartLists(vs, Last(parts), Flat(Init(parts)))
  {
    FlatIndices(vs, Init(parts));
    forall u, w, x | u in Flat(Init(parts)) && w in Last(parts)
      ensures !(x in vs[u].vars && x in vs[w].vars)
    {
      var p :| p in Init(parts) && u in p;
      var i :| 0 <= i < |parts| - 1 && parts[i] == p;
      assert ApartLists(vs, parts[i], parts[|parts| - 1]);
    }
  }

  /** The product over the parts of the solutions that project to their share of k. */
  ghost function PartsProduct(vs: seq<Vertex>, ops: seq<Trie>, parts: seq<seq<nat>>, tracked: seq<VarId>, c: Key, k: Key): nat
    requires |vs| == |ops| && |c| == |tracked| == |k|
    requires forall i :: 0 <= i < |parts| ==> Indices(parts[i], |vs|)
  {
    if parts == [] then 1
    else
      assert forall i :: 0 <= i < |parts| - 1 ==> Init(parts)[i] == parts[i];
      Times(PartsProduct(vs, ops, Init(parts), tracked, c, k), PartCount(vs, ops, Last(parts), tracked, c, k))
  }

  /** The solutions of one part that project to its share of k. */
  ghost function PartCount(vs: seq<Vertex>, ops: seq<Trie>, part: seq<nat>, tracked: seq<VarId>, c: Key, k: Key): nat
    requires |vs| == |ops| && |c| == |tracked| == |k| && Indices(part, |vs|)
  {
    |Matching(Pick(vs, part), Pick(ops, part), tracked, c, PartKey(tracked, c, k, DataVars(Pick(vs, part))))|
  }

  lemma EmptyMatching(tracked: seq<VarId>, c: Key)
    requires |c| == |tracked|
    ensures Matching([], [], tracked, c, c) == {map[]}
  {
    var base := AsBinding(tracked, c);
    assert PassesAll([], base, map[]);
    assert Sols([], [], base) == {map[]};
    assert KeyOf(tracked, c, map[]) == c;
  }

  lemma PartKeyPart(tracked: seq<VarId>, c: Key, k: Key, d: set<VarId>, e: set<VarId>)
    requires |c| == |tracked| == |k| && d <= e
    ensures PartKey(tracked, c, PartKey(tracked, c, k, e), d) == PartKey(tracked, c, k, d)
    ensures AgreesOutside(tracked, c, PartKey(tracked, c, k, e), e)
  {
  }

  lemma PartKeyWhole(tracked: seq<VarId>, c: Key, k: Key, d: set<VarId>)
    requires AgreesOutside(tracked, c, k, d)
    ensures PartKey(tracked, c, k, d) == k
  {
  }

  lemma {:induction false} PartsMultiply(vs: seq<Vertex>, ops: seq<Trie>, parts: seq<seq<nat>>, tracked: seq<VarId>, c: Key, k: Key)
    requires |vs| == |ops| && |c| == |tracked| == |k|
    requires FiltersOk(vs, tracked) && PartsFit(vs, parts)
    ensures Indices(Flat(parts), |vs|)
    ensures PartCount(vs, ops, Flat(parts), tracked, c, k) == PartsProduct(vs, ops, parts, tracked, c, k)
  {
    hide FiltersOk, Matching, DataVars, Pick, ApartLists, AgreesOutside;
    FlatIndices(vs, parts);
    if parts == [] {
      EmptyPart(vs, ops, tracked, c, k);
    } else {
      PartsFitInit(vs, parts);
      PartsMultiply(vs, ops, Init(parts), tracked, c, k);
      TwoParts(vs, ops, Flat(Init(parts)), Last(parts), tracked, c, k);
    }
  }

  lemma EmptyPart(vs: seq<Vertex>, ops: seq<Trie>, tracked: seq<VarId>, c: Key, k: Key)
    requires |vs| == |ops| && |c| == |tracked| == |k|
    ensures PartCount(vs, ops, [], tracked, c, k) == 1
  {
    assert Pick(vs, []) == [] && Pick(ops, []) == [];
    EmptyMatching(tracked, c);
    assert PartKey(tracked, c, k, DataVars([])) == c;
  }

  lemma TwoParts(vs: seq<Vertex>, ops: seq<Trie>, a: seq<nat>, b: seq<nat>, tracked: seq<VarId>, c: Key, k: Key)
    requires |vs| == |ops| && |c| == |tracked| == |k| && FiltersOk(vs, tracked)
    requires Indices(a, |vs|) && Indices(b, |vs|) && ApartLists(vs, a, b) && ApartLists(vs, b, a)
    ensures Indices(a + b, |vs|)
    ensures PartCount(vs, ops, a + b, tracked, c, k)
         == PartCount(vs, ops, a, tracked, c, k) * PartCount(vs, ops, b, tracked, c, k)
  {
    hide FiltersOk, Matching, DataVars, Pick, ApartLists, AgreesOutside, Independent;
    PickConcat(vs, a, b);
    PickConcat(ops, a, b);
    var va, vb, oa, ob := Pick(vs, a), Pick(vs, b), Pick(ops, a), Pick(ops, b);
    IndependentLists(vs, tracked, a, b);
    DataVarsConcat(va, vb);
    var d := DataVars(va) + DataVars(vb);
    var ke := PartKey(tracked, c, k, d);
    PartKeyPart(tracked, c, k, DataVars(va), d);
    PartKeyPart(tracked, c, k, DataVars(vb), d);
    ProductMatching(va, oa, vb, ob, tracked, c, ke);
  }

  /* ---------- the cartesian components of a clique ---------- */

  /** The cartesian components of a graph whose vertices all belong to its independent strong component. */
  ghost function CartesianParts(g: Graph): seq<seq<nat>> {
    Components(CartesianArcs(g, Elements(Range(|g.vertices|))), |g.vertices|)
  }

  lemma CartesianPartShape(g: Graph, p: seq<nat>)
    requires p in CartesianParts(g)
    ensures Indices(p, |g.vertices|) && Increasing(p) && p != []
  {
    ComponentShape(CartesianArcs(g, Elements(Range(|g.vertices|))), |g.vertices|, p);
    assert forall i :: 0 <= i < |p| ==> p[i] in p;
  }

  lemma CartesianPartsFit(g: Graph)
    requires Plain(g) && Clique(g)
    ensures PartsFit(g.vertices, CartesianParts(g))
    ensures SameMembers(Flat(CartesianParts(g)), Range(|g.vertices|))
  {
    hide Plain, Clique;
    var parts, n := CartesianParts(g), |g.vertices|;
    var es := CartesianArcs(g, Elements(Range(n)));
    forall i | 0 <= i < |parts| ensures Indices(parts[i], n) {
      CartesianPartShape(g, parts[i]);
    }
    forall i, j | 0 <= i < |parts| && 0 <= j < |parts| && i != j ensures ApartLists(g.vertices, parts[i], parts[j]) {
      forall u, w, x | u in parts[i] && w in parts[j] && x in g.vertices[u].vars ensures x !in g.vertices[w].vars {
        ComponentsDisjoint(es, n, j, i, w);
        if x in g.vertices[w].vars {
          CartesianApart(g, parts[i], u, w, x);
        }
      }
    }
    forall v: nat ensures v in Flat(parts) <==> v < n {
      if v < n {
        var p := ComponentsCover(es, n, v);
      }
      if v in Flat(parts) {
        var p :| p in parts && v in p;
        CartesianPartShape(g, p);
      }
    }
  }

  lemma WholePart(vs: seq<Vertex>, ops: seq<Trie>, all: seq<nat>, tracked: seq<VarId>, c: Key, k: Key)
    requires |vs| == |ops| && |c| == |tracked| == |k|
    requires Indices(all, |vs|) && SameMembers(all, Range(|vs|))
    requires AgreesOutside(tracked, c, k, DataVars(vs))
    ensures PartCount(vs, ops, all, tracked, c, k) == |Matching(vs, ops, tracked, c, k)|
  {
    hide Matching, DataVars, Pick, AgreesOutside;
    PickAll(vs);
    PickAll(ops);
    PickDataVars(vs, all, Range(|vs|));
    PickDataVars(vs, Range(|vs|), all);
    assert DataVars(Pick(vs, all)) == DataVars(vs);
    PartKeyWhole(tracked, c, k, DataVars(vs));
    MatchingMembers(vs, ops, tracked, c, k, all, Range(|vs|));
  }

  /** The solutions of a clique that project to k are the products over its cartesian components. */
  lemma CartesianCount(g: Graph, ops: seq<Trie>, tracked: seq<VarId>, c: Key, k: Key)
    requires Plain(g) && Clique(g) && FiltersOk(g.vertices, tracked)
    requires |g.vertices| == |ops| && |c| == |tracked| == |k|
    ensures forall p :: p in CartesianParts(g) ==> Indices(p, |g.vertices|)
    ensures |Matching(g.vertices, ops, tracked, c, k)| ==
            if AgreesOutside(tracked, c, k, DataVars(g.vertices))
            then PartsProduct(g.vertices, ops, CartesianParts(g), tracked, c, k) else 0
  {
    var parts, vs := CartesianParts(g), g.vertices;
    forall p | p in parts ensures Indices(p, |vs|) { CartesianPartShape(g, p); }
    hide *;
    if AgreesOutside(tracked, c, k, DataVars(vs)) {
      CartesianPartsFit(g);
      PartsMultiply(vs, ops, parts, tracked, c, k);
      WholePart(vs, ops, Flat(parts), tracked, c, k);
    } else {
      MatchingOutside(vs, ops, tracked, c, k);
    }
  }
}
