/**
 Bags of solutions over lists of components: when two lists of components hold
 the same bag.
 */
module Bags {
  import opened Reachability
  import opened Graphs
  import opened Tries
  import opened Projection
  import opened Counting

  /** A graph's vertices with their operands, and lists of vertices of each component. */
  datatype Parted = Parted(vs: seq<Vertex>, ops: seq<Trie>, parts: seq<seq<nat>>) {
    ghost predicate Valid() {
      |vs| == |ops| && forall p :: p in parts ==> Indices(p, |vs|)
    }
  }

  /** The solutions of the i-th component that project to k. */
  ghost function PartMatching(s: Parted, tracked: seq<VarId>, c: Key, k: Key, i: nat): set<Binding>
    requires s.Valid() && |c| == |tracked| && i < |s.parts|
  {
    assert s.parts[i] in s.parts;
    Matching(Pick(s.vs, s.parts[i]), Pick(s.ops, s.parts[i]), tracked, c, k)
  }

  ghost function Bag(s: Parted, tracked: seq<VarId>, c: Key, k: Key): nat
    requires s.Valid() && |c| == |tracked|
  {
    BagCount(s.vs, s.ops, s.parts, tracked, c, k)
  }

  ghost function Numbered(i: nat, s: set<Binding>): set<(nat, Binding)> {
    set m | m in s :: (i, m)
  }

  lemma {:induction false} NumberedCard(i: nat, s: set<Binding>)
    ensures |Numbered(i, s)| == |s|
  {
    var f := (p: (nat, Binding)) => p.1;
    var g := (m: Binding) => (i, m);
    BijectionCard(Numbered(i, s), s, f, g);
  }

  /** The solutions, each with the number of its component. */
  ghost function BagSet(s: Parted, tracked: seq<VarId>, c: Key, k: Key, n: nat): (r: set<(nat, Binding)>)
    requires s.Valid() && |c| == |tracked| && n <= |s.parts|
    ensures forall i: nat, m :: (i, m) in r <==> i < n && m in PartMatching(s, tracked, c, k, i)
  {
    if n == 0 then {}
    else BagSet(s, tracked, c, k, n - 1) + Numbered(n - 1, PartMatching(s, tracked, c, k, n - 1))
  }

  lemma {:induction false} BagPrefix(s: Parted, tracked: seq<VarId>, c: Key, k: Key, n: nat)
    requires s.Valid() && |c| == |tracked| && n <= |s.parts|
    ensures forall p :: p in s.parts[..n] ==> Indices(p, |s.vs|)
    ensures BagCount(s.vs, s.ops, s.parts[..n], tracked, c, k) == |BagSet(s, tracked, c, k, n)|
  {
    hide Matching;
    assert forall p :: p in s.parts[..n] ==> p in s.parts;
    if n > 0 {
      BagPrefix(s, tracked, c, k, n - 1);
      assert Init(s.parts[..n]) == s.parts[..n - 1];
      NumberedCard(n - 1, PartMatching(s, tracked, c, k, n - 1));
      SplitCard(BagSet(s, tracked, c, k, n), BagSet(s, tracked, c, k, n - 1),
                Numbered(n - 1, PartMatching(s, tracked, c, k, n - 1)));
    }
  }

  lemma BagCard(s: Parted, tracked: seq<VarId>, c: Key, k: Key)
    requires s.Valid() && |c| == |tracked|
    ensures Bag(s, tracked, c, k) == |BagSet(s, tracked, c, k, |s.parts|)|
  {
    BagPrefix(s, tracked, c, k, |s.parts|);
    assert s.parts[..|s.parts|] == s.parts;
  }

  /** f sends every component with a solution to a component with the same solutions, and h sends it back. */
  ghost predicate Sends(s: Parted, t: Parted, tracked: seq<VarId>, c: Key, k: Key, f: nat -> nat, h: nat -> nat)
    requires s.Valid() && t.Valid() && |c| == |tracked|
  {
    forall i: nat :: i < |s.parts| && PartMatching(s, tracked, c, k, i) != {} ==>
      f(i) < |t.parts| && PartMatching(t, tracked, c, k, f(i)) == PartMatching(s, tracked, c, k, i) && h(f(i)) == i
  }

  lemma SendsPair(s: Parted, t: Parted, tracked: seq<VarId>, c: Key, k: Key, f: nat -> nat, h: nat -> nat, p: (nat, Binding))
    requires s.Valid() && t.Valid() && |c| == |tracked| && Sends(s, t, tracked, c, k, f, h)
    requires p in BagSet(s, tracked, c, k, |s.parts|)
    ensures (f(p.0), p.1) in BagSet(t, tracked, c, k, |t.parts|) && h(f(p.0)) == p.0
  {
    hide PartMatching;
    assert (p.0, p.1) == p;
    assert p.1 in PartMatching(s, tracked, c, k, p.0);
  }

  /** Components matched one to one: the same bag. */
  lemma BagMatch(s: Parted, t: Parted, tracked: seq<VarId>, c: Key, k: Key, f: nat -> nat, h: nat -> nat)
    requires s.Valid() && t.Valid() && |c| == |tracked|
    requires Sends(s, t, tracked, c, k, f, h) && Sends(t, s, tracked, c, k, h, f)
    ensures Bag(s, tracked, c, k) == Bag(t, tracked, c, k)
  {
    hide Sends, PartMatching, BagSet, Bag;
    var a, b := BagSet(s, tracked, c, k, |s.parts|), BagSet(t, tracked, c, k, |t.parts|);
    BagCard(s, tracked, c, k);
    BagCard(t, tracked, c, k);
    var fp := (p: (nat, Binding)) => (f(p.0), p.1);
    var hp := (p: (nat, Binding)) => (h(p.0), p.1);
    forall p | p in a ensures fp(p) in b && hp(fp(p)) == p {
      SendsPair(s, t, tracked, c, k, f, h, p);
    }
    forall p | p in b ensures hp(p) in a && fp(hp(p)) == p {
      SendsPair(t, s, tracked, c, k, h, f, p);
    }
    BijectionCard(a, b, fp, hp);
  }

  /* ---------- the component of a vertex ---------- */

  lemma InSomePart(es: Arcs, n: nat, v: nat)
    requires v < n
    ensures exists i :: 0 <= i < |Components(es, n)| && v in Components(es, n)[i]
  {
    var c := ComponentsCover(es, n, v);
    var i :| 0 <= i < |Components(es, n)| && Components(es, n)[i] == c;
    assert v in Components(es, n)[i];
  }
}
