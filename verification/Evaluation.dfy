/**
 The entry point of an evaluation, and exactly when what it yields is the bag of
 the query graph.
 */
module Evaluation {
  import opened Reachability
  import opened Graphs
  import opened Counting
  import opened Tries
  import opened Projection
  import opened JoinProof
  import opened ProductProof
  import opened LeafProof
  import opened DependencyGraph
  import opened EngineFacts
  import opened EngineSteps
  import opened CountElimination
  import opened Entries
  import opened Selections
  import opened Preparation
  import opened Engine

  /* ---------- sums over parts ---------- */

  ghost predicate Fits(vs: seq<Vertex>, ops: seq<Trie>, parts: seq<seq<nat>>, tracked: seq<VarId>, c: Key) {
    |vs| == |ops| && |c| == |tracked| && forall p :: p in parts ==> Indices(p, |vs|)
  }

  ghost function PartSize(vs: seq<Vertex>, ops: seq<Trie>, p: seq<nat>, tracked: seq<VarId>, c: Key, k: Key): nat
    requires |vs| == |ops| && |c| == |tracked| && Indices(p, |vs|)
  {
    |Matching(Pick(vs, p), Pick(ops, p), tracked, c, k)|
  }

  lemma BagLast(vs: seq<Vertex>, ops: seq<Trie>, parts: seq<seq<nat>>, tracked: seq<VarId>, c: Key, k: Key)
    requires Fits(vs, ops, parts, tracked, c) && parts != []
    ensures Last(parts) in parts && Fits(vs, ops, Init(parts), tracked, c)
    ensures BagCount(vs, ops, parts, tracked, c, k)
         == BagCount(vs, ops, Init(parts), tracked, c, k) + PartSize(vs, ops, Last(parts), tracked, c, k)
  {
    assert forall p :: p in Init(parts) ==> p in parts;
  }

  lemma {:induction false} BagAtLeast(vs: seq<Vertex>, ops: seq<Trie>, parts: seq<seq<nat>>, tracked: seq<VarId>, c: Key, k: Key, i: nat)
    requires Fits(vs, ops, parts, tracked, c) && i < |parts|
    ensures parts[i] in parts
    ensures BagCount(vs, ops, parts, tracked, c, k) >= PartSize(vs, ops, parts[i], tracked, c, k)
  {
    hide BagCount, PartSize;
    BagLast(vs, ops, parts, tracked, c, k);
    if i < |parts| - 1 {
      BagAtLeast(vs, ops, Init(parts), tracked, c, k, i);
    }
  }

  lemma {:induction false} BagAtLeastTwo(vs: seq<Vertex>, ops: seq<Trie>, parts: seq<seq<nat>>, tracked: seq<VarId>, c: Key, k: Key,
                                         i: nat, j: nat)
    requires Fits(vs, ops, parts, tracked, c) && i < j < |parts|
    ensures parts[i] in parts && parts[j] in parts
    ensures BagCount(vs, ops, parts, tracked, c, k)
         >= PartSize(vs, ops, parts[i], tracked, c, k) + PartSize(vs, ops, parts[j], tracked, c, k)
  {
    hide BagCount, PartSize;
    BagLast(vs, ops, parts, tracked, c, k);
    if j < |parts| - 1 {
      BagAtLeastTwo(vs, ops, Init(parts), tracked, c, k, i, j);
    } else {
      BagAtLeast(vs, ops, Init(parts), tracked, c, k, i);
    }
  }

  lemma {:induction false} BagZero(vs: seq<Vertex>, ops: seq<Trie>, parts: seq<seq<nat>>, tracked: seq<VarId>, c: Key, k: Key)
    requires Fits(vs, ops, parts, tracked, c)
    requires forall p :: p in parts ==> PartSize(vs, ops, p, tracked, c, k) == 0
    ensures BagCount(vs, ops, parts, tracked, c, k) == 0
  {
    hide PartSize;
    if parts != [] {
      BagLast(vs, ops, parts, tracked, c, k);
      assert forall p :: p in Init(parts) ==> p in parts;
      BagZero(vs, ops, Init(parts), tracked, c, k);
    }
  }

  lemma {:induction false} BagOnly(vs: seq<Vertex>, ops: seq<Trie>, parts: seq<seq<nat>>, tracked: seq<VarId>, c: Key, k: Key, i: nat)
    requires Fits(vs, ops, parts, tracked, c) && i < |parts|
    requires parts[i] in parts
    requires forall j :: 0 <= j < |parts| && j != i ==> parts[j] in parts && PartSize(vs, ops, parts[j], tracked, c, k) == 0
    ensures BagCount(vs, ops, parts, tracked, c, k) == PartSize(vs, ops, parts[i], tracked, c, k)
  {
    hide BagCount, PartSize;
    var before := Init(parts);
    BagLast(vs, ops, parts, tracked, c, k);
    assert forall j :: 0 <= j < |before| ==> before[j] == parts[j] && before[j] in before;
    if i < |parts| - 1 {
      BagOnly(vs, ops, before, tracked, c, k, i);
    } else {
      forall p | p in before ensures PartSize(vs, ops, p, tracked, c, k) == 0 {
        var j :| 0 <= j < |before| && before[j] == p;
        assert parts[j] == p;
      }
      BagZero(vs, ops, before, tracked, c, k);
    }
  }

  /* ---------- the parts that are lost ---------- */

  /** No part with patterns without variables only has its solution beside those of another part. */
  ghost predicate ScalarsHarmless(g: Graph, ops: seq<Trie>) {
    forall p, q :: p in UnionParts(g) && q in UnionParts(g) && BothAlive(g, ops, p, q) ==> p == q
  }

  ghost predicate BothAlive(g: Graph, ops: seq<Trie>, p: seq<nat>, q: seq<nat>) {
    && Indices(p, |g.vertices|) && Indices(p, |ops|) && Indices(q, |ops|)
    && OnlyScalars(g.vertices, p) && Alive(ops, p) && Alive(ops, q)
  }

  /** A query graph and its operands, before and after preparation. */
  ghost predicate Preparing(g: Graph, ops: seq<Trie>, tracked: seq<VarId>, c: Key, keep: seq<nat>) {
    && Plain(g) && Aligned(g.vertices, ops) && |g.vertices| == |ops| && |c| == |tracked|
    && Prepared(g, ops, keep)
  }

  ghost function Lost(g: Graph, keep: seq<nat>): seq<seq<nat>> {
    LostParts(UnionParts(g), keep)
  }

  lemma LostFits(g: Graph, ops: seq<Trie>, tracked: seq<VarId>, c: Key, keep: seq<nat>)
    requires Preparing(g, ops, tracked, c, keep)
    ensures Fits(g.vertices, ops, Lost(g, keep), tracked, c) && Fits(g.vertices, ops, UnionParts(g), tracked, c)
  {
    hide Plain, Prepared, UnionParts;
    forall p | p in UnionParts(g) ensures Indices(p, |g.vertices|) { PartShape(g, p); }
  }

  lemma LostSize(g: Graph, ops: seq<Trie>, tracked: seq<VarId>, c: Key, k: Key, keep: seq<nat>, p: seq<nat>)
    requires Preparing(g, ops, tracked, c, keep) && |k| == |tracked| && p in Lost(g, keep)
    ensures Indices(p, |g.vertices|) && |g.vertices| == |ops|
    ensures PartSize(g.vertices, ops, p, tracked, c, k) == if Alive(ops, p) && k == c then 1 else 0
    ensures Alive(ops, p) ==> OnlyScalars(g.vertices, p)
  {
    LostPart(g, ops, tracked, c, k, keep, p);
  }

  ghost function LostCount(g: Graph, ops: seq<Trie>, tracked: seq<VarId>, c: Key, k: Key, keep: seq<nat>): nat
    requires Preparing(g, ops, tracked, c, keep)
  {
    LostFits(g, ops, tracked, c, keep);
    BagCount(g.vertices, ops, Lost(g, keep), tracked, c, k)
  }

  lemma LostElsewhere(g: Graph, ops: seq<Trie>, tracked: seq<VarId>, c: Key, k: Key, keep: seq<nat>)
    requires Preparing(g, ops, tracked, c, keep) && |k| == |tracked|
    requires k != c || forall p :: p in Lost(g, keep) ==> Indices(p, |ops|) && !Alive(ops, p)
    ensures LostCount(g, ops, tracked, c, k, keep) == 0
  {
    hide BagCount, PartSize, Preparing, Alive, Lost;
    LostFits(g, ops, tracked, c, keep);
    forall p | p in Lost(g, keep) ensures PartSize(g.vertices, ops, p, tracked, c, k) == 0 {
      LostSize(g, ops, tracked, c, k, keep, p);
    }
    BagZero(g.vertices, ops, Lost(g, keep), tracked, c, k);
  }

  lemma LostSome(g: Graph, ops: seq<Trie>, tracked: seq<VarId>, c: Key, keep: seq<nat>, p: seq<nat>)
    requires Preparing(g, ops, tracked, c, keep) && p in Lost(g, keep) && Indices(p, |ops|) && Alive(ops, p)
    ensures LostCount(g, ops, tracked, c, c, keep) >= 1
  {
    hide BagCount, PartSize, Preparing, Alive, Lost;
    LostFits(g, ops, tracked, c, keep);
    LostSize(g, ops, tracked, c, c, keep, p);
    var i :| 0 <= i < |Lost(g, keep)| && Lost(g, keep)[i] == p;
    BagAtLeast(g.vertices, ops, Lost(g, keep), tracked, c, c, i);
  }

  lemma LostTwo(g: Graph, ops: seq<Trie>, tracked: seq<VarId>, c: Key, keep: seq<nat>, p: seq<nat>, q: seq<nat>)
    requires Preparing(g, ops, tracked, c, keep) && p in Lost(g, keep) && q in Lost(g, keep) && p != q
    requires Indices(p, |ops|) && Indices(q, |ops|) && Alive(ops, p) && Alive(ops, q)
    ensures LostCount(g, ops, tracked, c, c, keep) >= 2
  {
    hide BagCount, PartSize, Preparing, Alive, Lost;
    LostFits(g, ops, tracked, c, keep);
    LostSize(g, ops, tracked, c, c, keep, p);
    LostSize(g, ops, tracked, c, c, keep, q);
    var i :| 0 <= i < |Lost(g, keep)| && Lost(g, keep)[i] == p;
    var j :| 0 <= j < |Lost(g, keep)| && Lost(g, keep)[j] == q;
    BagAtLeastTwo(g.vertices, ops, Lost(g, keep), tracked, c, c, if i < j then i else j, if i < j then j else i);
  }

  lemma {:induction false} LostDisjoint(parts: seq<seq<nat>>, keep: seq<nat>)
    requires Disjoint(parts)
    ensures Disjoint(LostParts(parts, keep))
  {
    if parts != [] {
      var before := Init(parts);
      assert Disjoint(before);
      LostDisjoint(before, keep);
      var r := LostParts(before, keep);
      if !Touches(Last(parts), keep) {
        forall i, v | 0 <= i < |r| && v in r[i] ensures v !in Last(parts) {
          assert r[i] in r;
          var j :| 0 <= j < |before| && before[j] == r[i];
          assert parts[j] == r[i];
        }
      }
    }
  }

  lemma LostApart(g: Graph, keep: seq<nat>, i: nat, j: nat)
    requires i < |Lost(g, keep)| && j < |Lost(g, keep)| && i != j
    ensures Lost(g, keep)[i] != Lost(g, keep)[j]
  {
    PartsDisjoint(ArcsOf(g.edges), |g.vertices|);
    LostDisjoint(UnionParts(g), keep);
    var p := Lost(g, keep)[i];
    assert p in Lost(g, keep);
    PartShape(g, p);
    assert p[0] in p;
  }

  lemma LostOne(g: Graph, ops: seq<Trie>, tracked: seq<VarId>, c: Key, keep: seq<nat>, p: seq<nat>)
    requires Preparing(g, ops, tracked, c, keep) && p in Lost(g, keep) && Indices(p, |ops|) && Alive(ops, p)
    requires forall q :: q in Lost(g, keep) && Indices(q, |ops|) && Alive(ops, q) ==> q == p
    ensures LostCount(g, ops, tracked, c, c, keep) == 1
  {
    hide BagCount, PartSize, Preparing, Alive, Lost;
    LostFits(g, ops, tracked, c, keep);
    var lost := Lost(g, keep);
    LostSize(g, ops, tracked, c, c, keep, p);
    var i :| 0 <= i < |lost| && lost[i] == p;
    forall j: nat | j < |lost| && j != i
      ensures lost[j] in lost && Indices(lost[j], |g.vertices|) && PartSize(g.vertices, ops, lost[j], tracked, c, c) == 0
    {
      LostApart(g, keep, i, j);
      LostSize(g, ops, tracked, c, c, keep, lost[j]);
    }
    BagOnly(g.vertices, ops, lost, tracked, c, c, i);
  }

  /* ---------- the counts before and after ---------- */

  /** No vertex is left after pruning, though there were some. */
  ghost predicate FullyPruned(g: Graph, ops: seq<Trie>) {
    g.vertices != [] && forall v: nat :: v < |g.vertices| ==> !Survives(g, EmptyOperands(ops), v)
  }

  /** What the evaluation yields for k. */
  ghost function Evaluated(g: Graph, ops: seq<Trie>, tracked: seq<VarId>, c: Key, k: Key, keep: seq<nat>): nat
    requires Preparing(g, ops, tracked, c, keep)
  {
    if FullyPruned(g, ops) then 0 else GraphCount(Induced(g, keep), Pick(ops, keep), tracked, c, k)
  }

  lemma CountBefore(g: Graph, ops: seq<Trie>, tracked: seq<VarId>, c: Key, k: Key, keep: seq<nat>)
    requires Preparing(g, ops, tracked, c, keep) && g.vertices != []
    ensures GraphCount(g, ops, tracked, c, k)
         == (if keep == [] then 0 else GraphCount(Induced(g, keep), Pick(ops, keep), tracked, c, k))
            + LostCount(g, ops, tracked, c, k, keep)
  {
    assert Indices(keep, |g.vertices|) && Increasing(keep);
    hide Plain, Prepared, BagCount, Aligned, Survives, Pick;
    PreparedDrops(g, ops, keep);
    SelectionBag(g, ops, tracked, c, k, keep);
    assert |Induced(g, keep).vertices| == |keep|;
    if keep == [] {
      NoComponents(Induced(g, keep));
      NoParts(Induced(g, keep).vertices, Pick(ops, keep), tracked, c, k);
    }
  }

  lemma NoComponents(g: Graph)
    requires g.vertices == []
    ensures UnionParts(g) == []
  {
  }

  lemma EmptyCount(g: Graph, ops: seq<Trie>, tracked: seq<VarId>, c: Key, k: Key)
    requires g.vertices == [] && ops == [] && |c| == |tracked| == |k|
    ensures GraphCount(g, ops, tracked, c, k) == if k == c then 1 else 0
  {
    NoVertices(tracked, c, k);
    BagSingle([], [], [], tracked, c, k);
    assert Pick<Vertex>([], []) == [] && Pick<Trie>([], []) == [];
  }

  /** A part is alive exactly when its vertices survive, and lost when none of them is kept. */
  lemma SomePart(g: Graph, ops: seq<Trie>, tracked: seq<VarId>, c: Key, keep: seq<nat>, v: nat) returns (p: seq<nat>)
    requires Preparing(g, ops, tracked, c, keep) && Survives(g, EmptyOperands(ops), v)
    ensures p in UnionParts(g) && v in p && Indices(p, |ops|) && Alive(ops, p)
    ensures v in keep ==> p !in Lost(g, keep)
    ensures keep == [] ==> p in Lost(g, keep)
  {
    hide Plain, Prepared, Aligned;
    p := ComponentsCover(ArcsOf(g.edges), |g.vertices|, v);
    PartSurvives(g, ops, p, v);
  }

  lemma DeadParts(g: Graph, ops: seq<Trie>, tracked: seq<VarId>, c: Key, keep: seq<nat>, p: seq<nat>)
    requires Preparing(g, ops, tracked, c, keep) && FullyPruned(g, ops) && p in UnionParts(g)
    ensures Indices(p, |ops|) && !Alive(ops, p)
  {
    hide Plain, Prepared, Aligned, UnionParts, Survives;
    PartShape(g, p);
    assert p[0] in p;
    PartSurvives(g, ops, p, p[0]);
  }

  lemma ScalarLost(g: Graph, ops: seq<Trie>, tracked: seq<VarId>, c: Key, keep: seq<nat>, p: seq<nat>)
    requires Preparing(g, ops, tracked, c, keep) && p in UnionParts(g) && Indices(p, |g.vertices|) && OnlyScalars(g.vertices, p)
    ensures p in Lost(g, keep)
  {
    hide Plain, Aligned, UnionParts, Survives;
    forall v: nat | v in p ensures v !in keep {
      var i :| 0 <= i < |p| && p[i] == v;
    }
  }

  /** With vertices left to evaluate, nothing may be lost. */
  lemma ExactWithVertices(g: Graph, ops: seq<Trie>, tracked: seq<VarId>, c: Key, keep: seq<nat>)
    requires Preparing(g, ops, tracked, c, keep) && keep != []
    ensures LostCount(g, ops, tracked, c, c, keep) == 0 <==> ScalarsHarmless(g, ops)
  {
    assert |c| == |tracked|;
    hide Preparing, LostCount, Survives, Lost, BothAlive, Alive;
    assert keep[0] in keep;
    KeptSurvives(g, ops, tracked, c, keep, keep[0]);
    var q := SomePart(g, ops, tracked, c, keep, keep[0]);
    if ScalarsHarmless(g, ops) {
      forall p | p in Lost(g, keep) ensures Indices(p, |ops|) && !Alive(ops, p) {
        HarmlessLost(g, ops, tracked, c, keep, p, q);
      }
      LostElsewhere(g, ops, tracked, c, c, keep);
    } else {
      var p, r :| p in UnionParts(g) && r in UnionParts(g) && BothAlive(g, ops, p, r) && p != r;
      HarmfulLost(g, ops, tracked, c, keep, p, r);
    }
  }

  lemma HarmlessLost(g: Graph, ops: seq<Trie>, tracked: seq<VarId>, c: Key, keep: seq<nat>, p: seq<nat>, q: seq<nat>)
    requires Preparing(g, ops, tracked, c, keep) && ScalarsHarmless(g, ops) && p in Lost(g, keep)
    requires q in UnionParts(g) && Indices(q, |ops|) && Alive(ops, q)
    ensures Indices(p, |ops|) && (Alive(ops, p) ==> p == q)
  {
    assert |c| == |tracked|;
    hide Preparing, Lost;
    LostSize(g, ops, tracked, c, c, keep, p);
    LostIn(g, keep, p);
    assert Alive(ops, p) ==> BothAlive(g, ops, p, q);
  }

  lemma HarmfulLost(g: Graph, ops: seq<Trie>, tracked: seq<VarId>, c: Key, keep: seq<nat>, p: seq<nat>, r: seq<nat>)
    requires Preparing(g, ops, tracked, c, keep) && p in UnionParts(g) && BothAlive(g, ops, p, r)
    ensures LostCount(g, ops, tracked, c, c, keep) >= 1
  {
    hide Preparing, Lost, LostCount;
    ScalarLost(g, ops, tracked, c, keep, p);
    LostSome(g, ops, tracked, c, keep, p);
  }

  lemma LostIn(g: Graph, keep: seq<nat>, p: seq<nat>)
    requires p in Lost(g, keep)
    ensures p in UnionParts(g)
  {
  }

  lemma KeptSurvives(g: Graph, ops: seq<Trie>, tracked: seq<VarId>, c: Key, keep: seq<nat>, v: nat)
    requires Preparing(g, ops, tracked, c, keep) && v in keep
    ensures Survives(g, EmptyOperands(ops), v)
  {
  }

  /** With no vertex left after dropping patterns without variables, exactly one part may have been alive. */
  lemma ExactWithoutVertices(g: Graph, ops: seq<Trie>, tracked: seq<VarId>, c: Key, keep: seq<nat>)
    requires Preparing(g, ops, tracked, c, keep) && keep == [] && g.vertices != [] && !FullyPruned(g, ops)
    ensures LostCount(g, ops, tracked, c, c, keep) == 1 <==> ScalarsHarmless(g, ops)
  {
    assert |c| == |tracked|;
    hide Preparing, LostCount, Survives, Lost, BothAlive, Alive;
    var v: nat :| Survives(g, EmptyOperands(ops), v);
    var q := SomePart(g, ops, tracked, c, keep, v);
    if ScalarsHarmless(g, ops) {
      forall p | p in Lost(g, keep) && Indices(p, |ops|) && Alive(ops, p) ensures p == q {
        HarmlessLost(g, ops, tracked, c, keep, p, q);
      }
      LostOne(g, ops, tracked, c, keep, q);
    } else {
      var p, r :| p in UnionParts(g) && r in UnionParts(g) && BothAlive(g, ops, p, r) && p != r;
      AliveBoth(g, ops, p, r);
      AllLost(g, keep, p);
      AllLost(g, keep, r);
      LostTwo(g, ops, tracked, c, keep, p, r);
    }
  }

  lemma AliveBoth(g: Graph, ops: seq<Trie>, p: seq<nat>, r: seq<nat>)
    requires BothAlive(g, ops, p, r)
    ensures Indices(p, |ops|) && Indices(r, |ops|) && Alive(ops, p) && Alive(ops, r)
  {
  }

  lemma AllLost(g: Graph, keep: seq<nat>, p: seq<nat>)
    requires keep == [] && p in UnionParts(g)
    ensures p in Lost(g, keep)
  {
  }

  /** All keys get their count. */
  ghost predicate AllCounted(g: Graph, ops: seq<Trie>, tracked: seq<VarId>, c: Key, keep: seq<nat>)
    requires Preparing(g, ops, tracked, c, keep)
  {
    forall k: Key :: |k| == |tracked| ==> Evaluated(g, ops, tracked, c, k, keep) == GraphCount(g, ops, tracked, c, k)
  }

  /**
   Preparation keeps the bag exactly when no component made of patterns without
   variables has its solution beside those of another component.
   */
  lemma PreparationExactly(g: Graph, ops: seq<Trie>, tracked: seq<VarId>, c: Key, keep: seq<nat>)
    requires Preparing(g, ops, tracked, c, keep)
    ensures AllCounted(g, ops, tracked, c, keep) <==> ScalarsHarmless(g, ops)
  {
    assert |Induced(g, keep).vertices| == |keep| && |Pick(ops, keep)| == |keep|;
    hide Plain, Prepared, Aligned, GraphCount, LostCount, ScalarsHarmless, Pick;
    if g.vertices == [] {
      NothingToPrepare(g, ops, tracked, c, keep);
    } else if FullyPruned(g, ops) {
      PrunedAway(g, ops, tracked, c, keep);
    } else {
      AllCountedAt(g, ops, tracked, c, keep);
      if keep == [] {
        ExactWithoutVertices(g, ops, tracked, c, keep);
      } else {
        ExactWithVertices(g, ops, tracked, c, keep);
      }
    }
  }

  /** The counts agree for all keys exactly when what is lost is what an empty graph stands for. */
  lemma AllCountedAt(g: Graph, ops: seq<Trie>, tracked: seq<VarId>, c: Key, keep: seq<nat>)
    requires Preparing(g, ops, tracked, c, keep) && !FullyPruned(g, ops) && g.vertices != []
    ensures AllCounted(g, ops, tracked, c, keep) <==>
            LostCount(g, ops, tracked, c, c, keep) == if keep == [] then 1 else 0
  {
    assert |c| == |tracked|;
    hide Preparing, GraphCount, LostCount, Evaluated;
    EvaluatedAt(g, ops, tracked, c, c, keep);
    if LostCount(g, ops, tracked, c, c, keep) == if keep == [] then 1 else 0 {
      forall k: Key | |k| == |tracked| ensures Evaluated(g, ops, tracked, c, k, keep) == GraphCount(g, ops, tracked, c, k) {
        EvaluatedAt(g, ops, tracked, c, k, keep);
      }
    }
  }

  lemma EvaluatedAt(g: Graph, ops: seq<Trie>, tracked: seq<VarId>, c: Key, k: Key, keep: seq<nat>)
    requires Preparing(g, ops, tracked, c, keep) && !FullyPruned(g, ops) && g.vertices != [] && |k| == |tracked|
    ensures |g.vertices| == |ops| && |c| == |tracked|
    ensures Evaluated(g, ops, tracked, c, k, keep) + LostCount(g, ops, tracked, c, k, keep)
         == GraphCount(g, ops, tracked, c, k) + (if keep == [] && k == c then 1 else 0)
    ensures k != c ==> LostCount(g, ops, tracked, c, k, keep) == 0
  {
    assert |Induced(g, keep).vertices| == |keep| && |Pick(ops, keep)| == |keep|;
    hide Plain, Prepared, Aligned, GraphCount, LostCount, Pick, Survives;
    CountBefore(g, ops, tracked, c, k, keep);
    if k != c {
      LostElsewhere(g, ops, tracked, c, k, keep);
    }
    if keep == [] {
      EmptyCount(Induced(g, keep), Pick(ops, keep), tracked, c, k);
    }
  }

  /* ---------- what comes out of every query ---------- */

  /** The parts without an empty operand. */
  ghost function AliveParts(g: Graph, ops: seq<Trie>): set<seq<nat>> {
    set p | p in UnionParts(g) && Indices(p, |ops|) && Alive(ops, p)
  }

  /** Those of them that hold patterns without variables only. */
  ghost function ScalarParts(g: Graph, ops: seq<Trie>): set<seq<nat>> {
    set p | p in UnionParts(g) && Indices(p, |ops|) && Alive(ops, p) && Indices(p, |g.vertices|) && OnlyScalars(g.vertices, p)
  }

  ghost predicate NoneTwice(parts: seq<seq<nat>>) {
    forall i, j :: 0 <= i < j < |parts| ==> parts[i] != parts[j]
  }

  ghost predicate SizeOne(vs: seq<Vertex>, ops: seq<Trie>, tracked: seq<VarId>, c: Key, k: Key, s: set<seq<nat>>, p: seq<nat>)
    requires |vs| == |ops| && |c| == |tracked|
  {
    Indices(p, |vs|) && PartSize(vs, ops, p, tracked, c, k) == if p in s then 1 else 0
  }

  lemma {:induction false} BagOfOnes(vs: seq<Vertex>, ops: seq<Trie>, parts: seq<seq<nat>>, tracked: seq<VarId>, c: Key, k: Key, s: set<seq<nat>>)
    requires Fits(vs, ops, parts, tracked, c) && NoneTwice(parts)
    requires forall p :: p in parts ==> SizeOne(vs, ops, tracked, c, k, s, p)
    requires forall p :: p in s ==> p in parts
    ensures BagCount(vs, ops, parts, tracked, c, k) == |s|
    decreases |parts|
  {
    hide BagCount, PartSize;
    if parts == [] {
      BagZero(vs, ops, parts, tracked, c, k);
      assert s == {};
    } else {
      BagLast(vs, ops, parts, tracked, c, k);
      var before, p := Init(parts), Last(parts);
      NotBefore(parts);
      forall q | q in before ensures q in parts && SizeOne(vs, ops, tracked, c, k, s - {p}, q) {
        assert SizeOne(vs, ops, tracked, c, k, s, q);
      }
      BagOfOnes(vs, ops, before, tracked, c, k, s - {p});
      assert SizeOne(vs, ops, tracked, c, k, s, p);
    }
  }

  lemma NotBefore(parts: seq<seq<nat>>)
    requires NoneTwice(parts) && parts != []
    ensures NoneTwice(Init(parts)) && Last(parts) !in Init(parts)
    ensures forall p :: p in parts <==> p in Init(parts) || p == Last(parts)
  {
    var n := |parts| - 1;
    assert forall i :: 0 <= i < n ==> Init(parts)[i] == parts[i];
    assert parts[n] == Last(parts);
  }

  /** What is lost is one solution for each live part of patterns without variables. */
  lemma LostScalars(g: Graph, ops: seq<Trie>, tracked: seq<VarId>, c: Key, keep: seq<nat>)
    requires Preparing(g, ops, tracked, c, keep)
    ensures LostCount(g, ops, tracked, c, c, keep) == |ScalarParts(g, ops)|
  {
    assert |c| == |tracked|;
    hide BagCount, PartSize, Preparing, Alive, Lost, OnlyScalars, UnionParts;
    LostFits(g, ops, tracked, c, keep);
    var lost, s := Lost(g, keep), ScalarParts(g, ops);
    forall i: nat, j: nat | i < j < |lost| ensures lost[i] != lost[j] {
      LostApart(g, keep, i, j);
    }
    forall p | p in lost ensures SizeOne(g.vertices, ops, tracked, c, c, s, p) {
      LostSize(g, ops, tracked, c, c, keep, p);
      LostIn(g, keep, p);
    }
    forall p | p in s ensures p in lost {
      ScalarLost(g, ops, tracked, c, keep, p);
    }
    BagOfOnes(g.vertices, ops, lost, tracked, c, c, s);
  }

  /** Nothing is kept exactly when all live parts hold patterns without variables only. */
  lemma KeptExactly(g: Graph, ops: seq<Trie>, tracked: seq<VarId>, c: Key, keep: seq<nat>)
    requires Preparing(g, ops, tracked, c, keep)
    ensures keep == [] <==> AliveParts(g, ops) == ScalarParts(g, ops)
  {
    assert |c| == |tracked| && |g.vertices| == |ops|;
    hide Preparing, Lost, Alive, OnlyScalars, UnionParts, Survives;
    if keep == [] {
      forall p | p in AliveParts(g, ops) ensures p in ScalarParts(g, ops) {
        AllLost(g, keep, p);
        LostSize(g, ops, tracked, c, c, keep, p);
      }
      assert AliveParts(g, ops) == ScalarParts(g, ops);
    } else {
      assert keep[0] in keep;
      KeptSurvives(g, ops, tracked, c, keep, keep[0]);
      var q := SomePart(g, ops, tracked, c, keep, keep[0]);
      if q in ScalarParts(g, ops) {
        ScalarLost(g, ops, tracked, c, keep, q);
      }
      assert q in AliveParts(g, ops);
    }
  }

  lemma ScalarsAlive(g: Graph, ops: seq<Trie>)
    ensures ScalarParts(g, ops) <= AliveParts(g, ops) && |ScalarParts(g, ops)| <= |AliveParts(g, ops)|
    ensures |ScalarParts(g, ops)| == |AliveParts(g, ops)| <==> ScalarParts(g, ops) == AliveParts(g, ops)
  {
    hide UnionParts, Alive, OnlyScalars;
    var s, t := ScalarParts(g, ops), AliveParts(g, ops);
    assert s <= t;
    SubsetCard(s, t);
    assert t == s + (t - s);
  }

  /**
   What an evaluation yields: for the unbound key each live part of patterns
   without variables takes its solution along, unless there are only such parts,
   which together leave one.
   */
  lemma EvaluatedExactly(g: Graph, ops: seq<Trie>, tracked: seq<VarId>, c: Key, k: Key, keep: seq<nat>)
    requires Preparing(g, ops, tracked, c, keep) && |k| == |tracked|
    ensures |g.vertices| == |ops| && |c| == |tracked|
    ensures |ScalarParts(g, ops)| <= |AliveParts(g, ops)|
    ensures Evaluated(g, ops, tracked, c, k, keep)
         == if k != c || ScalarParts(g, ops) == {} then GraphCount(g, ops, tracked, c, k)
            else if |ScalarParts(g, ops)| == |AliveParts(g, ops)| then 1
            else GraphCount(g, ops, tracked, c, k) - |ScalarParts(g, ops)|
  {
    assert |g.vertices| == |ops| && |c| == |tracked|;
    hide Preparing, GraphCount, Evaluated, LostCount, ScalarParts, AliveParts, AllCounted;
    ScalarsAlive(g, ops);
    LostScalars(g, ops, tracked, c, keep);
    if g.vertices == [] {
      NothingToPrepare(g, ops, tracked, c, keep);
      NoScalarParts(g, ops);
      CountedAt(g, ops, tracked, c, k, keep);
    } else if FullyPruned(g, ops) {
      PrunedAway(g, ops, tracked, c, keep);
      NoneAlive(g, ops, tracked, c, keep);
      CountedAt(g, ops, tracked, c, k, keep);
    } else {
      EvaluatedAt(g, ops, tracked, c, k, keep);
      KeptExactly(g, ops, tracked, c, keep);
      if keep == [] {
        SomeAlive(g, ops, tracked, c, keep);
        EvaluatedNone(g, ops, tracked, c, k, keep);
      }
    }
  }

  lemma CountedAt(g: Graph, ops: seq<Trie>, tracked: seq<VarId>, c: Key, k: Key, keep: seq<nat>)
    requires Preparing(g, ops, tracked, c, keep) && AllCounted(g, ops, tracked, c, keep) && |k| == |tracked|
    ensures |g.vertices| == |ops| && |c| == |tracked|
    ensures Evaluated(g, ops, tracked, c, k, keep) == GraphCount(g, ops, tracked, c, k)
  {
    hide Evaluated, GraphCount;
  }

  lemma NoScalarParts(g: Graph, ops: seq<Trie>)
    requires g.vertices == []
    ensures ScalarParts(g, ops) == {}
  {
    hide UnionParts;
    NoComponents(g);
  }

  lemma NoneAlive(g: Graph, ops: seq<Trie>, tracked: seq<VarId>, c: Key, keep: seq<nat>)
    requires Preparing(g, ops, tracked, c, keep) && FullyPruned(g, ops)
    ensures ScalarParts(g, ops) == {}
  {
    hide Preparing, FullyPruned, UnionParts, Alive, OnlyScalars;
    forall p | p in UnionParts(g) ensures Indices(p, |ops|) && !Alive(ops, p) {
      DeadParts(g, ops, tracked, c, keep, p);
    }
  }

  lemma SomeAlive(g: Graph, ops: seq<Trie>, tracked: seq<VarId>, c: Key, keep: seq<nat>)
    requires Preparing(g, ops, tracked, c, keep) && g.vertices != [] && !FullyPruned(g, ops)
    ensures AliveParts(g, ops) != {}
  {
    assert |c| == |tracked|;
    hide Preparing, Survives, Alive, UnionParts, Lost;
    var v: nat :| Survives(g, EmptyOperands(ops), v);
    var q := SomePart(g, ops, tracked, c, keep, v);
    assert q in AliveParts(g, ops);
  }

  lemma EvaluatedNone(g: Graph, ops: seq<Trie>, tracked: seq<VarId>, c: Key, k: Key, keep: seq<nat>)
    requires Preparing(g, ops, tracked, c, keep) && keep == [] && !FullyPruned(g, ops) && |k| == |tracked|
    ensures Evaluated(g, ops, tracked, c, k, keep) == if k == c then 1 else 0
  {
    assert |Induced(g, keep).vertices| == |keep| && |Pick(ops, keep)| == |keep|;
    hide Preparing, FullyPruned, GraphCount, Pick;
    EmptyCount(Induced(g, keep), Pick(ops, keep), tracked, c, k);
  }

  lemma NothingToPrepare(g: Graph, ops: seq<Trie>, tracked: seq<VarId>, c: Key, keep: seq<nat>)
    requires Preparing(g, ops, tracked, c, keep) && g.vertices == []
    ensures AllCounted(g, ops, tracked, c, keep) && ScalarsHarmless(g, ops)
  {
    hide Plain, Aligned, GraphCount;
    NoComponents(g);
    IncreasingShort(keep, 0);
    forall k: Key | |k| == |tracked| ensures Evaluated(g, ops, tracked, c, k, keep) == GraphCount(g, ops, tracked, c, k) {
      EmptyCount(g, ops, tracked, c, k);
      EmptyCount(Induced(g, keep), Pick(ops, keep), tracked, c, k);
    }
  }

  lemma PrunedAway(g: Graph, ops: seq<Trie>, tracked: seq<VarId>, c: Key, keep: seq<nat>)
    requires Preparing(g, ops, tracked, c, keep) && FullyPruned(g, ops)
    ensures AllCounted(g, ops, tracked, c, keep) && ScalarsHarmless(g, ops)
  {
    hide Plain, Aligned, GraphCount, LostCount, UnionParts, Alive, Survives;
    forall p | p in UnionParts(g) ensures Indices(p, |ops|) && !Alive(ops, p) {
      DeadParts(g, ops, tracked, c, keep, p);
    }
    NoneKept(g, ops, tracked, c, keep);
    forall k: Key | |k| == |tracked| ensures Evaluated(g, ops, tracked, c, k, keep) == GraphCount(g, ops, tracked, c, k) {
      CountBefore(g, ops, tracked, c, k, keep);
      LostElsewhere(g, ops, tracked, c, k, keep);
    }
  }

  lemma NoneKept(g: Graph, ops: seq<Trie>, tracked: seq<VarId>, c: Key, keep: seq<nat>)
    requires Preparing(g, ops, tracked, c, keep) && FullyPruned(g, ops)
    ensures keep == []
  {
    hide Plain, Aligned, Survives;
    forall v: nat ensures v !in keep {
      if v < |g.vertices| {
        assert !Survives(g, EmptyOperands(ops), v);
      }
    }
    if keep != [] {
      HasMember(keep);
    }
  }

  lemma HasMember(keep: seq<nat>)
    requires keep != []
    ensures exists v: nat :: v in keep
  {
    assert keep[0] in keep;
  }

  /* ---------- the evaluation ---------- */

  function UnboundKey(width: nat): (k: Key)
    ensures |k| == width && forall i :: 0 <= i < width ==> k[i].None?
  {
    seq(width, _ => None)
  }

  lemma UnboundCleared(tracked: seq<VarId>, d: set<VarId>)
    ensures Cleared(tracked, UnboundKey(|tracked|), d) == UnboundKey(|tracked|)
  {
  }

  /** What a query graph needs to be evaluated. */
  ghost predicate Query(g: Graph, ops: seq<Trie>, tracked: seq<VarId>) {
    && Plain(g) && Aligned(g.vertices, ops) && |g.vertices| == |ops|
    && FiltersOk(g.vertices, tracked) && RepeatsTracked(g.vertices, tracked) && Distinct(tracked)
  }

  lemma PreparedEvaluable(g: Graph, ops: seq<Trie>, tracked: seq<VarId>, keep: seq<nat>)
    requires Query(g, ops, tracked) && Prepared(g, ops, keep)
    ensures Evaluable(Induced(g, keep), Pick(ops, keep), tracked)
    ensures DataVars(Pick(g.vertices, keep)) <= DataVars(g.vertices)
  {
    hide Plain, FiltersOk, Survives, Aligned, DataVars;
    InducedPlain(g, keep);
    PickAligned(g.vertices, ops, keep);
    FiltersOkPick(g.vertices, tracked, keep);
    PickDataVars(g.vertices, keep, Range(|g.vertices|));
    PickAll(g.vertices);
    PreparedLive(g, ops, keep);
    PickRepeats(g.vertices, tracked, keep);
  }

  lemma PickRepeats(vs: seq<Vertex>, tracked: seq<VarId>, keep: seq<nat>)
    requires Indices(keep, |vs|) && RepeatsTracked(vs, tracked)
    ensures RepeatsTracked(Pick(vs, keep), tracked)
  {
  }

  lemma PreparedLive(g: Graph, ops: seq<Trie>, keep: seq<nat>)
    requires |g.vertices| == |ops| && Prepared(g, ops, keep)
    ensures Live(Pick(g.vertices, keep), Pick(ops, keep))
  {
    hide Survives, Increasing, Pick, EmptyOperands;
    var vs, us := Pick(g.vertices, keep), Pick(ops, keep);
    forall i: nat | i < |keep| && vs[i].Operand? ensures us[i].rows != {} && vs[i].vars != [] {
      assert keep[i] in keep && vs[i] == g.vertices[keep[i]] && us[i] == ops[keep[i]];
      SurvivorFull(g, ops, keep[i]);
    }
  }

  lemma SurvivorFull(g: Graph, ops: seq<Trie>, v: nat)
    requires |g.vertices| == |ops| && Survives(g, EmptyOperands(ops), v)
    ensures ops[v].rows != {}
  {
    ReachRefl(MandatoryArcs(g), v);
  }

  /**
   Evaluates a query graph over its operands. The values yielded for each key
   sum to the number of solutions of the graph that project to it. Only the
   unbound key lacks one for each live union component of patterns without
   variables if there is another live component, and has one if there are only
   such. So all keys get their number exactly when these are harmless. With every
   variable tracked each entry stands for one solution, unless no variable is
   left and one entry counts them all.
   */
  method Evaluate(g: Graph, ops: seq<Trie>, tracked: seq<VarId>, mode: CountIndex) returns (ys: seq<CountedEntry>)
    requires Query(g, ops, tracked) && |g.vertices| == |ops| && |ops| < 0x100
    requires mode.ByComponent? ==> DataVars(g.vertices) <= Elements(tracked)
    ensures Proper(ys, |tracked|) || ys == [CountedEntry(UnboundKey(|tracked|), 0)]
    ensures |ScalarParts(g, ops)| <= |AliveParts(g, ops)|
    ensures forall k: Key :: |k| == |tracked| && (k != UnboundKey(|tracked|) || ScalarParts(g, ops) == {}) ==>
              Total(ys, k) == GraphCount(g, ops, tracked, UnboundKey(|tracked|), k)
    ensures ScalarParts(g, ops) != {} ==>
              Total(ys, UnboundKey(|tracked|))
              == if |ScalarParts(g, ops)| == |AliveParts(g, ops)| then 1
                 else GraphCount(g, ops, tracked, UnboundKey(|tracked|), UnboundKey(|tracked|)) - |ScalarParts(g, ops)|
    ensures (forall k: Key :: |k| == |tracked| ==>
               Total(ys, k) == GraphCount(g, ops, tracked, UnboundKey(|tracked|), k))
       <==> ScalarsHarmless(g, ops)
    ensures DataVars(g.vertices) <= Elements(tracked) ==> AllOnes(ys) || (|ys| == 1 && ys[0].key == UnboundKey(|tracked|))
  {
    hide AllOnes;
    hide Query, GraphCount, Evaluable, ScalarsHarmless, Prepared, DataVars, Survives, Yielded, Cleared, AllTrackedVarsDone, Pick, ScalarParts, AliveParts;
    ghost var c := UnboundKey(|tracked|);
    QueryPlain(g, ops, tracked);
    var entry := new Entry(UnboundKey(|tracked|), 1);
    var alreadyEmpty := g.vertices == [];
    var pruned, prunedOps, a := PruneEmptyOperands(g, ops);
    var fullyPruned := pruned.vertices == [] && !alreadyEmpty;
    PrunedWellFormed(g, a);
    var final, finalOps, b := RemoveRankZeroOperands(pruned, prunedOps);
    ghost var keep := Pick(a, b);
    BothSteps(g, ops, tracked, a, b);
    PreparedEvaluable(g, ops, tracked, keep);
    PreparationExactly(g, ops, tracked, c, keep);
    forall k: Key | |k| == |tracked|
      ensures Evaluated(g, ops, tracked, c, k, keep)
           == if k != c || ScalarParts(g, ops) == {} then GraphCount(g, ops, tracked, c, k)
              else if |ScalarParts(g, ops)| == |AliveParts(g, ops)| then 1
              else GraphCount(g, ops, tracked, c, k) - |ScalarParts(g, ops)|
    {
      EvaluatedExactly(g, ops, tracked, c, k, keep);
    }
    ScalarsAlive(g, ops);
    assert fullyPruned == FullyPruned(g, ops) by { PrunedFully(g, ops, a); }
    if fullyPruned {
      ys := [];
      NoOnes();
      forall k: Key ensures Total(ys, k) == 0 { EmptyTotal(k); }
    } else {
      SameLength(final, finalOps, tracked);
      ys := Project(final, finalOps, tracked, mode, entry);
    }
  }

  lemma NoOnes()
    ensures AllOnes([])
  {
  }

  lemma SameLength(g: Graph, ops: seq<Trie>, tracked: seq<VarId>)
    requires Evaluable(g, ops, tracked)
    ensures |g.vertices| == |ops|
  {
  }

  /** The entries of the prepared graph; without tracked variables one entry, whose value may be zero. */
  method Project(g: Graph, ops: seq<Trie>, tracked: seq<VarId>, mode: CountIndex, entry: Entry) returns (ys: seq<CountedEntry>)
    requires Ready(g, ops, tracked, mode, entry.key) && entry.key == UnboundKey(|tracked|)
    modifies entry
    ensures Proper(ys, |tracked|) || ys == [CountedEntry(UnboundKey(|tracked|), 0)]
    ensures forall k: Key :: |k| == |tracked| ==> Total(ys, k) == GraphCount(g, ops, tracked, UnboundKey(|tracked|), k)
    ensures DataVars(g.vertices) <= Elements(tracked) ==> AllOnes(ys) || (|ys| == 1 && ys[0].key == UnboundKey(|tracked|))
  {
    hide AllOnes;
    hide GraphCount, Evaluable, DataVars, Cleared, AllTrackedVarsDone, Total;
    ghost var c := entry.key;
    UnboundCleared(tracked, DataVars(g.vertices));
    if AllTrackedVarsDone(g.vertices, tracked) {
      GetSubCount(g, ops, tracked, entry);
      ys := [entry.Snapshot()];
      forall k: Key | |k| == |tracked| ensures Total(ys, k) == GraphCount(g, ops, tracked, c, k) {
        TotalOne(ys[0], k);
        if k != c {
          DoneCount(g, ops, tracked, c, k);
        }
      }
    } else {
      ys := GetSubOperator(g, ops, tracked, mode, entry);
    }
  }

  /** Without tracked variables no solution projects to another key. */
  lemma DoneCount(g: Graph, ops: seq<Trie>, tracked: seq<VarId>, c: Key, k: Key)
    requires |g.vertices| == |ops| && |c| == |tracked| && AllTrackedVarsDone(g.vertices, tracked) && k != c
    ensures GraphCount(g, ops, tracked, c, k) == 0
  {
    hide Matching, DataVars;
    forall p | p in PartsOf(g)
      ensures Indices(p, |g.vertices|) && PartSize(g.vertices, ops, p, tracked, c, k) == 0
    {
      PickDataVars(g.vertices, p, Range(|g.vertices|));
      PickAll(g.vertices);
      DoneMatching(Pick(g.vertices, p), Pick(ops, p), tracked, c, k);
    }
    BagZero(g.vertices, ops, PartsOf(g), tracked, c, k);
  }

  lemma QueryPlain(g: Graph, ops: seq<Trie>, tracked: seq<VarId>)
    requires Query(g, ops, tracked)
    ensures Plain(g) && WellFormed(g) && Aligned(g.vertices, ops)
  {
  }

  lemma PrunedWellFormed(g: Graph, a: seq<nat>)
    requires WellFormed(g) && Indices(a, |g.vertices|) && Increasing(a)
    ensures WellFormed(Induced(g, a))
  {
    InducedWellFormed(g, a);
  }

  lemma PrunedFully(g: Graph, ops: seq<Trie>, a: seq<nat>)
    requires Indices(a, |g.vertices|) && forall v: nat :: v in a <==> Survives(g, EmptyOperands(ops), v)
    ensures a == [] && g.vertices != [] <==> FullyPruned(g, ops)
  {
    hide Survives;
    if a != [] {
      assert a[0] in a;
    }
  }

  lemma BothSteps(g: Graph, ops: seq<Trie>, tracked: seq<VarId>, a: seq<nat>, b: seq<nat>)
    requires Query(g, ops, tracked) && |g.vertices| == |ops|
    requires Indices(a, |g.vertices|) && Increasing(a) && Indices(b, |a|) && Increasing(b)
    requires forall v: nat :: v in a <==> Survives(g, EmptyOperands(ops), v)
    requires forall j: nat :: j in b <==> j < |a| && !(Induced(g, a).vertices[j].Operand? && Pick(ops, a)[j].depth == 0)
    ensures Indices(Pick(a, b), |g.vertices|) && Prepared(g, ops, Pick(a, b))
    ensures Induced(Induced(g, a), b) == Induced(g, Pick(a, b)) && Pick(Pick(ops, a), b) == Pick(ops, Pick(a, b))
    ensures Preparing(g, ops, tracked, UnboundKey(|tracked|), Pick(a, b))
  {
    hide Plain, Aligned, Survives;
    InducedInduced(g, a, b);
    PickPick(ops, a, b);
    PreparedBoth(g, ops, a, b);
  }

  /* ---------- a union branch that is dropped ---------- */

  lemma LonePart(v: nat, n: nat)
    requires v < n
    ensures [v] in Components({}, n)
  {
    var c := ComponentsCover({}, n, v);
    ComponentShape({}, n, c);
    forall w | w in c ensures w == v {
      ComponentConnected({}, n, c, v, w);
      ClosedReach(Undirected({}), {v}, v, w);
    }
    IncreasingUnique(c, [v]);
  }

  /** A union of a pattern without variables that holds and a pattern that has a solution: the first branch is lost. */
  lemma ScalarBranchLost()
    ensures var g, ops := Graph([Operand([], []), Operand([1], [None])], {}), [TRUE_SCALAR, Trie(1, {[5]})];
            Query(g, ops, [1]) && !ScalarsHarmless(g, ops)
  {
    var g, ops := Graph([Operand([], []), Operand([1], [None])], {}), [TRUE_SCALAR, Trie(1, {[5]})];
    ScalarBranches(g);
    ScalarBranchQuery(g, ops);
    ScalarBranchAlive(g, ops);
    hide *;
    assert [0] != [1] by { assert [0][0] != [1][0]; }
    NotHarmless(g, ops, [0], [1]);
  }

  lemma NotHarmless(g: Graph, ops: seq<Trie>, p: seq<nat>, q: seq<nat>)
    requires p in UnionParts(g) && q in UnionParts(g) && BothAlive(g, ops, p, q) && p != q
    ensures !ScalarsHarmless(g, ops)
  {
    hide UnionParts, BothAlive;
  }

  lemma ScalarBranches(g: Graph)
    requires g.edges == {} && |g.vertices| == 2
    ensures [0] in UnionParts(g) && [1] in UnionParts(g)
  {
    hide Components;
    assert ArcsOf(g.edges) == {};
    LonePart(0, 2);
    LonePart(1, 2);
  }

  lemma ScalarBranchAlive(g: Graph, ops: seq<Trie>)
    requires g == Graph([Operand([], []), Operand([1], [None])], {}) && ops == [TRUE_SCALAR, Trie(1, {[5]})]
    ensures BothAlive(g, ops, [0], [1])
  {
  }

  lemma ScalarBranchQuery(g: Graph, ops: seq<Trie>)
    requires g == Graph([Operand([], []), Operand([1], [None])], {}) && ops == [TRUE_SCALAR, Trie(1, {[5]})]
    ensures Query(g, ops, [1])
  {
    assert forall u: nat, v: nat :: !Adj(g, u, v);
    NoRepeats(g);
  }

  lemma NoRepeats(g: Graph)
    requires forall i :: 0 <= i < |g.vertices| ==> |g.vertices[i].vars| <= 1
    ensures forall tracked :: RepeatsTracked(g.vertices, tracked)
  {
    forall i, x | 0 <= i < |g.vertices| ensures multiset(g.vertices[i].vars)[x] <= 1 {
      if |g.vertices[i].vars| == 1 {
        assert g.vertices[i].vars == [g.vertices[i].vars[0]];
      } else {
        assert g.vertices[i].vars == [];
      }
    }
  }
}
