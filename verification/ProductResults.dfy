/**
 From materialized components to the solutions of the clique they make up.
 */
module ProductResults {
  import opened Graphs
  import opened Tries
  import opened Projection
  import opened JoinProof
  import opened CartesianProof
  import opened EngineFacts
  import opened EngineSteps
  import opened Entries
  import opened Odometer
  import opened CartesianResult
  import opened ProductSteps
  import opened ProductEmission

  /** m holds, for every key, the number of solutions of the component that project to it. */
  ghost predicate Materialized(g: Graph, ops: seq<Trie>, tracked: seq<VarId>, c: Key, m: SubResult) {
    && |g.vertices| == |ops| && |c| == |tracked|
    && (forall k :: k in m ==> |k| == |tracked| && m[k] > 0)
    && forall k: Key :: |k| == |tracked| ==> (if k in m then m[k] else 0) == GraphCount(g, ops, tracked, c, k)
  }

  lemma CollectedPart(g: Graph, ops: seq<Trie>, tracked: seq<VarId>, c: Key, zs: seq<CountedEntry>, m: SubResult)
    requires Yielded(g, ops, tracked, c, zs) && SumsTo(m, zs)
    ensures Materialized(g, ops, tracked, c, m)
  {
    hide GraphCount, Total;
    forall k | k in m ensures |k| == |tracked| {
      TotalHas(zs, k);
    }
  }

  lemma VectorPart(g: Graph, ops: seq<Trie>, tracked: seq<VarId>, c: Key, m: SubResult, vec: seq<CountedEntry>, width: nat)
    requires Materialized(g, ops, tracked, c, m) && VectorOf(m, vec, width) && m != map[]
    ensures Yielded(g, ops, tracked, c, vec)
  {
    hide GraphCount, Total;
  }

  lemma NonePart(g: Graph, ops: seq<Trie>, tracked: seq<VarId>, c: Key)
    requires Materialized(g, ops, tracked, c, map[])
    ensures Yielded(g, ops, tracked, c, [])
  {
    hide GraphCount;
  }

  /** The components but one, materialized, in order. */
  ghost predicate AllMaterialized(g: Graph, ops: seq<Trie>, tracked: seq<VarId>, c: Key, iter: nat, maps: seq<SubResult>) {
    var parts := CartesianParts(g);
    && |g.vertices| == |ops| && iter < |parts| && |maps| == |parts| - 1
    && forall i :: 0 <= i < |maps| ==>
         var part := AllBut(parts, iter)[i];
         Indices(part, |g.vertices|) && maps[i] != map[]
         && Materialized(Induced(g, part), Pick(ops, part), tracked, c, maps[i])
  }

  lemma PartResultsOf(g: Graph, ops: seq<Trie>, tracked: seq<VarId>, c: Key, iter: nat,
                      maps: seq<SubResult>, subs: seq<seq<CountedEntry>>, ys: seq<CountedEntry>, width: nat)
    requires AllMaterialized(g, ops, tracked, c, iter, maps)
    requires |subs| == |maps| && forall i :: 0 <= i < |maps| ==> VectorOf(maps[i], subs[i], width)
    requires forall i :: 0 <= i < |CartesianParts(g)| ==>
               Indices(CartesianParts(g)[i], |g.vertices|) && Clique(Induced(g, CartesianParts(g)[i]))
    requires Yielded(Induced(g, CartesianParts(g)[iter]), Pick(ops, CartesianParts(g)[iter]), tracked, c, ys)
    ensures PartResults(g, ops, tracked, c, iter, subs, ys)
  {
    hide Yielded, Materialized, VectorOf, Clique, Induced, Pick, CartesianParts;
    forall i | 0 <= i < |subs|
      ensures var part := AllBut(CartesianParts(g), iter)[i];
              Yielded(Induced(g, part), Pick(ops, part), tracked, c, subs[i])
    {
      var part := AllBut(CartesianParts(g), iter)[i];
      VectorPart(Induced(g, part), Pick(ops, part), tracked, c, maps[i], subs[i], width);
    }
  }

  /** Different components write different positions. */
  lemma PositionsApart(g: Graph, tracked: seq<VarId>, i: nat, j: nat, p: nat)
    requires Plain(g) && Clique(g) && i < |CartesianParts(g)| && j < |CartesianParts(g)| && i != j
    requires forall i :: 0 <= i < |CartesianParts(g)| ==> Indices(CartesianParts(g)[i], |g.vertices|)
    requires p in PartPositions(g.vertices, CartesianParts(g), tracked)[i]
    ensures p !in PartPositions(g.vertices, CartesianParts(g), tracked)[j]
  {
    hide Plain, Clique, CartesianParts, DataVars, Pick;
    CartesianPartsFit(g);
    DataApart(g.vertices, CartesianParts(g)[i], CartesianParts(g)[j]);
  }

  lemma YieldedProper(g: Graph, ops: seq<Trie>, tracked: seq<VarId>, c: Key, ys: seq<CountedEntry>)
    requires Yielded(g, ops, tracked, c, ys)
    ensures Proper(ys, |tracked|) && |c| == |tracked|
  {
  }

  lemma ProductShapeOf(g: Graph, ops: seq<Trie>, tracked: seq<VarId>, c: Key, iter: nat,
                       subs: seq<seq<CountedEntry>>, ys: seq<CountedEntry>)
    requires Plain(g) && Clique(g) && PartResults(g, ops, tracked, c, iter, subs, ys)
    requires forall i :: 0 <= i < |subs| ==> subs[i] != []
    ensures var all := PartPositions(g.vertices, CartesianParts(g), tracked);
            ProductShape(subs, AllBut(all, iter), all[iter], |tracked|)
  {
    hide *;
    ResultsShape(g, ops, tracked, c, iter, subs, ys);
    var all := PartPositions(g.vertices, CartesianParts(g), tracked);
    forall i | 0 <= i < |subs| ensures Proper(subs[i], |tracked|) {
      ResultProper(g, ops, tracked, c, iter, subs, ys, i);
    }
    OthersApart(g, tracked, iter);
    ShapeFrom(subs, AllBut(all, iter), all[iter], |tracked|);
  }

  lemma ResultsShape(g: Graph, ops: seq<Trie>, tracked: seq<VarId>, c: Key, iter: nat,
                     subs: seq<seq<CountedEntry>>, ys: seq<CountedEntry>)
    requires PartResults(g, ops, tracked, c, iter, subs, ys)
    ensures iter < |CartesianParts(g)|
    ensures forall i :: 0 <= i < |CartesianParts(g)| ==> Indices(CartesianParts(g)[i], |g.vertices|)
    ensures var all := PartPositions(g.vertices, CartesianParts(g), tracked);
            && |all| == |CartesianParts(g)| && |subs| == |AllBut(all, iter)|
            && Indices(all[iter], |tracked|)
            && forall i :: 0 <= i < |AllBut(all, iter)| ==> Indices(AllBut(all, iter)[i], |tracked|)
  {
    hide Yielded, Clique, Induced, Pick, CartesianParts, DataVars, Indices, TrackedPositions;
  }

  lemma ResultProper(g: Graph, ops: seq<Trie>, tracked: seq<VarId>, c: Key, iter: nat,
                     subs: seq<seq<CountedEntry>>, ys: seq<CountedEntry>, i: nat)
    requires PartResults(g, ops, tracked, c, iter, subs, ys) && i < |subs|
    ensures Proper(subs[i], |tracked|)
  {
    hide Clique, CartesianParts, Pick, Yielded, Induced;
    var part := AllBut(CartesianParts(g), iter)[i];
    YieldedProper(Induced(g, part), Pick(ops, part), tracked, c, subs[i]);
  }

  lemma OthersApart(g: Graph, tracked: seq<VarId>, iter: nat)
    requires Plain(g) && Clique(g) && iter < |CartesianParts(g)|
    requires forall i :: 0 <= i < |CartesianParts(g)| ==> Indices(CartesianParts(g)[i], |g.vertices|)
    ensures var all := PartPositions(g.vertices, CartesianParts(g), tracked);
            Apart(AllBut(all, iter)) && forall i, p :: 0 <= i < |AllBut(all, iter)| && p in AllBut(all, iter)[i] ==> p !in all[iter]
  {
    var all := PartPositions(g.vertices, CartesianParts(g), tracked);
    assert |all| == |CartesianParts(g)|;
    hide Plain, Clique, CartesianParts, PartPositions, Apart, Indices, DataVars, Pick, TrackedPositions;
    forall i: nat, j: nat, p: nat | i < |all| && j < |all| && i != j && p in all[i] ensures p !in all[j] {
      PositionsApart(g, tracked, i, j, p);
    }
    AllButApart(all, iter);
  }

  lemma AllButApart(all: seq<seq<nat>>, iter: nat)
    requires iter < |all|
    requires forall i: nat, j: nat, p: nat :: i < |all| && j < |all| && i != j && p in all[i] ==> p !in all[j]
    ensures Apart(AllBut(all, iter))
    ensures forall i, p :: 0 <= i < |AllBut(all, iter)| && p in AllBut(all, iter)[i] ==> p !in all[iter]
  {
  }

  lemma ShapeFrom(subs: seq<seq<CountedEntry>>, poss: seq<seq<nat>>, iterPoss: seq<nat>, width: nat)
    requires |subs| == |poss| && Apart(poss) && Indices(iterPoss, width)
    requires forall i :: 0 <= i < |poss| ==> Indices(poss[i], width)
    requires forall i, p :: 0 <= i < |poss| && p in poss[i] ==> p !in iterPoss
    requires forall i :: 0 <= i < |subs| ==> Proper(subs[i], width) && subs[i] != []
    ensures ProductShape(subs, poss, iterPoss, width)
  {
    hide Indices, Apart;
  }

  /** What the product emits is what the clique yields. */
  lemma ProductYields(g: Graph, ops: seq<Trie>, tracked: seq<VarId>, c: Key, iter: nat,
                      subs: seq<seq<CountedEntry>>, ys: seq<CountedEntry>, zs: seq<CountedEntry>)
    requires PartResults(g, ops, tracked, c, iter, subs, ys)
    requires Plain(g) && Clique(g) && FiltersOk(g.vertices, tracked) && |c| == |tracked|
    requires var all := PartPositions(g.vertices, CartesianParts(g), tracked);
             EmittedFor(zs, ys, c, all[iter], subs, AllBut(all, iter))
    ensures Yielded(g, ops, tracked, c, zs)
  {
    var all := PartPositions(g.vertices, CartesianParts(g), tracked);
    hide Plain, Clique, FiltersOk, CartesianParts, EmittedAll, Total, GraphCount, Matching, PartPositions, PartResults;
    PartResultsLength(g, ops, tracked, c, iter, subs, ys);
    forall k: Key | |k| == |tracked| ensures Total(zs, k) == GraphCount(g, ops, tracked, c, k) {
      ProductEmits(g, ops, tracked, c, iter, subs, ys, k);
      CliqueCount(g, ops, tracked, c, k);
    }
  }

  lemma PartResultsLength(g: Graph, ops: seq<Trie>, tracked: seq<VarId>, c: Key, iter: nat,
                          subs: seq<seq<CountedEntry>>, ys: seq<CountedEntry>)
    requires PartResults(g, ops, tracked, c, iter, subs, ys)
    ensures |g.vertices| == |ops|
  {
  }

  /** A component without solutions: the clique yields nothing. */
  lemma ProductEmpty(g: Graph, ops: seq<Trie>, tracked: seq<VarId>, c: Key, i: nat)
    requires i < |CartesianParts(g)| && |g.vertices| == |ops| && |c| == |tracked|
    requires Plain(g) && Clique(g) && FiltersOk(g.vertices, tracked)
    requires Indices(CartesianParts(g)[i], |g.vertices|) && Clique(Induced(g, CartesianParts(g)[i]))
    requires Yielded(Induced(g, CartesianParts(g)[i]), Pick(ops, CartesianParts(g)[i]), tracked, c, [])
    ensures Yielded(g, ops, tracked, c, [])
  {
    hide Plain, Clique, FiltersOk, CartesianParts, GraphCount, Matching;
    forall k: Key | |k| == |tracked| ensures Total([], k) == GraphCount(g, ops, tracked, c, k) {
      ProductNone(g, ops, tracked, c, i, k);
      CliqueCount(g, ops, tracked, c, k);
    }
  }

  /* ---------- counting ---------- */

  /** Without tracked variables a sub-result has the entry's key only. */
  lemma OneKey(g: Graph, ops: seq<Trie>, tracked: seq<VarId>, c: Key, m: SubResult, k: Key)
    requires Materialized(g, ops, tracked, c, m) && AllTrackedVarsDone(g.vertices, tracked) && Clique(g) && k in m
    ensures k == c
  {
    hide GraphCount, Matching, Clique, AllTrackedVarsDone;
    if k != c {
      CliqueCount(g, ops, tracked, c, k);
      DoneMatching(g.vertices, ops, tracked, c, k);
    }
  }

  lemma OneEntry(vec: seq<CountedEntry>, c: Key)
    requires vec != [] && forall d :: 0 <= d < |vec| ==> vec[d].key == c && vec[d].value == vec[0].value && vec[d].value > 0
    requires Total(vec, c) == vec[0].value
    ensures |vec| == 1
  {
    hide Total;
    if |vec| >= 2 {
      TwoEntries(vec, c);
    }
  }

  lemma TwoEntries(vec: seq<CountedEntry>, c: Key)
    requires |vec| >= 2 && forall d :: 0 <= d < |vec| ==> vec[d].key == c && vec[d].value == vec[0].value && vec[d].value > 0
    ensures Total(vec, c) > vec[0].value
  {
    assert Last(Init(vec)) == vec[|vec| - 2];
  }

  /** Every sub-result is one entry with key c. */
  ghost predicate OneEach(subs: seq<seq<CountedEntry>>, c: Key) {
    forall i :: 0 <= i < |subs| ==> |subs[i]| == 1 && subs[i][0].key == c
  }

  lemma CountedSubs(g: Graph, ops: seq<Trie>, tracked: seq<VarId>, c: Key, iter: nat,
                    maps: seq<SubResult>, subs: seq<seq<CountedEntry>>, width: nat)
    requires AllMaterialized(g, ops, tracked, c, iter, maps) && AllTrackedVarsDone(g.vertices, tracked)
    requires |subs| == |maps| && forall i :: 0 <= i < |maps| ==> VectorOf(maps[i], subs[i], width) && subs[i] != []
    requires forall i :: 0 <= i < |CartesianParts(g)| ==>
               Indices(CartesianParts(g)[i], |g.vertices|) && Clique(Induced(g, CartesianParts(g)[i]))
    ensures OneEach(subs, c)
  {
    hide Clique, CartesianParts, DataVars, Pick, Total, GraphCount;
    forall i | 0 <= i < |subs| ensures |subs[i]| == 1 && subs[i][0].key == c {
      var part := AllBut(CartesianParts(g), iter)[i];
      PartWithin(g.vertices, part);
      forall d | 0 <= d < |subs[i]| ensures subs[i][d].key == c {
        OneKey(Induced(g, part), Pick(ops, part), tracked, c, maps[i], subs[i][d].key);
      }
      OneEntry(subs[i], c);
    }
  }

  lemma {:induction false} SingletonSums(ws: seq<seq<nat>>, t: seq<nat>)
    requires IsIndex(ws, t) && forall i :: 0 <= i < |ws| ==> |ws[i]| == 1
    ensures SumProduct(ws) == Weight(ws, t)
  {
    hide Sum;
    if ws != [] {
      IndexTail(ws, t);
      assert forall i :: 0 <= i < |ws| - 1 ==> ws[1..][i] == ws[i + 1];
      SingletonSums(ws[1..], t[1..]);
      SumOne(ws[0]);
      SumsAndWeight(ws, t);
    }
  }

  lemma SumsAndWeight(ws: seq<seq<nat>>, t: seq<nat>)
    requires IsIndex(ws, t) && ws != []
    ensures IsIndex(ws[1..], t[1..])
    ensures SumProduct(ws) == Sum(ws[0]) * SumProduct(ws[1..]) && Weight(ws, t) == ws[0][t[0]] * Weight(ws[1..], t[1..])
  {
    IndexTail(ws, t);
  }

  lemma SumOne(s: seq<nat>)
    requires |s| == 1
    ensures Sum(s) == s[0]
  {
    assert Init(s) == [];
    assert Sum([]) == 0;
  }

  /** The product of the first entries is what one entry of the iterated component contributes. */
  lemma CountedProduct(subs: seq<seq<CountedEntry>>, poss: seq<seq<nat>>, t: seq<nat>, iterPoss: seq<nat>, c: Key, v: nat)
    requires OneEach(subs, c) && FitsWidth(subs, poss, |c|) && IsIndex(Values(subs), t) && Indices(iterPoss, |c|)
    ensures EmittedAll(if v == 0 then [] else [CountedEntry(c, v)], c, iterPoss, subs, poss, c) == v * Weight(Values(subs), t)
  {
    hide Weight, SumProduct;
    KeyTupleWeight(subs, poss, t, c);
    SingletonSums(KeyWeights(subs, poss, c), t);
    AgreeSelf(c, iterPoss);
    forall i | 0 <= i < |subs| ensures AgreeAt(subs[i][t[i]].key, c, poss[i]) {
      AgreeSelf(c, poss[i]);
    }
    var y := CountedEntry(c, v);
    assert Init([y]) == [];
    assert EmittedAll([], c, iterPoss, subs, poss, c) == 0;
  }

  lemma AgreeSelf(c: Key, poss: seq<nat>)
    requires Indices(poss, |c|)
    ensures AgreeAt(c, c, poss)
  {
  }

  lemma {:induction false} ShownSame(c: Key, subs: seq<seq<CountedEntry>>, poss: seq<seq<nat>>, t: seq<nat>, n: nat)
    requires FitsWidth(subs, poss, |c|) && |t| == |subs| && n <= |subs| && OneEach(subs, c)
    requires forall i :: 0 <= i < |subs| ==> t[i] < |subs[i]|
    ensures Shown(c, subs, poss, t, n) == c
  {
    if n > 0 {
      ShownSame(c, subs, poss, t, n - 1);
    }
  }

  /** The count of a clique is the product of the counts of its components. */
  lemma ProductCounts(g: Graph, ops: seq<Trie>, tracked: seq<VarId>, c: Key, iter: nat,
                      subs: seq<seq<CountedEntry>>, t: seq<nat>, v: nat)
    requires Plain(g) && Clique(g) && FiltersOk(g.vertices, tracked) && |c| == |tracked| && |g.vertices| == |ops|
    requires PartResults(g, ops, tracked, c, iter, subs, if v == 0 then [] else [CountedEntry(c, v)])
    requires OneEach(subs, c) && IsIndex(Values(subs), t)
    ensures GraphCount(g, ops, tracked, c, c) == v * Weight(Values(subs), t)
  {
    hide Plain, Clique, FiltersOk, CartesianParts, EmittedAll, GraphCount, Matching, Yielded, Weight, IsIndex, Values;
    var all := PartPositions(g.vertices, CartesianParts(g), tracked);
    var ys := if v == 0 then [] else [CountedEntry(c, v)];
    ProductEmits(g, ops, tracked, c, iter, subs, ys, c);
    CliqueCount(g, ops, tracked, c, c);
    CountedProduct(subs, AllBut(all, iter), t, all[iter], c, v);
  }
}
