/**
 The sums an operator keeps while it enumerates, one step at a time.
 */
module EngineSteps {
  import opened Graphs
  import opened Tries
  import opened Semantics
  import opened Projection
  import opened JoinProof
  import opened ProductProof
  import opened LeafProof
  import opened EngineFacts

  /** Every yielded entry is a key over the tracked variables with a positive value. */
  ghost predicate Proper(ys: seq<CountedEntry>, width: nat) {
    forall i :: 0 <= i < |ys| ==> ys[i].value > 0 && |ys[i].key| == width
  }

  /** The values yielded for each key sum to the number of solutions that project to it. */
  ghost predicate Yielded(g: Graph, ops: seq<Trie>, tracked: seq<VarId>, c: Key, ys: seq<CountedEntry>) {
    && |g.vertices| == |ops| && |c| == |tracked| && Proper(ys, |tracked|)
    && forall k: Key :: |k| == |tracked| ==> Total(ys, k) == GraphCount(g, ops, tracked, c, k)
  }

  /* ---------- with every variable tracked ---------- */

  ghost predicate AllOnes(ys: seq<CountedEntry>) {
    forall i :: 0 <= i < |ys| ==> ys[i].value == 1
  }

  lemma {:induction false} TotalAtLeast(ys: seq<CountedEntry>, i: nat)
    requires i < |ys|
    ensures Total(ys, ys[i].key) >= ys[i].value
    decreases |ys|
  {
    if i < |ys| - 1 {
      TotalAtLeast(Init(ys), i);
    }
  }

  /** A key with every variable has at most one solution. */
  lemma KeyDetermines(vs: seq<Vertex>, ops: seq<Trie>, tracked: seq<VarId>, c: Key, k: Key)
    requires |vs| == |ops| && |c| == |tracked| && DataVars(vs) <= Elements(tracked)
    ensures |Matching(vs, ops, tracked, c, k)| <= 1
  {
    var s := Matching(vs, ops, tracked, c, k);
    hide Matching, DataVars;
    forall m, n | m in s && n in s ensures m == n {
      SameSolution(vs, ops, tracked, c, k, m, n);
    }
    if m :| m in s {
      assert s == {m};
    }
  }

  lemma SameSolution(vs: seq<Vertex>, ops: seq<Trie>, tracked: seq<VarId>, c: Key, k: Key, m: Binding, n: Binding)
    requires |vs| == |ops| && |c| == |tracked| && DataVars(vs) <= Elements(tracked)
    requires m in Matching(vs, ops, tracked, c, k) && n in Matching(vs, ops, tracked, c, k)
    ensures m == n
  {
    hide *;
    MatchingKeys(vs, ops, tracked, c, k, m);
    MatchingKeys(vs, ops, tracked, c, k, n);
    MatchingKey(vs, ops, tracked, c, k, m);
    MatchingKey(vs, ops, tracked, c, k, n);
    SameKey(tracked, c, m, n, DataVars(vs));
  }

  lemma MatchingKey(vs: seq<Vertex>, ops: seq<Trie>, tracked: seq<VarId>, c: Key, k: Key, m: Binding)
    requires |vs| == |ops| && |c| == |tracked| && m in Matching(vs, ops, tracked, c, k)
    ensures KeyOf(tracked, c, m) == k
  {
    hide Sols;
  }

  lemma SameKey(tracked: seq<VarId>, c: Key, m: Binding, n: Binding, d: set<VarId>)
    requires |c| == |tracked| && m.Keys == n.Keys == d && d <= Elements(tracked)
    requires KeyOf(tracked, c, m) == KeyOf(tracked, c, n)
    ensures m == n
  {
    forall x | x in m ensures m[x] == n[x] {
      assert x in Elements(tracked);
      var i :| 0 <= i < |tracked| && tracked[i] == x;
      assert KeyOf(tracked, c, m)[i] == KeyOf(tracked, c, n)[i];
    }
  }

  /** With every variable tracked, mutually dependent vertices yield each solution as an entry of value 1. */
  lemma CliqueOnes(g: Graph, ops: seq<Trie>, tracked: seq<VarId>, c: Key, ys: seq<CountedEntry>)
    requires Yielded(g, ops, tracked, c, ys) && Clique(g) && DataVars(g.vertices) <= Elements(tracked)
    ensures AllOnes(ys)
  {
    hide Clique, GraphCount, Total, DataVars, Matching;
    forall i | 0 <= i < |ys| ensures ys[i].value == 1 {
      TotalAtLeast(ys, i);
      CliqueCount(g, ops, tracked, c, ys[i].key);
      KeyDetermines(g.vertices, ops, tracked, c, ys[i].key);
    }
  }

  /* ---------- join ---------- */

  /** The entry before a nested evaluation, seen without the variables that are still open. */
  lemma ClearedAssigned(tracked: seq<VarId>, c: Key, key: Key, data: set<VarId>, x: VarId, v: Term)
    requires Distinct(tracked) && x in data
    requires |c| == |tracked| && c == Cleared(tracked, c, data)
    requires AgreesOutside(tracked, c, key, data)
    requires x in tracked ==> key[IndexIn(tracked, x)] == Some(v)
    ensures Cleared(tracked, key, data - {x}) == Assigned(tracked, c, x, v)
  {
    forall i: nat | i < |tracked|
      ensures Cleared(tracked, key, data - {x})[i] == Assigned(tracked, c, x, v)[i]
    {
      if tracked[i] == x {
        DistinctIndex(tracked, i);
      } else if x in tracked {
        assert IndexIn(tracked, x) != i;
      }
    }
  }

  /** The solutions already enumerated when the join values in done have been resolved. */
  ghost predicate JoinedSoFar(g: Graph, ops: seq<Trie>, tracked: seq<VarId>, c: Key, x: VarId, done: set<Term>, ys: seq<CountedEntry>) {
    && |g.vertices| == |ops| && |c| == |tracked| && Proper(ys, |tracked|)
    && forall k: Key :: |k| == |tracked| ==>
         Total(ys, k) == |ResolvedIn(Matching(g.vertices, ops, tracked, c, k), x, done)|
  }

  lemma JoinedStart(g: Graph, ops: seq<Trie>, tracked: seq<VarId>, c: Key, x: VarId)
    requires |g.vertices| == |ops| && |c| == |tracked|
    ensures JoinedSoFar(g, ops, tracked, c, x, {}, [])
  {
    forall k: Key | |k| == |tracked| ensures ResolvedIn(Matching(g.vertices, ops, tracked, c, k), x, {}) == {} {
    }
  }

  lemma YieldedAt(g: Graph, ops: seq<Trie>, tracked: seq<VarId>, c: Key, ys: seq<CountedEntry>, k: Key)
    requires Yielded(g, ops, tracked, c, ys) && |k| == |tracked|
    ensures |g.vertices| == |ops| && |c| == |tracked| && Total(ys, k) == GraphCount(g, ops, tracked, c, k)
  {
  }

  lemma ProperAppend(ys: seq<CountedEntry>, zs: seq<CountedEntry>, width: nat)
    requires Proper(ys, width) && Proper(zs, width)
    ensures Proper(ys + zs, width)
  {
  }

  lemma JoinedStepAt(g: Graph, ops: seq<Trie>, tracked: seq<VarId>, c: Key, x: VarId, v: Term,
                     g': Graph, ops': seq<Trie>, zs: seq<CountedEntry>, k: Key)
    requires Evaluable(g, ops, tracked) && |g.vertices| == |ops| && |c| == |tracked| == |k|
    requires x in DataVars(g.vertices)
    requires JoinStep(g.vertices, ops, x, v, Kept(g.vertices, x), g'.vertices, ops')
    requires Clique(g')
    requires Yielded(g', ops', tracked, Assigned(tracked, c, x, v), zs)
    ensures Total(zs, k) == |ResolvedIn(Matching(g.vertices, ops, tracked, c, k), x, {v})|
  {
    hide Plain, FiltersOk, Aligned, Live, RepeatsTracked, JoinStep, Matching, ResolvedIn, Assigned, Kept, GraphCount, Clique, Total, DataVars, Yielded;
    var c' := Assigned(tracked, c, x, v);
    YieldedAt(g', ops', tracked, c', zs, k);
    CliqueCount(g', ops', tracked, c', k);
    JoinStepCard(g.vertices, ops, tracked, c, k, x, v, Kept(g.vertices, x), g'.vertices, ops');
  }

  /** One more join value: what the nested evaluation yields is what was missing. */
  lemma JoinedStep(g: Graph, ops: seq<Trie>, tracked: seq<VarId>, c: Key, x: VarId, done: set<Term>, v: Term,
                   g': Graph, ops': seq<Trie>, ys: seq<CountedEntry>, zs: seq<CountedEntry>)
    requires Evaluable(g, ops, tracked) && |g.vertices| == |ops|
    requires x in DataVars(g.vertices) && v !in done
    requires JoinStep(g.vertices, ops, x, v, Kept(g.vertices, x), g'.vertices, ops')
    requires Clique(g')
    requires JoinedSoFar(g, ops, tracked, c, x, done, ys)
    requires |c| == |tracked|
    requires Yielded(g', ops', tracked, Assigned(tracked, c, x, v), zs)
    ensures JoinedSoFar(g, ops, tracked, c, x, done + {v}, ys + zs)
  {
    hide Evaluable, JoinStep, Matching, ResolvedIn, Assigned, Kept, GraphCount, Clique, Total, DataVars;
    ProperAppend(ys, zs, |tracked|);
    forall k: Key | |k| == |tracked|
      ensures Total(ys + zs, k) == |ResolvedIn(Matching(g.vertices, ops, tracked, c, k), x, done + {v})|
    {
      TotalAppend(ys, zs, k);
      JoinedStepAt(g, ops, tracked, c, x, v, g', ops', zs, k);
      ResolvedSplit(Matching(g.vertices, ops, tracked, c, k), x, done, v);
    }
  }

  lemma JoinedAll(g: Graph, ops: seq<Trie>, tracked: seq<VarId>, c: Key, x: VarId, ys: seq<CountedEntry>)
    requires |g.vertices| == |ops| && |c| == |tracked| && x in DataVars(g.vertices) && Clique(g)
    requires JoinedSoFar(g, ops, tracked, c, x, JoinKeys(ops, VarPositions(g.vertices, x)), ys)
    ensures Yielded(g, ops, tracked, c, ys)
  {
    hide Matching, ResolvedIn, GraphCount, Clique, Total, JoinKeys, VarPositions, DataVars;
    forall k: Key | |k| == |tracked| ensures Total(ys, k) == GraphCount(g, ops, tracked, c, k) {
      ResolvedAll(g.vertices, ops, tracked, c, k, x);
      CliqueCount(g, ops, tracked, c, k);
    }
  }

  /* ---------- counting ---------- */

  /** Without tracked variables every solution projects to the entry as it is. */
  lemma DoneMatching(vs: seq<Vertex>, ops: seq<Trie>, tracked: seq<VarId>, c: Key, k: Key)
    requires |vs| == |ops| && |c| == |tracked| && AllTrackedVarsDone(vs, tracked) && k != c
    ensures Matching(vs, ops, tracked, c, k) == {}
  {
    hide DataVars;
    assert forall i :: 0 <= i < |tracked| ==> tracked[i] in Elements(tracked);
    forall m | m in Matching(vs, ops, tracked, c, k) ensures KeyOf(tracked, c, m) == c {
      MatchingIff(vs, ops, tracked, c, k, m);
    }
  }

  lemma ClearedDone(tracked: seq<VarId>, c: Key, data: set<VarId>)
    requires |c| == |tracked| && data !! Elements(tracked)
    ensures Cleared(tracked, c, data) == c
  {
    assert forall i :: 0 <= i < |tracked| ==> tracked[i] in Elements(tracked);
  }

  lemma TotalOne(y: CountedEntry, k: Key)
    ensures Total([y], k) == if y.key == k then y.value else 0
  {
    assert Init([y]) == [] && Total([], k) == 0;
  }

  /** A counted clique yields one entry, or none if its count is zero. */
  lemma CountYields(g: Graph, ops: seq<Trie>, tracked: seq<VarId>, c: Key, value: nat)
    requires |g.vertices| == |ops| && |c| == |tracked| && AllTrackedVarsDone(g.vertices, tracked) && Clique(g)
    requires value == GraphCount(g, ops, tracked, c, c)
    ensures Yielded(g, ops, tracked, c, if value == 0 then [] else [CountedEntry(c, value)])
  {
    hide GraphCount, Matching, Clique, AllTrackedVarsDone;
    var ys := if value == 0 then [] else [CountedEntry(c, value)];
    forall k: Key | |k| == |tracked| ensures Total(ys, k) == GraphCount(g, ops, tracked, c, k) {
      TotalOne(CountedEntry(c, value), k);
      CliqueCount(g, ops, tracked, c, k);
      if k != c {
        DoneMatching(g.vertices, ops, tracked, c, k);
      }
    }
  }

  /** The sum of the counts of the join values in done. */
  lemma CountedStep(g: Graph, ops: seq<Trie>, tracked: seq<VarId>, c: Key, x: VarId, done: set<Term>, v: Term,
                    g': Graph, ops': seq<Trie>)
    requires Evaluable(g, ops, tracked) && |g.vertices| == |ops| && |g'.vertices| == |ops'| && |c| == |tracked|
    requires x in DataVars(g.vertices) && x !in tracked && v !in done
    requires JoinStep(g.vertices, ops, x, v, Kept(g.vertices, x), g'.vertices, ops')
    requires Clique(g')
    ensures |ResolvedIn(Matching(g.vertices, ops, tracked, c, c), x, done + {v})|
         == |ResolvedIn(Matching(g.vertices, ops, tracked, c, c), x, done)| + GraphCount(g', ops', tracked, c, c)
  {
    hide Plain, FiltersOk, Aligned, Live, RepeatsTracked, JoinStep, Matching, ResolvedIn, Kept, GraphCount, Clique, DataVars;
    CliqueCount(g', ops', tracked, c, c);
    JoinStepCard(g.vertices, ops, tracked, c, c, x, v, Kept(g.vertices, x), g'.vertices, ops');
    ResolvedSplit(Matching(g.vertices, ops, tracked, c, c), x, done, v);
  }

  lemma CountedAll(g: Graph, ops: seq<Trie>, tracked: seq<VarId>, c: Key, x: VarId)
    requires |g.vertices| == |ops| && |c| == |tracked| && x in DataVars(g.vertices) && Clique(g)
    ensures |ResolvedIn(Matching(g.vertices, ops, tracked, c, c), x, JoinKeys(ops, VarPositions(g.vertices, x)))|
         == GraphCount(g, ops, tracked, c, c)
  {
    hide Matching, ResolvedIn, GraphCount, Clique, JoinKeys, VarPositions, DataVars;
    ResolvedAll(g.vertices, ops, tracked, c, c, x);
    CliqueCount(g, ops, tracked, c, c);
  }

  /* ---------- union ---------- */

  /** The solutions of the first components have been enumerated. */
  ghost predicate UnitedSoFar(g: Graph, ops: seq<Trie>, tracked: seq<VarId>, c: Key, parts: seq<seq<nat>>, ys: seq<CountedEntry>) {
    && |g.vertices| == |ops| && |c| == |tracked| && Proper(ys, |tracked|)
    && (forall p :: p in parts ==> Indices(p, |g.vertices|))
    && forall k: Key :: |k| == |tracked| ==> Total(ys, k) == BagCount(g.vertices, ops, parts, tracked, c, k)
  }

  lemma BagSnoc(vs: seq<Vertex>, ops: seq<Trie>, parts: seq<seq<nat>>, p: seq<nat>, tracked: seq<VarId>, c: Key, k: Key)
    requires |vs| == |ops| && |c| == |tracked| && Indices(p, |vs|)
    requires forall q :: q in parts ==> Indices(q, |vs|)
    ensures forall q :: q in parts + [p] ==> Indices(q, |vs|)
    ensures BagCount(vs, ops, parts + [p], tracked, c, k)
         == BagCount(vs, ops, parts, tracked, c, k) + |Matching(Pick(vs, p), Pick(ops, p), tracked, c, k)|
  {
    assert Init(parts + [p]) == parts;
  }

  lemma UnitedStep(g: Graph, ops: seq<Trie>, tracked: seq<VarId>, c: Key, parts: seq<seq<nat>>, p: seq<nat>,
                   ys: seq<CountedEntry>, zs: seq<CountedEntry>)
    requires UnitedSoFar(g, ops, tracked, c, parts, ys) && Indices(p, |g.vertices|) && |g.vertices| == |ops|
    requires Clique(Induced(g, p)) && Yielded(Induced(g, p), Pick(ops, p), tracked, c, zs)
    ensures UnitedSoFar(g, ops, tracked, c, parts + [p], ys + zs)
  {
    hide Matching, GraphCount, Clique, Total, BagCount, Pick;
    ProperAppend(ys, zs, |tracked|);
    forall k: Key | |k| == |tracked|
      ensures (forall q :: q in parts + [p] ==> Indices(q, |g.vertices|))
      ensures Total(ys + zs, k) == BagCount(g.vertices, ops, parts + [p], tracked, c, k)
    {
      TotalAppend(ys, zs, k);
      CliqueCount(Induced(g, p), Pick(ops, p), tracked, c, k);
      BagSnoc(g.vertices, ops, parts, p, tracked, c, k);
    }
  }

  lemma CountedUnionStep(g: Graph, ops: seq<Trie>, tracked: seq<VarId>, c: Key, parts: seq<seq<nat>>, p: seq<nat>)
    requires |g.vertices| == |ops| && |c| == |tracked| && Indices(p, |g.vertices|)
    requires forall q :: q in parts ==> Indices(q, |g.vertices|)
    requires Clique(Induced(g, p))
    ensures forall q :: q in parts + [p] ==> Indices(q, |g.vertices|)
    ensures BagCount(g.vertices, ops, parts + [p], tracked, c, c)
         == BagCount(g.vertices, ops, parts, tracked, c, c) + GraphCount(Induced(g, p), Pick(ops, p), tracked, c, c)
  {
    hide Matching, GraphCount, Clique, BagCount, Pick;
    CliqueCount(Induced(g, p), Pick(ops, p), tracked, c, c);
    BagSnoc(g.vertices, ops, parts, p, tracked, c, c);
  }

  /* ---------- filters ---------- */

  lemma FilteredYield(g: Graph, ops: seq<Trie>, tracked: seq<VarId>, key: Key, removed: seq<nat>, holds: bool, ys: seq<CountedEntry>)
    requires |g.vertices| == |ops| && |key| == |tracked| && Distinct(tracked) && FiltersOk(g.vertices, tracked)
    requires AllReady(g.vertices, removed) && Clique(g)
    requires holds <==> forall p :: p in removed ==> Holds(g.vertices[p].filter, tracked, key)
    requires var keep := Complement(|g.vertices|, removed);
             var c := Cleared(tracked, key, DataVars(g.vertices));
             if holds then Clique(Induced(g, keep)) && Yielded(Induced(g, keep), Pick(ops, keep), tracked, c, ys) else ys == []
    ensures Yielded(g, ops, tracked, Cleared(tracked, key, DataVars(g.vertices)), ys)
  {
    hide Matching, GraphCount, Clique, Total, Pick, Complement, Holds, FiltersOk, AllReady, DataVars;
    var keep := Complement(|g.vertices|, removed);
    var c := Cleared(tracked, key, DataVars(g.vertices));
    forall k: Key | |k| == |tracked| ensures Total(ys, k) == GraphCount(g, ops, tracked, c, k) {
      FilterStep(g.vertices, ops, tracked, key, removed, k);
      CliqueCount(g, ops, tracked, c, k);
      if holds {
        CliqueCount(Induced(g, keep), Pick(ops, keep), tracked, c, k);
      } else {
        EmptyTotal(k);
      }
    }
  }

  lemma EmptyTotal(k: Key)
    ensures Total([], k) == 0
  {
  }

  lemma FilteredCount(g: Graph, ops: seq<Trie>, tracked: seq<VarId>, key: Key, removed: seq<nat>, holds: bool)
    requires |g.vertices| == |ops| && |key| == |tracked| && Distinct(tracked) && FiltersOk(g.vertices, tracked)
    requires AllReady(g.vertices, removed) && Clique(g) && Clique(Induced(g, Complement(|g.vertices|, removed)))
    requires AllTrackedVarsDone(g.vertices, tracked)
    requires holds <==> forall p :: p in removed ==> Holds(g.vertices[p].filter, tracked, key)
    ensures var keep := Complement(|g.vertices|, removed);
            GraphCount(g, ops, tracked, key, key)
            == if holds then GraphCount(Induced(g, keep), Pick(ops, keep), tracked, key, key) else 0
  {
    hide Matching, GraphCount, Clique, Pick, Complement, Holds, FiltersOk, AllReady, DataVars;
    var keep := Complement(|g.vertices|, removed);
    ClearedDone(tracked, key, DataVars(g.vertices));
    FilterStep(g.vertices, ops, tracked, key, removed, key);
    CliqueCount(g, ops, tracked, key, key);
    CliqueCount(Induced(g, keep), Pick(ops, keep), tracked, key, key);
  }
}
