/**
 Writing out the product of one entry with all tuples of the materialized
 sub-results, and collecting the sub-results.
 */
module ProductEmission {
  import opened Graphs
  import opened Projection
  import opened Entries
  import opened Odometer
  import opened CartesianResult
  import opened EngineSteps
  import opened ProductSteps

  /* ---------- sub-results ---------- */

  /** The map holds the totals of the entries. */
  ghost predicate SumsTo(m: SubResult, zs: seq<CountedEntry>) {
    && (forall k :: k in m ==> m[k] > 0)
    && forall k :: (if k in m then m[k] else 0) == Total(zs, k)
  }

  /** Adds up the entries key by key. */
  method Collect(zs: seq<CountedEntry>, ghost width: nat) returns (m: SubResult)
    requires Proper(zs, width)
    ensures SumsTo(m, zs)
  {
    m := map[];
    for i := 0 to |zs|
      invariant SumsTo(m, zs[..i])
    {
      var z := zs[i];
      SumsToStep(m, zs[..i], z);
      assert zs[..i + 1] == zs[..i] + [z];
      m := m[z.key := (if z.key in m then m[z.key] else 0) + z.value];
    }
    assert zs[..|zs|] == zs;
  }

  lemma SumsToStep(m: SubResult, zs: seq<CountedEntry>, z: CountedEntry)
    requires SumsTo(m, zs) && z.value > 0
    ensures SumsTo(m[z.key := (if z.key in m then m[z.key] else 0) + z.value], zs + [z])
  {
    forall k
      ensures (if k in m || k == z.key then (if k == z.key then (if k in m then m[k] else 0) + z.value else m[k]) else 0)
           == Total(zs + [z], k)
    {
      TotalSnoc(zs, z, k);
    }
  }

  lemma {:induction false} TotalHas(zs: seq<CountedEntry>, k: Key)
    requires Total(zs, k) > 0
    ensures exists i :: 0 <= i < |zs| && zs[i].key == k
  {
    if Last(zs).key != k {
      TotalHas(Init(zs), k);
      var i :| 0 <= i < |zs| - 1 && Init(zs)[i].key == k;
      assert zs[i].key == k;
    }
  }

  /* ---------- emission ---------- */

  /** What has been written out for y when the iterator stands on tuple t, or has ended. */
  ghost predicate EmittedSoFar(zs: seq<CountedEntry>, y: CountedEntry, c: Key, iterPoss: seq<nat>,
                               subs: seq<seq<CountedEntry>>, poss: seq<seq<nat>>, t: seq<nat>, ended: bool)
  {
    && Proper(zs, |c|) && |subs| == |poss| && IsPosition(subs, t)
    && forall k: Key :: |k| == |c| ==>
         Total(zs, k) == if ended then Emitted(y, c, iterPoss, subs, poss, k)
                         else EmittedBefore(y, c, iterPoss, subs, poss, k, t)
  }

  lemma EmittedStart(y: CountedEntry, c: Key, iterPoss: seq<nat>, subs: seq<seq<CountedEntry>>, poss: seq<seq<nat>>, t: seq<nat>)
    requires |subs| == |poss| && IsPosition(subs, t) && forall i :: 0 <= i < |t| ==> t[i] == 0
    ensures EmittedSoFar([], y, c, iterPoss, subs, poss, t, false)
  {
    forall k: Key | |k| == |c| ensures EmittedBefore(y, c, iterPoss, subs, poss, k, t) == 0 {
      EmitStart(y, c, iterPoss, subs, poss, k, t);
    }
  }

  /** The entry written out at tuple t. */
  ghost function ProductEntry(y: CountedEntry, iterPoss: seq<nat>, subs: seq<seq<CountedEntry>>, poss: seq<seq<nat>>,
                              base: Key, t: seq<nat>): CountedEntry
    requires FitsWidth(subs, poss, |base|) && IsPosition(subs, t) && |y.key| == |base|
  {
    CountedEntry(Overwrite(Shown(base, subs, poss, t, |subs|), iterPoss, y.key), y.value * Weight(Values(subs), t))
  }

  lemma EmittedStep(zs: seq<CountedEntry>, y: CountedEntry, c: Key, iterPoss: seq<nat>,
                    subs: seq<seq<CountedEntry>>, poss: seq<seq<nat>>, base: Key, t: seq<nat>, u: seq<nat>, ended: bool)
    requires EmittedSoFar(zs, y, c, iterPoss, subs, poss, t, false)
    requires ProductShape(subs, poss, iterPoss, |c|) && IsPosition(subs, u) && Turned(Radices(subs), t, u, ended)
    requires |base| == |c| == |y.key| && KeepsElsewhere(c, base, iterPoss, poss) && y.value > 0
    ensures EmittedSoFar(zs + [ProductEntry(y, iterPoss, subs, poss, base, t)], y, c, iterPoss, subs, poss, u, ended)
  {
    hide KeepsElsewhere, Turned, Emitted, EmittedBefore, Total, Shown, Weight, AgreeAt;
    var e := ProductEntry(y, iterPoss, subs, poss, base, t);
    ProductPositive(y, subs, t);
    ProperAppend(zs, [e], |c|);
    forall k: Key | |k| == |c|
      ensures Total(zs + [e], k) == if ended then Emitted(y, c, iterPoss, subs, poss, k)
                                    else EmittedBefore(y, c, iterPoss, subs, poss, k, u)
    {
      TotalSnoc(zs, e, k);
      EmitStep(y, c, iterPoss, subs, poss, base, t, k);
      EmitTurn(y, c, iterPoss, subs, poss, t, u, ended, k);
    }
  }

  /** z is what is written out for y at tuple t: its keys at their positions, and the product of the values. */
  ghost predicate TupleEntry(z: CountedEntry, y: CountedEntry, c: Key, iterPoss: seq<nat>,
                             subs: seq<seq<CountedEntry>>, poss: seq<seq<nat>>, t: seq<nat>)
  {
    && |subs| == |poss| && IsPosition(subs, t) && |z.key| == |c|
    && AgreeAt(y.key, z.key, iterPoss) && AllAgree(subs, poss, t, z.key) && KeepsElsewhere(c, z.key, iterPoss, poss)
    && z.value == y.value * Weight(Values(subs), t)
  }

  /** One entry for each tuple visited. */
  ghost predicate TupleEntries(zs: seq<CountedEntry>, y: CountedEntry, c: Key, iterPoss: seq<nat>,
                               subs: seq<seq<CountedEntry>>, poss: seq<seq<nat>>, visited: seq<seq<nat>>)
  {
    |zs| == |visited| && forall i :: 0 <= i < |zs| ==> TupleEntry(zs[i], y, c, iterPoss, subs, poss, visited[i])
  }

  lemma TupleWritten(y: CountedEntry, c: Key, iterPoss: seq<nat>, subs: seq<seq<CountedEntry>>, poss: seq<seq<nat>>,
                     base: Key, t: seq<nat>)
    requires ProductShape(subs, poss, iterPoss, |c|) && IsPosition(subs, t)
    requires |base| == |c| == |y.key| && KeepsElsewhere(c, base, iterPoss, poss)
    ensures TupleEntry(ProductEntry(y, iterPoss, subs, poss, base, t), y, c, iterPoss, subs, poss, t)
  {
    hide Shown, KeepsElsewhere, AllAgree, Weight, AgreeAt;
    ShownKey(base, subs, poss, t, iterPoss, y.key, c, ProductEntry(y, iterPoss, subs, poss, base, t).key);
  }

  lemma TupleNext(zs: seq<CountedEntry>, z: CountedEntry, y: CountedEntry, c: Key, iterPoss: seq<nat>,
                  subs: seq<seq<CountedEntry>>, poss: seq<seq<nat>>, visited: seq<seq<nat>>, t: seq<nat>)
    requires TupleEntries(zs, y, c, iterPoss, subs, poss, visited) && TupleEntry(z, y, c, iterPoss, subs, poss, t)
    ensures TupleEntries(zs + [z], y, c, iterPoss, subs, poss, visited + [t])
  {
    hide TupleEntry;
  }

  lemma ProductPositive(y: CountedEntry, subs: seq<seq<CountedEntry>>, t: seq<nat>)
    requires IsPosition(subs, t) && NonEmptyPositive(subs) && y.value > 0
    ensures y.value * Weight(Values(subs), t) > 0
  {
    WeightPositive(Values(subs), t);
  }

  /** Writes out the products of one entry of the iterated component with all tuples, one entry for each tuple. */
  method EmitProduct(odo: FullCartesianResult, iterPoss: seq<nat>, y: CountedEntry, entry: Entry, ghost c: Key)
    returns (zs: seq<CountedEntry>, ghost visited: seq<seq<nat>>)
    requires odo.entry == entry && |entry.key| == |c| == |y.key| && y.value > 0
    requires ProductShape(odo.subResults, odo.resultPoss, iterPoss, |c|) && |odo.iterPoss| == |odo.subResults|
    requires KeepsElsewhere(c, entry.key, iterPoss, odo.resultPoss)
    modifies odo`value, odo`ended, odo`iterPoss, entry
    ensures |odo.iterPoss| == |odo.subResults| && |entry.key| == |c|
    ensures KeepsElsewhere(c, entry.key, iterPoss, odo.resultPoss)
    ensures Proper(zs, |c|)
    ensures forall k: Key :: |k| == |c| ==> Total(zs, k) == Emitted(y, c, iterPoss, odo.subResults, odo.resultPoss, k)
    ensures EachOnce(Radices(odo.subResults), visited)
    ensures TupleEntries(zs, y, c, iterPoss, odo.subResults, odo.resultPoss, visited)
  {
    hide RunSoFar, EachOnce, TupleEntry, TupleEntries, Radices;
    hide KeepsElsewhere, Turned, Emitted, EmittedBefore, Total, Shown, Weight, EmittedSoFar, Rank, Size, FitsWidth, NonEmptyPositive, Apart;
    ghost var subs, poss := odo.subResults, odo.resultPoss;
    ghost var base := entry.key;
    ShapeOf(subs, poss, iterPoss, |c|);
    odo.Restart();
    zs := [];
    visited := [];
    PositionOf(subs, odo.iterPoss);
    RunStart(Radices(subs), odo.iterPoss);
    NoEntries(y, c, iterPoss, subs, poss);
    EmittedStart(y, c, iterPoss, subs, poss, odo.iterPoss);
    while !odo.ended
      invariant odo.subResults == subs && odo.resultPoss == poss && |entry.key| == |c| == |base|
      invariant odo.Shape(|c|) && odo.OnTuple() && IsPosition(subs, odo.iterPoss)
      invariant KeepsElsewhere(c, base, iterPoss, poss)
      invariant entry.key == Shown(base, subs, poss, odo.iterPoss, |subs|)
      invariant EmittedSoFar(zs, y, c, iterPoss, subs, poss, odo.iterPoss, odo.ended)
      invariant RunSoFar(Radices(subs), visited, odo.iterPoss, odo.ended)
      invariant TupleEntries(zs, y, c, iterPoss, subs, poss, visited)
      decreases !odo.ended, Size(Radices(subs)) - Rank(Radices(subs), odo.iterPoss)
    {
      ghost var t := odo.iterPoss;
      ShownKeeps(c, base, subs, poss, t, iterPoss, y.key);
      UpdateEntryKey(iterPoss, entry, y.key);
      var v := odo.Deref();
      entry.SetValue(y.value * v);
      ghost var e := ProductEntry(y, iterPoss, subs, poss, base, t);
      assert entry.Snapshot() == e;
      TupleWritten(y, c, iterPoss, subs, poss, base, t);
      TupleNext(zs, e, y, c, iterPoss, subs, poss, visited, t);
      zs := zs + [entry.Snapshot()];
      ghost var next := entry.key;
      odo.Advance();
      PositionOf(subs, odo.iterPoss);
      EmittedStep(zs[..|zs| - 1], y, c, iterPoss, subs, poss, base, t, odo.iterPoss, odo.ended);
      assert zs[..|zs| - 1] + [e] == zs;
      TurnedRank(Radices(subs), t, odo.iterPoss, odo.ended);
      RunStep(Radices(subs), visited, t, odo.iterPoss, odo.ended);
      visited := visited + [t];
      base := next;
    }
    RunVisitsAll(Radices(subs), visited, odo.iterPoss);
    EmittedDone(zs, y, c, iterPoss, subs, poss, odo.iterPoss);
    ShownStays(c, base, subs, poss, odo.iterPoss, iterPoss);
  }

  lemma NoEntries(y: CountedEntry, c: Key, iterPoss: seq<nat>, subs: seq<seq<CountedEntry>>, poss: seq<seq<nat>>)
    ensures TupleEntries([], y, c, iterPoss, subs, poss, [])
  {
  }

  lemma ShapeOf(subs: seq<seq<CountedEntry>>, poss: seq<seq<nat>>, iterPoss: seq<nat>, width: nat)
    requires ProductShape(subs, poss, iterPoss, width)
    ensures |subs| == |poss| && FitsWidth(subs, poss, width) && NonEmptyPositive(subs) && Indices(iterPoss, width)
  {
  }

  lemma PositionOf(subs: seq<seq<CountedEntry>>, t: seq<nat>)
    requires IsIndex(Values(subs), t)
    ensures IsPosition(subs, t) && IsTuple(Radices(subs), t)
  {
  }

  lemma EmittedDone(zs: seq<CountedEntry>, y: CountedEntry, c: Key, iterPoss: seq<nat>,
                    subs: seq<seq<CountedEntry>>, poss: seq<seq<nat>>, t: seq<nat>)
    requires EmittedSoFar(zs, y, c, iterPoss, subs, poss, t, true)
    ensures Proper(zs, |c|)
    ensures forall k: Key :: |k| == |c| ==> Total(zs, k) == Emitted(y, c, iterPoss, subs, poss, k)
  {
  }

  lemma ShownStays(c: Key, base: Key, subs: seq<seq<CountedEntry>>, poss: seq<seq<nat>>, t: seq<nat>, iterPoss: seq<nat>)
    requires ProductShape(subs, poss, iterPoss, |c|) && IsPosition(subs, t)
    requires |base| == |c| && KeepsElsewhere(c, base, iterPoss, poss)
    ensures KeepsElsewhere(c, Shown(base, subs, poss, t, |subs|), iterPoss, poss)
  {
    var shown := Shown(base, subs, poss, t, |subs|);
    forall p: nat | p < |c| && p !in iterPoss && !Somewhere(poss, |poss|, p) ensures shown[p] == c[p] {
      ShownAt(base, subs, poss, t, |subs|, p);
    }
  }

  lemma EmittedSnoc(ys: seq<CountedEntry>, j: nat, c: Key, iterPoss: seq<nat>,
                    subs: seq<seq<CountedEntry>>, poss: seq<seq<nat>>, k: Key)
    requires |subs| == |poss| && j < |ys|
    ensures EmittedAll(ys[..j + 1], c, iterPoss, subs, poss, k)
         == EmittedAll(ys[..j], c, iterPoss, subs, poss, k) + Emitted(ys[j], c, iterPoss, subs, poss, k)
  {
    assert Init(ys[..j + 1]) == ys[..j];
  }

  /** What has been written out for the entries in done. */
  ghost predicate EmittedFor(zs: seq<CountedEntry>, done: seq<CountedEntry>, c: Key, iterPoss: seq<nat>,
                             subs: seq<seq<CountedEntry>>, poss: seq<seq<nat>>)
  {
    && |subs| == |poss| && Proper(zs, |c|)
    && forall k: Key :: |k| == |c| ==> Total(zs, k) == EmittedAll(done, c, iterPoss, subs, poss, k)
  }

  lemma EmittedForStep(zs: seq<CountedEntry>, ws: seq<CountedEntry>, ys: seq<CountedEntry>, j: nat, c: Key, iterPoss: seq<nat>,
                       subs: seq<seq<CountedEntry>>, poss: seq<seq<nat>>)
    requires j < |ys| && EmittedFor(zs, ys[..j], c, iterPoss, subs, poss) && Proper(ws, |c|)
    requires forall k: Key :: |k| == |c| ==> Total(ws, k) == Emitted(ys[j], c, iterPoss, subs, poss, k)
    ensures EmittedFor(zs + ws, ys[..j + 1], c, iterPoss, subs, poss)
  {
    hide Emitted, EmittedAll, Total;
    ProperAppend(zs, ws, |c|);
    forall k: Key | |k| == |c| ensures Total(zs + ws, k) == EmittedAll(ys[..j + 1], c, iterPoss, subs, poss, k) {
      TotalAppend(zs, ws, k);
      EmittedSnoc(ys, j, c, iterPoss, subs, poss, k);
    }
  }

  /** Writes out the products of every entry of the iterated component with all tuples. */
  method EmitProducts(odo: FullCartesianResult, iterPoss: seq<nat>, ys: seq<CountedEntry>, entry: Entry, ghost c: Key)
    returns (zs: seq<CountedEntry>)
    requires odo.entry == entry && |entry.key| == |c| && Proper(ys, |c|)
    requires ProductShape(odo.subResults, odo.resultPoss, iterPoss, |c|) && |odo.iterPoss| == |odo.subResults|
    requires KeepsElsewhere(c, entry.key, iterPoss, odo.resultPoss)
    modifies odo`value, odo`ended, odo`iterPoss, entry
    ensures KeepsElsewhere(c, entry.key, iterPoss, odo.resultPoss)
    ensures EmittedFor(zs, ys, c, iterPoss, odo.subResults, odo.resultPoss)
  {
    hide KeepsElsewhere, Emitted, EmittedAll, Total, EmittedFor, FitsWidth, NonEmptyPositive, Apart;
    ghost var subs, poss := odo.subResults, odo.resultPoss;
    ShapeOf(subs, poss, iterPoss, |c|);
    zs := [];
    EmittedForNone(c, iterPoss, subs, poss);
    for j := 0 to |ys|
      invariant |entry.key| == |c| && |odo.iterPoss| == |odo.subResults|
      invariant KeepsElsewhere(c, entry.key, iterPoss, poss)
      invariant EmittedFor(zs, ys[..j], c, iterPoss, subs, poss)
    {
      var ws, visited := EmitProduct(odo, iterPoss, ys[j], entry, c);
      EmittedForStep(zs, ws, ys, j, c, iterPoss, subs, poss);
      zs := zs + ws;
    }
    assert ys[..|ys|] == ys;
  }

  lemma EmittedForNone(c: Key, iterPoss: seq<nat>, subs: seq<seq<CountedEntry>>, poss: seq<seq<nat>>)
    requires |subs| == |poss|
    ensures EmittedFor([], [], c, iterPoss, subs, poss)
  {
  }
}
