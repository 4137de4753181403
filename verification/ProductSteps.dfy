/**
 How the materialized sub-results and the iterated component of a cartesian
 product add up, key by key.
 */
module ProductSteps {
  import opened Reachability
  import opened Graphs
  import opened Tries
  import opened Projection
  import opened ProductProof
  import opened CartesianProof
  import opened EngineFacts
  import opened EngineSteps
  import opened Entries
  import opened Odometer
  import opened CartesianResult
  import opened JoinProof
  import opened LeafProof
  import opened DependencyGraph

  /* ---------- products of sequences ---------- */

  ghost function Prod(s: seq<nat>): nat {
    if s == [] then 1 else Prod(Init(s)) * Last(s)
  }

  lemma Regroup(a: nat, b: nat, c: nat)
    ensures a * b * c == a * c * b && a * (b * c) == (a * b) * c
  {
  }

  lemma {:induction false} ProdHead(s: seq<nat>)
    requires s != []
    ensures Prod(s) == s[0] * Prod(s[1..])
  {
    if |s| == 1 {
      assert Init(s) == [] && s[1..] == [];
      assert Prod([]) == 1;
    } else {
      ProdHead(Init(s));
      assert Init(s)[1..] == Init(s[1..]) && Last(s) == Last(s[1..]);
      Regroup(s[0], Prod(Init(s[1..])), Last(s));
    }
  }

  /** A product is one factor times the product of the others. */
  lemma {:induction false} ProdAllBut(s: seq<nat>, i: nat)
    requires i < |s|
    ensures Prod(s) == Prod(AllBut(s, i)) * s[i]
  {
    if i == |s| - 1 {
      assert AllBut(s, i) == Init(s);
    } else {
      ProdAllBut(Init(s), i);
      assert Init(AllBut(s, i)) == AllBut(Init(s), i) && Last(AllBut(s, i)) == Last(s);
      Regroup(Prod(AllBut(Init(s), i)), s[i], Last(s));
    }
  }

  ghost function Sums(ws: seq<seq<nat>>): (r: seq<nat>)
    ensures |r| == |ws| && forall i :: 0 <= i < |ws| ==> r[i] == Sum(ws[i])
  {
    seq(|ws|, i requires 0 <= i < |ws| => Sum(ws[i]))
  }

  lemma {:induction false} SumProductProd(ws: seq<seq<nat>>)
    ensures SumProduct(ws) == Prod(Sums(ws))
  {
    if ws != [] {
      SumProductProd(ws[1..]);
      ProdHead(Sums(ws));
      assert Sums(ws)[1..] == Sums(ws[1..]);
    }
  }

  lemma {:induction false} ZeroProd(s: seq<nat>, i: nat)
    requires i < |s| && s[i] == 0
    ensures Prod(s) == 0
  {
    ProdAllBut(s, i);
  }

  ghost function PartCounts(vs: seq<Vertex>, ops: seq<Trie>, parts: seq<seq<nat>>, tracked: seq<VarId>, c: Key, k: Key): (r: seq<nat>)
    requires |vs| == |ops| && |c| == |tracked| == |k|
    requires forall i :: 0 <= i < |parts| ==> Indices(parts[i], |vs|)
    ensures |r| == |parts| && forall i :: 0 <= i < |parts| ==> r[i] == PartCount(vs, ops, parts[i], tracked, c, k)
  {
    seq(|parts|, i requires 0 <= i < |parts| => PartCount(vs, ops, parts[i], tracked, c, k))
  }

  lemma {:induction false} PartsProductProd(vs: seq<Vertex>, ops: seq<Trie>, parts: seq<seq<nat>>, tracked: seq<VarId>, c: Key, k: Key)
    requires |vs| == |ops| && |c| == |tracked| == |k|
    requires forall i :: 0 <= i < |parts| ==> Indices(parts[i], |vs|)
    ensures PartsProduct(vs, ops, parts, tracked, c, k) == Prod(PartCounts(vs, ops, parts, tracked, c, k))
  {
    if parts != [] {
      PartsProductProd(vs, ops, Init(parts), tracked, c, k);
      assert Init(PartCounts(vs, ops, parts, tracked, c, k)) == PartCounts(vs, ops, Init(parts), tracked, c, k);
    }
  }

  /* ---------- one sub-result ---------- */

  /** The entries of a part: keys that differ from c in the part's positions only. */
  ghost predicate PartEntries(es: seq<CountedEntry>, tracked: seq<VarId>, c: Key, data: set<VarId>) {
    forall d :: 0 <= d < |es| ==> AgreesOutside(tracked, c, es[d].key, data)
  }

  lemma AgreePart(tracked: seq<VarId>, c: Key, a: Key, k: Key, data: set<VarId>)
    requires AgreesOutside(tracked, c, a, data) && |k| == |tracked|
    ensures AgreeAt(a, k, TrackedPositions(tracked, data)) <==> a == PartKey(tracked, c, k, data)
  {
    var poss := TrackedPositions(tracked, data);
    if AgreeAt(a, k, poss) {
      forall i: nat | i < |c| ensures a[i] == PartKey(tracked, c, k, data)[i] {
        assert tracked[i] in data ==> i in poss;
      }
    }
  }

  /** The weights of a part for k are its total for its share of k. */
  lemma {:induction false} PartWeights(es: seq<CountedEntry>, tracked: seq<VarId>, c: Key, k: Key, data: set<VarId>)
    requires |c| == |tracked| == |k| && PartEntries(es, tracked, c, data)
    ensures Sum(WeightsFor(es, TrackedPositions(tracked, data), k)) == Total(es, PartKey(tracked, c, k, data))
  {
    var poss := TrackedPositions(tracked, data);
    if es == [] {
      assert WeightsFor(es, poss, k) == [];
    } else {
      PartWeights(Init(es), tracked, c, k, data);
      AgreePart(tracked, c, Last(es).key, k, data);
      hide TrackedPositions, PartKey;
      WeightsLast(es, poss, k);
    }
  }

  lemma WeightsLast(es: seq<CountedEntry>, poss: seq<nat>, k: Key)
    requires es != []
    ensures Sum(WeightsFor(es, poss, k))
         == Sum(WeightsFor(Init(es), poss, k)) + (if AgreeAt(Last(es).key, k, poss) then Last(es).value else 0)
  {
    hide AgreeAt;
    assert Init(WeightsFor(es, poss, k)) == WeightsFor(Init(es), poss, k);
  }

  /** What a clique yields differs from the entry in the positions of its own variables only. */
  lemma YieldedEntries(g: Graph, ops: seq<Trie>, tracked: seq<VarId>, c: Key, ys: seq<CountedEntry>)
    requires Yielded(g, ops, tracked, c, ys) && Clique(g)
    ensures PartEntries(ys, tracked, c, DataVars(g.vertices))
  {
    hide GraphCount, Matching, Clique, DataVars;
    forall d | 0 <= d < |ys| ensures AgreesOutside(tracked, c, ys[d].key, DataVars(g.vertices)) {
      TotalAtLeast(ys, d);
      YieldedAt(g, ops, tracked, c, ys, ys[d].key);
      CliqueCount(g, ops, tracked, c, ys[d].key);
      if !AgreesOutside(tracked, c, ys[d].key, DataVars(g.vertices)) {
        MatchingOutside(g.vertices, ops, tracked, c, ys[d].key);
      }
    }
  }

  /* ---------- the emitted product ---------- */

  /** k keeps c at every position no component writes. */
  ghost predicate KeepsElsewhere(c: Key, k: Key, iterPoss: seq<nat>, poss: seq<seq<nat>>) {
    |k| == |c| && forall p: nat :: p < |c| && p !in iterPoss && !Somewhere(poss, |poss|, p) ==> k[p] == c[p]
  }

  /** What one entry of the iterated component contributes to k. */
  ghost function Emitted(y: CountedEntry, c: Key, iterPoss: seq<nat>, subs: seq<seq<CountedEntry>>, poss: seq<seq<nat>>, k: Key): nat
    requires |subs| == |poss|
  {
    if AgreeAt(y.key, k, iterPoss) && KeepsElsewhere(c, k, iterPoss, poss)
    then y.value * SumProduct(KeyWeights(subs, poss, k)) else 0
  }

  lemma ShownKey(base: Key, subs: seq<seq<CountedEntry>>, poss: seq<seq<nat>>, t: seq<nat>,
                 iterPoss: seq<nat>, src: Key, c: Key, k: Key)
    requires FitsWidth(subs, poss, |base|) && |t| == |subs| && Apart(poss) && |base| == |src| == |c| == |k|
    requires forall i :: 0 <= i < |subs| ==> t[i] < |subs[i]|
    requires forall i, p :: 0 <= i < |poss| && p in poss[i] ==> p !in iterPoss
    requires Indices(iterPoss, |c|)
    requires KeepsElsewhere(c, base, iterPoss, poss)
    ensures Overwrite(Shown(base, subs, poss, t, |subs|), iterPoss, src) == k <==>
            AgreeAt(src, k, iterPoss) && AllAgree(subs, poss, t, k) && KeepsElsewhere(c, k, iterPoss, poss)
  {
    hide Shown;
    var shown := Shown(base, subs, poss, t, |subs|);
    var r := Overwrite(shown, iterPoss, src);
    forall p: nat | p < |c|
      ensures p !in iterPoss ==> forall i :: 0 <= i < |subs| && p in poss[i] ==> r[p] == subs[i][t[i]].key[p]
      ensures p !in iterPoss && !Somewhere(poss, |poss|, p) ==> r[p] == c[p]
    {
      ShownAt(base, subs, poss, t, |subs|, p);
    }
    if r == k {
      ShownKeyForth(r, subs, poss, t, iterPoss, src, c);
    }
    if AgreeAt(src, k, iterPoss) && AllAgree(subs, poss, t, k) && KeepsElsewhere(c, k, iterPoss, poss) {
      ShownKeyBack(r, subs, poss, t, iterPoss, src, c, k);
    }
  }

  /** r holds src at the iterated positions, each component's key at its positions, and c elsewhere. */
  ghost predicate Composed(r: Key, subs: seq<seq<CountedEntry>>, poss: seq<seq<nat>>, t: seq<nat>,
                           iterPoss: seq<nat>, src: Key, c: Key)
  {
    && |r| == |c| == |src| && FitsWidth(subs, poss, |c|) && |t| == |subs| && Indices(iterPoss, |c|)
    && (forall i :: 0 <= i < |subs| ==> t[i] < |subs[i]|)
    && (forall p :: p in iterPoss ==> r[p] == src[p])
    && (forall p: nat, i :: p < |c| && p !in iterPoss && 0 <= i < |subs| && p in poss[i] ==> r[p] == subs[i][t[i]].key[p])
    && (forall p: nat :: p < |c| && p !in iterPoss && !Somewhere(poss, |poss|, p) ==> r[p] == c[p])
  }

  lemma ShownKeyForth(r: Key, subs: seq<seq<CountedEntry>>, poss: seq<seq<nat>>, t: seq<nat>,
                      iterPoss: seq<nat>, src: Key, c: Key)
    requires Composed(r, subs, poss, t, iterPoss, src, c)
    requires forall i, p :: 0 <= i < |poss| && p in poss[i] ==> p !in iterPoss
    ensures AgreeAt(src, r, iterPoss) && AllAgree(subs, poss, t, r) && KeepsElsewhere(c, r, iterPoss, poss)
  {
    assert forall i, p :: 0 <= i < |poss| && p in poss[i] ==> p < |c|;
  }

  lemma ShownKeyBack(r: Key, subs: seq<seq<CountedEntry>>, poss: seq<seq<nat>>, t: seq<nat>,
                     iterPoss: seq<nat>, src: Key, c: Key, k: Key)
    requires Composed(r, subs, poss, t, iterPoss, src, c) && |k| == |c|
    requires AgreeAt(src, k, iterPoss) && AllAgree(subs, poss, t, k) && KeepsElsewhere(c, k, iterPoss, poss)
    ensures r == k
  {
    forall p: nat | p < |c| ensures r[p] == k[p] {
      if p !in iterPoss && Somewhere(poss, |poss|, p) {
        var i :| 0 <= i < |poss| && p in poss[i];
        assert AgreeAt(subs[i][t[i]].key, k, poss[i]);
      }
    }
  }

  /** The parts of the product: widths, positions and entries that fit together. */
  ghost predicate ProductShape(subs: seq<seq<CountedEntry>>, poss: seq<seq<nat>>, iterPoss: seq<nat>, width: nat) {
    && FitsWidth(subs, poss, width) && Apart(poss) && Indices(iterPoss, width) && NonEmptyPositive(subs)
    && forall i, p :: 0 <= i < |poss| && p in poss[i] ==> p !in iterPoss
  }

  ghost predicate IsPosition(subs: seq<seq<CountedEntry>>, t: seq<nat>) {
    |t| == |subs| && forall i :: 0 <= i < |subs| ==> t[i] < |subs[i]|
  }

  /** What an entry of the iterated component has contributed to k before tuple t. */
  ghost function EmittedBefore(y: CountedEntry, c: Key, iterPoss: seq<nat>, subs: seq<seq<CountedEntry>>, poss: seq<seq<nat>>,
                               k: Key, t: seq<nat>): nat
    requires |subs| == |poss| && IsPosition(subs, t)
  {
    if AgreeAt(y.key, k, iterPoss) && KeepsElsewhere(c, k, iterPoss, poss)
    then y.value * SumBefore(KeyWeights(subs, poss, k), t) else 0
  }

  lemma EmitStart(y: CountedEntry, c: Key, iterPoss: seq<nat>, subs: seq<seq<CountedEntry>>, poss: seq<seq<nat>>, k: Key, t: seq<nat>)
    requires |subs| == |poss| && IsPosition(subs, t) && forall i :: 0 <= i < |t| ==> t[i] == 0
    ensures EmittedBefore(y, c, iterPoss, subs, poss, k, t) == 0
  {
    SumBeforeZero(KeyWeights(subs, poss, k), t);
  }

  /** The entry shown at a tuple adds exactly the tuple's weight to every key. */
  lemma EmitStep(y: CountedEntry, c: Key, iterPoss: seq<nat>, subs: seq<seq<CountedEntry>>, poss: seq<seq<nat>>,
                 base: Key, t: seq<nat>, k: Key)
    requires ProductShape(subs, poss, iterPoss, |c|) && IsPosition(subs, t)
    requires |base| == |c| == |k| == |y.key| && KeepsElsewhere(c, base, iterPoss, poss)
    ensures IsIndex(Values(subs), t) && IsIndex(KeyWeights(subs, poss, k), t)
    ensures (if Overwrite(Shown(base, subs, poss, t, |subs|), iterPoss, y.key) == k then y.value * Weight(Values(subs), t) else 0)
         == if AgreeAt(y.key, k, iterPoss) && KeepsElsewhere(c, k, iterPoss, poss)
            then y.value * Weight(KeyWeights(subs, poss, k), t) else 0
  {
    hide Shown, KeepsElsewhere, AllAgree, Weight, AgreeAt, Apart;
    ShownKey(base, subs, poss, t, iterPoss, y.key, c, k);
    KeyTupleWeight(subs, poss, t, k);
  }

  lemma DistributeOver(a: nat, b: nat, c: nat)
    ensures a * (b + c) == a * b + a * c
  {
  }

  lemma EmitTurn(y: CountedEntry, c: Key, iterPoss: seq<nat>, subs: seq<seq<CountedEntry>>, poss: seq<seq<nat>>,
                 t: seq<nat>, u: seq<nat>, ended: bool, k: Key)
    requires |subs| == |poss| && IsPosition(subs, t) && IsPosition(subs, u) && Turned(Radices(subs), t, u, ended)
    ensures IsIndex(KeyWeights(subs, poss, k), t)
    ensures EmittedBefore(y, c, iterPoss, subs, poss, k, t)
            + (if AgreeAt(y.key, k, iterPoss) && KeepsElsewhere(c, k, iterPoss, poss)
               then y.value * Weight(KeyWeights(subs, poss, k), t) else 0)
         == if ended then Emitted(y, c, iterPoss, subs, poss, k) else EmittedBefore(y, c, iterPoss, subs, poss, k, u)
  {
    hide AgreeAt, KeepsElsewhere, Weight, SumBefore, Turned;
    var ws := KeyWeights(subs, poss, k);
    TurnedSum(ws, Radices(subs), t, u, ended);
    DistributeOver(y.value, SumBefore(ws, t), Weight(ws, t));
  }

  lemma ShownKeeps(c: Key, base: Key, subs: seq<seq<CountedEntry>>, poss: seq<seq<nat>>, t: seq<nat>, iterPoss: seq<nat>, src: Key)
    requires ProductShape(subs, poss, iterPoss, |c|) && IsPosition(subs, t)
    requires |base| == |c| == |src| && KeepsElsewhere(c, base, iterPoss, poss)
    ensures KeepsElsewhere(c, Overwrite(Shown(base, subs, poss, t, |subs|), iterPoss, src), iterPoss, poss)
  {
    ShownKey(base, subs, poss, t, iterPoss, src, c, Overwrite(Shown(base, subs, poss, t, |subs|), iterPoss, src));
  }

  /* ---------- the whole product ---------- */

  /** The sum of what all entries of the iterated component contribute to k. */
  ghost function EmittedAll(ys: seq<CountedEntry>, c: Key, iterPoss: seq<nat>, subs: seq<seq<CountedEntry>>, poss: seq<seq<nat>>, k: Key): nat
    requires |subs| == |poss|
  {
    if ys == [] then 0
    else EmittedAll(Init(ys), c, iterPoss, subs, poss, k) + Emitted(Last(ys), c, iterPoss, subs, poss, k)
  }

  lemma {:induction false} EmittedTotal(ys: seq<CountedEntry>, tracked: seq<VarId>, c: Key, data: set<VarId>,
                                        subs: seq<seq<CountedEntry>>, poss: seq<seq<nat>>, k: Key)
    requires |subs| == |poss| && |c| == |tracked| == |k| && PartEntries(ys, tracked, c, data)
    ensures EmittedAll(ys, c, TrackedPositions(tracked, data), subs, poss, k)
         == if KeepsElsewhere(c, k, TrackedPositions(tracked, data), poss)
            then Total(ys, PartKey(tracked, c, k, data)) * SumProduct(KeyWeights(subs, poss, k)) else 0
  {
    hide KeepsElsewhere, SumProduct, KeyWeights, TrackedPositions, AgreeAt, PartKey, Total;
    if ys == [] {
      NoTotal(PartKey(tracked, c, k, data));
    } else {
      var iterPoss := TrackedPositions(tracked, data);
      EmittedTotal(Init(ys), tracked, c, data, subs, poss, k);
      AgreePart(tracked, c, Last(ys).key, k, data);
      TotalLast(ys, PartKey(tracked, c, k, data));
      var w := SumProduct(KeyWeights(subs, poss, k));
      DistributeOver(w, Total(Init(ys), PartKey(tracked, c, k, data)), Last(ys).value);
    }
  }

  lemma TotalLast(ys: seq<CountedEntry>, k: Key)
    requires ys != []
    ensures Total(ys, k) == Total(Init(ys), k) + (if Last(ys).key == k then Last(ys).value else 0)
  {
  }

  /** The positions the components write. */
  ghost function PartPositions(vs: seq<Vertex>, parts: seq<seq<nat>>, tracked: seq<VarId>): (r: seq<seq<nat>>)
    requires forall i :: 0 <= i < |parts| ==> Indices(parts[i], |vs|)
    ensures |r| == |parts|
    ensures forall i :: 0 <= i < |parts| ==> r[i] == TrackedPositions(tracked, DataVars(Pick(vs, parts[i])))
  {
    seq(|parts|, i requires 0 <= i < |parts| => TrackedPositions(tracked, DataVars(Pick(vs, parts[i]))))
  }

  lemma PartOwns(g: Graph, x: VarId)
    ensures x in DataVars(g.vertices) ==>
              exists i :: 0 <= i < |CartesianParts(g)| && Indices(CartesianParts(g)[i], |g.vertices|)
                          && x in DataVars(Pick(g.vertices, CartesianParts(g)[i]))
  {
    hide DataVars, Pick;
    if x in DataVars(g.vertices) {
      var v :| 0 <= v < |g.vertices| && g.vertices[v].Operand? && x in g.vertices[v].vars;
      var p := ComponentsCover(CartesianArcs(g, Elements(Range(|g.vertices|))), |g.vertices|, v);
      CartesianPartShape(g, p);
      var i :| 0 <= i < |CartesianParts(g)| && CartesianParts(g)[i] == p;
      PickedVar(g.vertices, p, v, x);
    }
  }

  lemma PartWithin(vs: seq<Vertex>, part: seq<nat>)
    requires Indices(part, |vs|)
    ensures DataVars(Pick(vs, part)) <= DataVars(vs)
  {
    PickDataVars(vs, part, Range(|vs|));
    PickAll(vs);
  }

  /** The components together write the positions of the variables of the graph. */
  lemma ElsewhereIsOutside(g: Graph, tracked: seq<VarId>, iter: nat, c: Key, k: Key)
    requires iter < |CartesianParts(g)| && |c| == |tracked| == |k|
    requires forall i :: 0 <= i < |CartesianParts(g)| ==> Indices(CartesianParts(g)[i], |g.vertices|)
    ensures var all := PartPositions(g.vertices, CartesianParts(g), tracked);
            (KeepsElsewhere(c, k, all[iter], AllBut(all, iter))
             <==> AgreesOutside(tracked, c, k, DataVars(g.vertices)))
  {
    var all := PartPositions(g.vertices, CartesianParts(g), tracked);
    var others := AllBut(all, iter);
    hide DataVars, Pick, CartesianParts, Somewhere, PartPositions;
    forall p: nat | p < |c|
      ensures p in all[iter] || Somewhere(others, |others|, p) <==> tracked[p] in DataVars(g.vertices)
    {
      AllButOwner(all, iter, p);
      PositionOwner(g, tracked, p);
    }
  }

  lemma AllButOwner(all: seq<seq<nat>>, iter: nat, p: nat)
    requires iter < |all|
    ensures p in all[iter] || Somewhere(AllBut(all, iter), |AllBut(all, iter)|, p) <==> exists i :: 0 <= i < |all| && p in all[i]
  {
    var others := AllBut(all, iter);
    if i :| 0 <= i < |all| && p in all[i] && i != iter {
      assert others[if i < iter then i else i - 1] == all[i];
    }
    if Somewhere(others, |others|, p) {
      var j :| 0 <= j < |others| && p in others[j];
      assert p in all[if j < iter then j else j + 1];
    }
  }

  lemma PositionOwner(g: Graph, tracked: seq<VarId>, p: nat)
    requires p < |tracked|
    requires forall i :: 0 <= i < |CartesianParts(g)| ==> Indices(CartesianParts(g)[i], |g.vertices|)
    ensures var all := PartPositions(g.vertices, CartesianParts(g), tracked);
            ((exists i :: 0 <= i < |all| && p in all[i]) <==> tracked[p] in DataVars(g.vertices))
  {
    hide DataVars, Pick, CartesianParts;
    var parts := CartesianParts(g);
    var all := PartPositions(g.vertices, parts, tracked);
    if tracked[p] in DataVars(g.vertices) {
      PartOwns(g, tracked[p]);
      var i :| 0 <= i < |parts| && tracked[p] in DataVars(Pick(g.vertices, parts[i]));
      assert p in all[i];
    }
    if i :| 0 <= i < |all| && p in all[i] {
      PartWithin(g.vertices, parts[i]);
    }
  }

  /** A list whose totals are the solutions of a part weighs what the part counts. */
  lemma PartTotal(g: Graph, ops: seq<Trie>, part: seq<nat>, tracked: seq<VarId>, c: Key, es: seq<CountedEntry>, k: Key)
    requires |g.vertices| == |ops| && |c| == |tracked| == |k| && Indices(part, |g.vertices|)
    requires Clique(Induced(g, part)) && Yielded(Induced(g, part), Pick(ops, part), tracked, c, es)
    ensures PartEntries(es, tracked, c, DataVars(Pick(g.vertices, part)))
    ensures Total(es, PartKey(tracked, c, k, DataVars(Pick(g.vertices, part)))) == PartCount(g.vertices, ops, part, tracked, c, k)
    ensures Sum(WeightsFor(es, TrackedPositions(tracked, DataVars(Pick(g.vertices, part))), k))
         == PartCount(g.vertices, ops, part, tracked, c, k)
  {
    hide GraphCount, Matching, Clique, DataVars, Pick, Total, Sum, WeightsFor, Yielded, TrackedPositions;
    var h := Induced(g, part);
    var pk := PartKey(tracked, c, k, DataVars(h.vertices));
    YieldedEntries(h, Pick(ops, part), tracked, c, es);
    YieldedAt(h, Pick(ops, part), tracked, c, es, pk);
    CliqueCount(h, Pick(ops, part), tracked, c, pk);
    PartWeights(es, tracked, c, k, DataVars(h.vertices));
  }

  /** The sub-results and the entries of the iterated component, each with the solutions of its part. */
  ghost predicate PartResults(g: Graph, ops: seq<Trie>, tracked: seq<VarId>, c: Key, iter: nat,
                              subs: seq<seq<CountedEntry>>, ys: seq<CountedEntry>)
  {
    var parts := CartesianParts(g);
    && |g.vertices| == |ops| && iter < |parts| && |subs| == |parts| - 1
    && (forall i :: 0 <= i < |parts| ==> Indices(parts[i], |g.vertices|) && Clique(Induced(g, parts[i])))
    && (forall i :: 0 <= i < |subs| ==>
          var part := AllBut(parts, iter)[i];
          Yielded(Induced(g, part), Pick(ops, part), tracked, c, subs[i]))
    && Yielded(Induced(g, parts[iter]), Pick(ops, parts[iter]), tracked, c, ys)
  }

  lemma PartSums(g: Graph, ops: seq<Trie>, tracked: seq<VarId>, c: Key, iter: nat,
                 subs: seq<seq<CountedEntry>>, ys: seq<CountedEntry>, k: Key)
    requires PartResults(g, ops, tracked, c, iter, subs, ys) && |c| == |tracked| == |k|
    ensures var parts := CartesianParts(g);
            var all := PartPositions(g.vertices, parts, tracked);
            Sums(KeyWeights(subs, AllBut(all, iter), k)) == AllBut(PartCounts(g.vertices, ops, parts, tracked, c, k), iter)
  {
    hide Clique, DataVars, Pick, Sum, Yielded, CartesianParts, PartCount, Induced;
    var parts := CartesianParts(g);
    var all := PartPositions(g.vertices, parts, tracked);
    forall i | 0 <= i < |subs|
      ensures Sum(KeyWeights(subs, AllBut(all, iter), k)[i]) == AllBut(PartCounts(g.vertices, ops, parts, tracked, c, k), iter)[i]
    {
      PartTotal(g, ops, AllBut(parts, iter)[i], tracked, c, subs[i], k);
    }
  }

  /** The sum of products over the sub-results, times the iterated component, is the product over all components. */
  lemma ProductOfParts(g: Graph, ops: seq<Trie>, tracked: seq<VarId>, c: Key, iter: nat,
                       subs: seq<seq<CountedEntry>>, ys: seq<CountedEntry>, k: Key)
    requires PartResults(g, ops, tracked, c, iter, subs, ys) && |c| == |tracked| == |k|
    ensures var parts := CartesianParts(g);
            (PartCount(g.vertices, ops, parts[iter], tracked, c, k)
             * SumProduct(KeyWeights(subs, AllBut(PartPositions(g.vertices, parts, tracked), iter), k))
             == PartsProduct(g.vertices, ops, parts, tracked, c, k))
  {
    hide Clique, DataVars, Pick, Sum, Yielded, CartesianParts, PartCount, Induced, SumProduct, Prod, PartsProduct;
    var parts := CartesianParts(g);
    var all := PartPositions(g.vertices, parts, tracked);
    var counts := PartCounts(g.vertices, ops, parts, tracked, c, k);
    PartsProductProd(g.vertices, ops, parts, tracked, c, k);
    ProdAllBut(counts, iter);
    PartSums(g, ops, tracked, c, iter, subs, ys, k);
    SumProductProd(KeyWeights(subs, AllBut(all, iter), k));
  }

  /** What the product emits for a key is the number of solutions of the clique that project to it. */
  lemma ProductEmits(g: Graph, ops: seq<Trie>, tracked: seq<VarId>, c: Key, iter: nat,
                     subs: seq<seq<CountedEntry>>, ys: seq<CountedEntry>, k: Key)
    requires PartResults(g, ops, tracked, c, iter, subs, ys) && |c| == |tracked| == |k|
    requires Plain(g) && Clique(g) && FiltersOk(g.vertices, tracked)
    ensures var all := PartPositions(g.vertices, CartesianParts(g), tracked);
            EmittedAll(ys, c, all[iter], subs, AllBut(all, iter), k) == |Matching(g.vertices, ops, tracked, c, k)|
  {
    hide Plain, Clique, FiltersOk, DataVars, Pick, Sum, Yielded, CartesianParts, PartCount, Induced, SumProduct, PartsProduct,
         KeyWeights, Matching, EmittedAll, KeepsElsewhere, AgreesOutside, Total, PartKey, TrackedPositions, PartEntries, WeightsFor, Prod;
    var parts := CartesianParts(g);
    var all := PartPositions(g.vertices, parts, tracked);
    var data := DataVars(Pick(g.vertices, parts[iter]));
    PartTotal(g, ops, parts[iter], tracked, c, ys, k);
    EmittedTotal(ys, tracked, c, data, subs, AllBut(all, iter), k);
    ElsewhereIsOutside(g, tracked, iter, c, k);
    CartesianCount(g, ops, tracked, c, k);
    ProductOfParts(g, ops, tracked, c, iter, subs, ys, k);
  }

  /** A component without a solution leaves the product without one. */
  lemma ProductNone(g: Graph, ops: seq<Trie>, tracked: seq<VarId>, c: Key, i: nat, k: Key)
    requires i < |CartesianParts(g)| && |g.vertices| == |ops| && |c| == |tracked| == |k|
    requires Plain(g) && Clique(g) && FiltersOk(g.vertices, tracked)
    requires Indices(CartesianParts(g)[i], |g.vertices|) && Clique(Induced(g, CartesianParts(g)[i]))
    requires Yielded(Induced(g, CartesianParts(g)[i]), Pick(ops, CartesianParts(g)[i]), tracked, c, [])
    ensures Matching(g.vertices, ops, tracked, c, k) == {}
  {
    hide Plain, Clique, FiltersOk, DataVars, Pick, Yielded, CartesianParts, PartCount, Induced, PartsProduct, Matching, Prod, Total;
    var parts := CartesianParts(g);
    CartesianCount(g, ops, tracked, c, k);
    PartsProductProd(g.vertices, ops, parts, tracked, c, k);
    PartTotal(g, ops, parts[i], tracked, c, [], k);
    NoTotal(PartKey(tracked, c, k, DataVars(Pick(g.vertices, parts[i]))));
    ZeroProd(PartCounts(g.vertices, ops, parts, tracked, c, k), i);
  }

  lemma NoTotal(k: Key)
    ensures Total([], k) == 0
  {
  }
}
