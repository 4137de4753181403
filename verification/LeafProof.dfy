/**
 The steps that end or shorten an evaluation: filters that are ready, and a
 single operand that is resolved or counted.
 */
module LeafProof {
  import opened Reachability
  import opened Graphs
  import opened Tries
  import opened Semantics
  import opened Projection
  import opened JoinProof
  import opened ProductProof
  import opened Counting

  /* ---------- filters ---------- */

  /** The positions below n that are not listed. */
  function Complement(n: nat, removed: seq<nat>): (keep: seq<nat>)
    ensures Indices(keep, n) && Increasing(keep)
    ensures forall i: nat :: i in keep <==> i < n && i !in removed
    ensures |keep| <= n
  {
    if n == 0 then []
    else
      var before := Complement(n - 1, removed);
      if n - 1 in removed then before else KeptAppend(before, n - 1); before + [n - 1]
  }

  lemma ComplementSmaller(n: nat, removed: seq<nat>)
    requires removed != [] && removed[0] < n
    ensures |Complement(n, removed)| < n
  {
    var keep := Complement(n, removed);
    assert removed[0] in removed && removed[0] !in keep;
    if |keep| == n {
      IncreasingFull(keep, n);
    }
  }

  /** All remaining variables of the filter are read by filters only. */
  ghost predicate ReadyFilter(v: Vertex, data: set<VarId>) {
    v.FilterVertex? && Elements(v.vars) !! data
  }

  ghost predicate AllReady(vs: seq<Vertex>, removed: seq<nat>) {
    forall p :: p in removed ==> 0 <= p < |vs| && ReadyFilter(vs[p], DataVars(vs))
  }

  predicate Holds(f: Filter, tracked: seq<VarId>, key: Key)
    requires |key| == |tracked|
  {
    f.test(Restrict(AsBinding(tracked, key), f.vars))
  }

  lemma ClearedBinding(tracked: seq<VarId>, key: Key, data: set<VarId>, s: set<VarId>)
    requires |key| == |tracked| && Distinct(tracked) && s !! data
    ensures Restrict(AsBinding(tracked, Cleared(tracked, key, data)), s) == Restrict(AsBinding(tracked, key), s)
  {
  }

  /** A ready filter does not depend on the solution: it can be decided from the entry at once. */
  lemma ReadyDecided(v: Vertex, data: set<VarId>, tracked: seq<VarId>, key: Key, m: Binding)
    requires |key| == |tracked| && Distinct(tracked)
    requires FilterOk(v, data, tracked) && ReadyFilter(v, data) && m.Keys == data
    ensures Passes(v.filter, AsBinding(tracked, Cleared(tracked, key, data)), m) <==> Holds(v.filter, tracked, key)
  {
    var s, c := v.filter.vars, Cleared(tracked, key, data);
    assert s !! data;
    ClearedBinding(tracked, key, data, s);
    assert Restrict(AsBinding(tracked, c) + m, s) == Restrict(AsBinding(tracked, c), s);
  }

  lemma PickedVar(vs: seq<Vertex>, keep: seq<nat>, i: nat, x: VarId)
    requires Indices(keep, |vs|) && i in keep && i < |vs| && vs[i].Operand? && x in vs[i].vars
    ensures x in DataVars(Pick(vs, keep))
  {
    var j :| 0 <= j < |keep| && keep[j] == i;
    assert Pick(vs, keep)[j] == vs[i];
  }

  lemma RemovedFiltersVars(vs: seq<Vertex>, removed: seq<nat>)
    requires forall p :: p in removed ==> p < |vs| && vs[p].FilterVertex?
    ensures DataVars(Pick(vs, Complement(|vs|, removed))) == DataVars(vs)
  {
    hide DataVars, Pick, Complement;
    var keep := Complement(|vs|, removed);
    PickDataVars(vs, keep, Range(|vs|));
    PickAll(vs);
    forall x | x in DataVars(vs) ensures x in DataVars(Pick(vs, keep)) {
      var i :| 0 <= i < |vs| && vs[i].Operand? && x in vs[i].vars;
      PickedVar(vs, keep, i, x);
    }
  }

  ghost predicate RemovedPass(vs: seq<Vertex>, removed: seq<nat>, base: Binding, m: Binding)
    requires forall p :: p in removed ==> p < |vs| && vs[p].FilterVertex?
  {
    forall p :: p in removed ==> Passes(vs[p].filter, base, m)
  }

  lemma SatAddFilters(vs: seq<Vertex>, ops: seq<Trie>, removed: seq<nat>, keep: seq<nat>, base: Binding, m: Binding)
    requires |vs| == |ops| && forall p :: p in removed ==> p < |vs| && vs[p].FilterVertex?
    requires Indices(keep, |vs|) && forall i: nat :: i < |vs| && i !in removed ==> i in keep
    requires m.Keys == DataVars(vs)
    requires Sat(Pick(vs, keep), Pick(ops, keep), base, m) && RemovedPass(vs, removed, base, m)
    ensures Sat(vs, ops, base, m)
  {
    hide DataVars, Pick;
    var vk, ok := Pick(vs, keep), Pick(ops, keep);
    forall i: nat | i < |vs|
      ensures vs[i].Operand? ==> forall x :: x in vs[i].vars ==> x in m
      ensures FitsAt(vs[i], ops[i], m)
      ensures vs[i].FilterVertex? ==> Passes(vs[i].filter, base, m)
    {
      if i !in removed {
        var j :| 0 <= j < |keep| && keep[j] == i;
        assert vk[j] == vs[i] && ok[j] == ops[i] && FitsAt(vk[j], ok[j], m);
      }
    }
  }

  lemma SatDropFilters(vs: seq<Vertex>, ops: seq<Trie>, keep: seq<nat>, base: Binding, m: Binding)
    requires |vs| == |ops| && Indices(keep, |vs|) && DataVars(Pick(vs, keep)) == DataVars(vs)
    requires Sat(vs, ops, base, m)
    ensures Sat(Pick(vs, keep), Pick(ops, keep), base, m)
  {
    hide DataVars, Pick;
    var vk, ok := Pick(vs, keep), Pick(ops, keep);
    forall j: nat | j < |keep|
      ensures FitsAt(vk[j], ok[j], m)
      ensures vk[j].FilterVertex? ==> Passes(vk[j].filter, base, m)
    {
      assert FitsAt(vs[keep[j]], ops[keep[j]], m);
    }
  }

  lemma SatWithoutFilters(vs: seq<Vertex>, ops: seq<Trie>, removed: seq<nat>, base: Binding, m: Binding)
    requires |vs| == |ops| && forall p :: p in removed ==> p < |vs| && vs[p].FilterVertex?
    ensures Sat(vs, ops, base, m) <==>
            Sat(Pick(vs, Complement(|vs|, removed)), Pick(ops, Complement(|vs|, removed)), base, m)
            && RemovedPass(vs, removed, base, m)
  {
    hide DataVars, Pick, Complement;
    var keep := Complement(|vs|, removed);
    RemovedFiltersVars(vs, removed);
    if Sat(Pick(vs, keep), Pick(ops, keep), base, m) && RemovedPass(vs, removed, base, m) {
      SatAddFilters(vs, ops, removed, keep, base, m);
    }
    if Sat(vs, ops, base, m) {
      SatDropFilters(vs, ops, keep, base, m);
    }
  }

  lemma ReadyPass(vs: seq<Vertex>, tracked: seq<VarId>, key: Key, removed: seq<nat>, m: Binding)
    requires |key| == |tracked| && Distinct(tracked) && FiltersOk(vs, tracked)
    requires AllReady(vs, removed) && m.Keys == DataVars(vs)
    ensures RemovedPass(vs, removed, AsBinding(tracked, Cleared(tracked, key, DataVars(vs))), m) <==>
            forall p :: p in removed ==> Holds(vs[p].filter, tracked, key)
  {
    forall p | p in removed
      ensures Passes(vs[p].filter, AsBinding(tracked, Cleared(tracked, key, DataVars(vs))), m)
         <==> Holds(vs[p].filter, tracked, key)
    {
      assert FilterOk(vs[p], DataVars(vs), tracked);
      ReadyDecided(vs[p], DataVars(vs), tracked, key, m);
    }
  }

  /** Deciding ready filters first leaves the solutions as they are, or none. */
  lemma FilterStep(vs: seq<Vertex>, ops: seq<Trie>, tracked: seq<VarId>, key: Key, removed: seq<nat>, k: Key)
    requires |vs| == |ops| && |key| == |tracked| && Distinct(tracked) && FiltersOk(vs, tracked)
    requires AllReady(vs, removed)
    ensures var c := Cleared(tracked, key, DataVars(vs));
            var keep := Complement(|vs|, removed);
            Matching(vs, ops, tracked, c, k) ==
            if forall p :: p in removed ==> Holds(vs[p].filter, tracked, key)
            then Matching(Pick(vs, keep), Pick(ops, keep), tracked, c, k) else {}
  {
    hide Matching, AllReady;
    assert forall p :: p in removed ==> p < |vs| && vs[p].FilterVertex? by { AllReadyFilters(vs, removed); }
    var c, keep := Cleared(tracked, key, DataVars(vs)), Complement(|vs|, removed);
    RemovedFiltersVars(vs, removed);
    forall m
      ensures m in Matching(vs, ops, tracked, c, k) <==>
              m in Matching(Pick(vs, keep), Pick(ops, keep), tracked, c, k)
              && forall p :: p in removed ==> Holds(vs[p].filter, tracked, key)
    {
      MatchingIff(vs, ops, tracked, c, k, m);
      MatchingIff(Pick(vs, keep), Pick(ops, keep), tracked, c, k, m);
      hide PassesAll, RemovedPass;
      SatWithoutFilters(vs, ops, removed, AsBinding(tracked, c), m);
      if m.Keys == DataVars(vs) {
        ReadyPass(vs, tracked, key, removed, m);
      }
    }
  }

  lemma AllReadyFilters(vs: seq<Vertex>, removed: seq<nat>)
    requires AllReady(vs, removed)
    ensures forall p :: p in removed ==> p < |vs| && vs[p].FilterVertex?
  {
  }

  lemma FiltersOkPick(vs: seq<Vertex>, tracked: seq<VarId>, keep: seq<nat>)
    requires FiltersOk(vs, tracked) && Indices(keep, |vs|)
    ensures FiltersOk(Pick(vs, keep), tracked)
  {
    PickDataVars(vs, keep, Range(|vs|));
    PickAll(vs);
    forall j | 0 <= j < |keep| ensures FilterOk(Pick(vs, keep)[j], DataVars(Pick(vs, keep)), tracked) {
      assert FilterOk(vs[keep[j]], DataVars(vs), tracked);
    }
  }

  /* ---------- a single operand ---------- */

  lemma {:induction false} RowOfBinding(vars: seq<VarId>, r: Row)
    requires |r| == |vars| && Distinct(vars)
    ensures RowOf(vars, RowBinding(vars, r)) == r
  {
    if vars != [] {
      RowOfBinding(Init(vars), Init(r));
      var m := RowBinding(Init(vars), Init(r));
      forall y | y in Init(vars) ensures y != Last(vars) {
        var i :| 0 <= i < |vars| - 1 && vars[i] == y;
      }
      RowAgree(Init(vars), m, m[Last(vars) := Last(r)]);
    }
  }

  /** The rows of an operand that project to k. */
  ghost function RowsFor(v: Vertex, t: Trie, tracked: seq<VarId>, c: Key, k: Key): set<Row>
    requires |c| == |tracked|
  {
    set r | r in t.rows && |r| == |v.vars| && KeyOf(tracked, c, RowBinding(v.vars, r)) == k
  }

  lemma SingleSat(v: Vertex, t: Trie, m: Binding)
    requires v.Operand?
    ensures SatJoin([v], [t], m) <==> m.Keys == Elements(v.vars) && RowOf(v.vars, m) in t.rows
  {
    SingleVars(v);
    assert [v][0] == v && [t][0] == t;
    if m.Keys == Elements(v.vars) {
      assert FitsAt(v, t, m) <==> RowOf(v.vars, m) in t.rows;
    }
  }

  lemma SingleVars(v: Vertex)
    requires v.Operand?
    ensures DataVars([v]) == Elements(v.vars)
  {
    assert Init([v]) == [];
  }

  function RowOrNone(vars: seq<VarId>, m: Binding): Row {
    if forall x :: x in vars ==> x in m then RowOf(vars, m) else []
  }

  function BindingOrNone(vars: seq<VarId>, r: Row): Binding {
    if |r| == |vars| then RowBinding(vars, r) else map[]
  }

  lemma BindingOfRow(vars: seq<VarId>, m: Binding)
    requires m.Keys == Elements(vars)
    ensures (forall x :: x in vars ==> x in m) && RowBinding(vars, RowOf(vars, m)) == m
  {
    RowBindingValues(vars, m);
    assert Restrict(m, Elements(vars)) == m;
  }

  lemma SingleForth(v: Vertex, t: Trie, tracked: seq<VarId>, c: Key, k: Key, m: Binding)
    requires v.Operand? && AlignedAt(v, t) && |c| == |tracked|
    requires m in Matching([v], [t], tracked, c, k)
    ensures RowOrNone(v.vars, m) in RowsFor(v, t, tracked, c, k) && BindingOrNone(v.vars, RowOrNone(v.vars, m)) == m
  {
    hide Matching, SatJoin, PassesAll, RowOf, RowBinding;
    MatchingIff([v], [t], tracked, c, k, m);
    SingleSat(v, t, m);
    BindingOfRow(v.vars, m);
  }

  lemma SingleBack(v: Vertex, t: Trie, tracked: seq<VarId>, c: Key, k: Key, r: Row)
    requires v.Operand? && AlignedAt(v, t) && Distinct(v.vars) && |c| == |tracked|
    requires r in RowsFor(v, t, tracked, c, k)
    ensures BindingOrNone(v.vars, r) in Matching([v], [t], tracked, c, k)
    ensures RowOrNone(v.vars, BindingOrNone(v.vars, r)) == r
  {
    hide Matching, SatJoin;
    var m := RowBinding(v.vars, r);
    RowOfBinding(v.vars, r);
    MatchingIff([v], [t], tracked, c, k, m);
    SingleSat(v, t, m);
    assert m.Keys == Elements(v.vars);
  }

  /** The solutions of one operand with distinct variables are its rows. */
  lemma SingleMatching(v: Vertex, t: Trie, tracked: seq<VarId>, c: Key, k: Key)
    requires v.Operand? && AlignedAt(v, t) && Distinct(v.vars) && |c| == |tracked|
    ensures |Matching([v], [t], tracked, c, k)| == |RowsFor(v, t, tracked, c, k)|
  {
    hide *;
    var s, rows := Matching([v], [t], tracked, c, k), RowsFor(v, t, tracked, c, k);
    var f := (m: Binding) => RowOrNone(v.vars, m);
    var g := (r: Row) => BindingOrNone(v.vars, r);
    forall m | m in s ensures f(m) in rows && g(f(m)) == m {
      SingleForth(v, t, tracked, c, k, m);
    }
    forall r | r in rows ensures g(r) in s && f(g(r)) == r {
      SingleBack(v, t, tracked, c, k, r);
    }
    BijectionCard(s, rows, f, g);
  }

  lemma UntrackedKey(v: Vertex, tracked: seq<VarId>, c: Key, m: Binding)
    requires |c| == |tracked| && m.Keys !! Elements(tracked)
    ensures KeyOf(tracked, c, m) == c
  {
    assert forall i :: 0 <= i < |tracked| ==> tracked[i] in Elements(tracked);
  }

  /** Counting an operand without tracked variables counts its solutions. */
  lemma CountMatching(v: Vertex, t: Trie, tracked: seq<VarId>, c: Key)
    requires v.Operand? && AlignedAt(v, t) && Distinct(v.vars) && |c| == |tracked|
    requires Elements(v.vars) !! Elements(tracked)
    ensures |Matching([v], [t], tracked, c, c)| == |t.rows|
  {
    SingleMatching(v, t, tracked, c, c);
    forall r | r in t.rows ensures r in RowsFor(v, t, tracked, c, c) {
      UntrackedKey(v, tracked, c, RowBinding(v.vars, r));
    }
    assert RowsFor(v, t, tracked, c, c) == t.rows;
  }
}
