/**
 Why parts that share no variable can be evaluated apart: the solutions of two
 independent parts that project to a key are the pairs of their solutions.
 */
module ProductProof {
  import opened Graphs
  import opened Tries
  import opened Semantics
  import opened Projection
  import opened Counting

  /* ---------- order does not matter ---------- */

  ghost predicate SameMembers(a: seq<nat>, b: seq<nat>) {
    forall i :: i in a <==> i in b
  }

  lemma PickDataVars(vs: seq<Vertex>, a: seq<nat>, b: seq<nat>)
    requires Indices(a, |vs|) && Indices(b, |vs|) && forall i :: i in a ==> i in b
    ensures DataVars(Pick(vs, a)) <= DataVars(Pick(vs, b))
  {
    forall x | x in DataVars(Pick(vs, a)) ensures x in DataVars(Pick(vs, b)) {
      var i :| 0 <= i < |a| && Pick(vs, a)[i].Operand? && x in Pick(vs, a)[i].vars;
      assert a[i] in b;
      var j :| 0 <= j < |b| && b[j] == a[i];
      assert Pick(vs, b)[j] == vs[a[i]];
    }
  }

  lemma SatMembers(vs: seq<Vertex>, ops: seq<Trie>, base: Binding, a: seq<nat>, b: seq<nat>, m: Binding)
    requires |vs| == |ops| && Indices(a, |vs|) && Indices(b, |vs|) && SameMembers(a, b)
    requires Sat(Pick(vs, a), Pick(ops, a), base, m)
    ensures Sat(Pick(vs, b), Pick(ops, b), base, m)
  {
    PickDataVars(vs, a, b);
    PickDataVars(vs, b, a);
    var va, vb := Pick(vs, a), Pick(vs, b);
    var oa, ob := Pick(ops, a), Pick(ops, b);
    forall j: nat | j < |b|
      ensures vb[j].Operand? ==> forall x :: x in vb[j].vars ==> x in m
      ensures FitsAt(vb[j], ob[j], m)
      ensures vb[j].FilterVertex? ==> Passes(vb[j].filter, base, m)
    {
      assert b[j] in a;
      var i :| 0 <= i < |a| && a[i] == b[j];
      assert va[i] == vb[j] && oa[i] == ob[j];
      assert FitsAt(va[i], oa[i], m);
    }
  }

  /** The solutions of a selection depend only on which vertices it selects. */
  lemma MatchingMembers(vs: seq<Vertex>, ops: seq<Trie>, tracked: seq<VarId>, c: Key, k: Key, a: seq<nat>, b: seq<nat>)
    requires |vs| == |ops| && |c| == |tracked|
    requires Indices(a, |vs|) && Indices(b, |vs|) && SameMembers(a, b)
    ensures Matching(Pick(vs, a), Pick(ops, a), tracked, c, k) == Matching(Pick(vs, b), Pick(ops, b), tracked, c, k)
  {
    hide Matching;
    var base := AsBinding(tracked, c);
    forall m
      ensures m in Matching(Pick(vs, a), Pick(ops, a), tracked, c, k)
         <==> m in Matching(Pick(vs, b), Pick(ops, b), tracked, c, k)
    {
      hide SatJoin, PassesAll;
      MatchingIff(Pick(vs, a), Pick(ops, a), tracked, c, k, m);
      MatchingIff(Pick(vs, b), Pick(ops, b), tracked, c, k, m);
      if Sat(Pick(vs, a), Pick(ops, a), base, m) {
        SatMembers(vs, ops, base, a, b, m);
      }
      if Sat(Pick(vs, b), Pick(ops, b), base, m) {
        SatMembers(vs, ops, base, b, a, m);
      }
    }
  }

  lemma PickConcat<T>(s: seq<T>, a: seq<nat>, b: seq<nat>)
    requires Indices(a, |s|) && Indices(b, |s|)
    ensures Indices(a + b, |s|) && Pick(s, a + b) == Pick(s, a) + Pick(s, b)
  {
  }

  /* ---------- two independent parts ---------- */

  /** The parts share no operand variable, and no filter reads an operand variable of the other part. */
  ghost predicate Independent(va: seq<Vertex>, vb: seq<Vertex>) {
    && DataVars(va) !! DataVars(vb)
    && (forall i :: 0 <= i < |va| && va[i].FilterVertex? ==> va[i].filter.vars !! DataVars(vb))
    && (forall i :: 0 <= i < |vb| && vb[i].FilterVertex? ==> vb[i].filter.vars !! DataVars(va))
  }

  lemma {:induction false} DataVarsConcat(va: seq<Vertex>, vb: seq<Vertex>)
    ensures DataVars(va + vb) == DataVars(va) + DataVars(vb)
  {
    if vb == [] {
      assert va + vb == va;
    } else {
      assert Init(va + vb) == va + Init(vb) && Last(va + vb) == Last(vb);
      hide *;
      DataVarsConcat(va, Init(vb));
      DataVarsInit(va + vb);
      DataVarsInit(vb);
    }
  }

  lemma DataVarsInit(vs: seq<Vertex>)
    requires vs != []
    ensures DataVars(vs) == DataVars(Init(vs)) + (if Last(vs).Operand? then Elements(Last(vs).vars) else {})
  {
  }

  /** Every operand holds its row of m. */
  ghost predicate AllFit(vs: seq<Vertex>, ops: seq<Trie>, m: Binding)
    requires |vs| == |ops| && DataVars(vs) <= m.Keys
  {
    forall i :: 0 <= i < |vs| ==> FitsAt(vs[i], ops[i], m)
  }

  lemma AllFitConcat(va: seq<Vertex>, oa: seq<Trie>, vb: seq<Vertex>, ob: seq<Trie>, m: Binding)
    requires |va| == |oa| && |vb| == |ob|
    requires DataVars(va) <= m.Keys && DataVars(vb) <= m.Keys && DataVars(va + vb) <= m.Keys
    ensures AllFit(va + vb, oa + ob, m) <==> AllFit(va, oa, m) && AllFit(vb, ob, m)
  {
    hide DataVars;
    var v, o := va + vb, oa + ob;
    if AllFit(v, o, m) {
      forall i: nat | i < |va| ensures FitsAt(va[i], oa[i], m) {
        assert FitsAt(v[i], o[i], m);
      }
      forall i: nat | i < |vb| ensures FitsAt(vb[i], ob[i], m) {
        assert FitsAt(v[|va| + i], o[|va| + i], m);
      }
    }
  }

  lemma SatJoinConcat(va: seq<Vertex>, oa: seq<Trie>, vb: seq<Vertex>, ob: seq<Trie>, m: Binding)
    requires |va| == |oa| && |vb| == |ob|
    ensures SatJoin(va + vb, oa + ob, m) <==>
            m.Keys == DataVars(va) + DataVars(vb)
            && SatJoin(va, oa, Restrict(m, DataVars(va))) && SatJoin(vb, ob, Restrict(m, DataVars(vb)))
  {
    hide DataVars;
    DataVarsConcat(va, vb);
    if m.Keys == DataVars(va) + DataVars(vb) {
      SatRestrict(va, oa, m);
      SatRestrict(vb, ob, m);
      AllFitConcat(va, oa, vb, ob, m);
    }
  }

  lemma SatRestrict(vs: seq<Vertex>, ops: seq<Trie>, m: Binding)
    requires |vs| == |ops| && DataVars(vs) <= m.Keys
    ensures SatJoin(vs, ops, Restrict(m, DataVars(vs))) <==> AllFit(vs, ops, m)
  {
    var r := Restrict(m, DataVars(vs));
    assert r.Keys == DataVars(vs);
    forall i: nat | i < |vs|
      ensures vs[i].Operand? ==> forall x :: x in vs[i].vars ==> x in m && x in r
      ensures FitsAt(vs[i], ops[i], r) <==> FitsAt(vs[i], ops[i], m)
    {
      if vs[i].Operand? {
        SatKeys(vs, i);
      }
      FitsRestrict(vs[i], ops[i], m, DataVars(vs));
    }
  }

  lemma PassesRestrict(f: Filter, base: Binding, m: Binding, d: set<VarId>)
    requires f.vars !! m.Keys - d
    ensures Passes(f, base, Restrict(m, d)) <==> Passes(f, base, m)
  {
    assert Restrict(base + Restrict(m, d), f.vars) == Restrict(base + m, f.vars);
  }

  lemma PassesConcat(va: seq<Vertex>, vb: seq<Vertex>, base: Binding, m: Binding)
    requires Independent(va, vb) && m.Keys == DataVars(va) + DataVars(vb)
    ensures PassesAll(va + vb, base, m) <==>
            PassesAll(va, base, Restrict(m, DataVars(va))) && PassesAll(vb, base, Restrict(m, DataVars(vb)))
  {
    var v := va + vb;
    forall i: nat | i < |va| && va[i].FilterVertex?
      ensures v[i] == va[i]
      ensures Passes(va[i].filter, base, Restrict(m, DataVars(va))) <==> Passes(va[i].filter, base, m)
    {
      PassesRestrict(va[i].filter, base, m, DataVars(va));
    }
    forall i: nat | i < |vb| && vb[i].FilterVertex?
      ensures v[|va| + i] == vb[i]
      ensures Passes(vb[i].filter, base, Restrict(m, DataVars(vb))) <==> Passes(vb[i].filter, base, m)
    {
      PassesRestrict(vb[i].filter, base, m, DataVars(vb));
    }
  }

  /** k at the positions of d, and c elsewhere. */
  function PartKey(tracked: seq<VarId>, c: Key, k: Key, d: set<VarId>): (p: Key)
    requires |c| == |tracked| == |k|
    ensures |p| == |c|
    ensures forall i :: 0 <= i < |c| ==> p[i] == if tracked[i] in d then k[i] else c[i]
  {
    seq(|c|, i requires 0 <= i < |c| => if tracked[i] in d then k[i] else c[i])
  }

  /** k differs from c at most at the positions of d. */
  predicate AgreesOutside(tracked: seq<VarId>, c: Key, k: Key, d: set<VarId>) {
    |c| == |tracked| == |k| && forall i :: 0 <= i < |c| && tracked[i] !in d ==> k[i] == c[i]
  }

  lemma KeyOfConcat(tracked: seq<VarId>, c: Key, k: Key, m: Binding, da: set<VarId>, db: set<VarId>)
    requires |c| == |tracked| && m.Keys == da + db && AgreesOutside(tracked, c, k, da + db)
    ensures KeyOf(tracked, c, m) == k <==>
            KeyOf(tracked, c, Restrict(m, da)) == PartKey(tracked, c, k, da)
            && KeyOf(tracked, c, Restrict(m, db)) == PartKey(tracked, c, k, db)
  {
    var ka, kb := KeyOf(tracked, c, Restrict(m, da)), KeyOf(tracked, c, Restrict(m, db));
    if KeyOf(tracked, c, m) == k {
      assert ka == PartKey(tracked, c, k, da);
      assert kb == PartKey(tracked, c, k, db);
    }
    if ka == PartKey(tracked, c, k, da) && kb == PartKey(tracked, c, k, db) {
      forall i: nat | i < |c| ensures KeyOf(tracked, c, m)[i] == k[i] {
        assert ka[i] == PartKey(tracked, c, k, da)[i];
        assert kb[i] == PartKey(tracked, c, k, db)[i];
      }
    }
  }

  lemma MatchingConcat(va: seq<Vertex>, oa: seq<Trie>, vb: seq<Vertex>, ob: seq<Trie>,
                       tracked: seq<VarId>, c: Key, k: Key, m: Binding)
    requires |va| == |oa| && |vb| == |ob| && |c| == |tracked|
    requires |k| == |tracked|
    requires Independent(va, vb) && AgreesOutside(tracked, c, k, DataVars(va) + DataVars(vb))
    ensures m in Matching(va + vb, oa + ob, tracked, c, k) <==>
            m.Keys == DataVars(va) + DataVars(vb)
            && Restrict(m, DataVars(va)) in Matching(va, oa, tracked, c, PartKey(tracked, c, k, DataVars(va)))
            && Restrict(m, DataVars(vb)) in Matching(vb, ob, tracked, c, PartKey(tracked, c, k, DataVars(vb)))
  {
    hide *;
    var da, db := DataVars(va), DataVars(vb);
    MatchingIff(va + vb, oa + ob, tracked, c, k, m);
    MatchingIff(va, oa, tracked, c, PartKey(tracked, c, k, da), Restrict(m, da));
    MatchingIff(vb, ob, tracked, c, PartKey(tracked, c, k, db), Restrict(m, db));
    SatJoinConcat(va, oa, vb, ob, m);
    if m.Keys == da + db {
      PassesConcat(va, vb, AsBinding(tracked, c), m);
      KeyOfConcat(tracked, c, k, m, da, db);
    }
  }

  lemma MatchingKeys(vs: seq<Vertex>, ops: seq<Trie>, tracked: seq<VarId>, c: Key, k: Key, m: Binding)
    requires |vs| == |ops| && |c| == |tracked| && m in Matching(vs, ops, tracked, c, k)
    ensures m.Keys == DataVars(vs)
    ensures AgreesOutside(tracked, c, k, DataVars(vs))
  {
    MatchingIff(vs, ops, tracked, c, k, m);
  }

  /** The solutions of two independent parts multiply. */
  lemma ProductMatching(va: seq<Vertex>, oa: seq<Trie>, vb: seq<Vertex>, ob: seq<Trie>,
                        tracked: seq<VarId>, c: Key, k: Key)
    requires |va| == |oa| && |vb| == |ob| && |c| == |tracked|
    requires |k| == |tracked|
    requires Independent(va, vb) && AgreesOutside(tracked, c, k, DataVars(va) + DataVars(vb))
    ensures |Matching(va + vb, oa + ob, tracked, c, k)|
         == |Matching(va, oa, tracked, c, PartKey(tracked, c, k, DataVars(va)))|
            * |Matching(vb, ob, tracked, c, PartKey(tracked, c, k, DataVars(vb)))|
  {
    hide Matching, Independent, AgreesOutside, PartKey, DataVars;
    var da, db := DataVars(va), DataVars(vb);
    assert da !! db by { IndependentDisjoint(va, vb); }
    var s := Matching(va + vb, oa + ob, tracked, c, k);
    var a := Matching(va, oa, tracked, c, PartKey(tracked, c, k, da));
    var b := Matching(vb, ob, tracked, c, PartKey(tracked, c, k, db));
    var f := (m: Binding) => (Restrict(m, da), Restrict(m, db));
    var g := (p: (Binding, Binding)) => p.0 + p.1;
    forall m | m in s ensures f(m) in Pairs(a, b) && g(f(m)) == m {
      MatchingConcat(va, oa, vb, ob, tracked, c, k, m);
      assert Restrict(m, da) + Restrict(m, db) == m;
    }
    forall p | p in Pairs(a, b) ensures g(p) in s && f(g(p)) == p {
      MatchingKeys(va, oa, tracked, c, PartKey(tracked, c, k, da), p.0);
      MatchingKeys(vb, ob, tracked, c, PartKey(tracked, c, k, db), p.1);
      var m := p.0 + p.1;
      assert Restrict(m, da) == p.0;
      assert Restrict(m, db) == p.1;
      MatchingConcat(va, oa, vb, ob, tracked, c, k, m);
    }
    BijectionCard(s, Pairs(a, b), f, g);
    ProductCard(a, b);
  }

  lemma IndependentDisjoint(va: seq<Vertex>, vb: seq<Vertex>)
    requires Independent(va, vb)
    ensures DataVars(va) !! DataVars(vb)
  {
  }

  /** A key that differs from c outside the variables of the graph has no solution. */
  lemma MatchingOutside(vs: seq<Vertex>, ops: seq<Trie>, tracked: seq<VarId>, c: Key, k: Key)
    requires |vs| == |ops| && |c| == |tracked| && !AgreesOutside(tracked, c, k, DataVars(vs))
    ensures Matching(vs, ops, tracked, c, k) == {}
  {
    if m :| m in Matching(vs, ops, tracked, c, k) {
      MatchingKeys(vs, ops, tracked, c, k, m);
    }
  }
}
