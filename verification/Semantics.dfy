/**
 The naive algebra: join the operands one after the other, filter the complete
 result, and count how many solutions project to a key.
 */
module Semantics {
  import opened Graphs
  import opened Tries

  /* ---------- join ---------- */

  /** Two solution mappings agree on the variables they share. */
  predicate Compatible(m: Binding, n: Binding) {
    forall x :: x in m && x in n ==> m[x] == n[x]
  }

  /** The solution mapping of one row; of a repeated variable the last position counts. */
  function RowBinding(vars: seq<VarId>, r: Row): (m: Binding)
    requires |r| == |vars|
    ensures forall x :: x in m <==> x in vars
  {
    if vars == [] then map[] else RowBinding(Init(vars), Init(r))[Last(vars) := Last(r)]
  }

  /** The solution mappings of one operand; a row must give a repeated variable one value. */
  function OperandBindings(vars: seq<VarId>, t: Trie): set<Binding> {
    set r | r in t.rows && |r| == |vars| && RowOf(vars, RowBinding(vars, r)) == r :: RowBinding(vars, r)
  }

  /** The join of two sets of solution mappings. */
  function Join(a: set<Binding>, b: set<Binding>): set<Binding> {
    set m, n | m in a && n in b && Compatible(m, n) :: m + n
  }

  /** The join of all operands, left to right. */
  function NaiveJoin(vs: seq<Vertex>, ops: seq<Trie>): set<Binding>
    requires |vs| == |ops|
  {
    if vs == [] then {map[]}
    else
      var before := NaiveJoin(Init(vs), Init(ops));
      if Last(vs).FilterVertex? then before
      else Join(before, OperandBindings(Last(vs).vars, Last(ops)))
  }

  /* ---------- filters ---------- */

  function Restrict(b: Binding, s: set<VarId>): Binding {
    map x | x in b && x in s :: b[x]
  }

  /** A filter sees the variables resolved earlier and those of the solution. */
  predicate Passes(f: Filter, base: Binding, m: Binding) {
    f.test(Restrict(base + m, f.vars))
  }

  predicate PassesAll(vs: seq<Vertex>, base: Binding, m: Binding) {
    forall i :: 0 <= i < |vs| && vs[i].FilterVertex? ==> Passes(vs[i].filter, base, m)
  }

  /** The solutions of one union component: its filtered join. */
  function Sols(vs: seq<Vertex>, ops: seq<Trie>, base: Binding): set<Binding>
    requires |vs| == |ops|
  {
    set m | m in NaiveJoin(vs, ops) && PassesAll(vs, base, m)
  }

  /* ---------- the join by membership ---------- */

  ghost predicate FitsAt(v: Vertex, t: Trie, m: Binding)
    requires v.Operand? ==> forall x :: x in v.vars ==> x in m
  {
    v.Operand? ==> RowOf(v.vars, m) in t.rows
  }

  /** m binds exactly the variables of the operands, and every operand holds its row. */
  ghost predicate SatJoin(vs: seq<Vertex>, ops: seq<Trie>, m: Binding)
    requires |vs| == |ops|
  {
    m.Keys == DataVars(vs) && forall i :: 0 <= i < |vs| ==> FitsAt(vs[i], ops[i], m)
  }

  lemma {:induction false} RowBindingValues(vars: seq<VarId>, m: Binding)
    requires forall x :: x in vars ==> x in m
    ensures RowBinding(vars, RowOf(vars, m)) == Restrict(m, Elements(vars))
  {
    if vars != [] {
      var r := RowOf(vars, m);
      assert Init(r) == RowOf(Init(vars), m) && Last(r) == m[Last(vars)];
      RowBindingValues(Init(vars), m);
      RestrictStep(vars, m);
      hide RowOf, Restrict, Elements;
    }
  }

  lemma RestrictStep(vars: seq<VarId>, m: Binding)
    requires vars != [] && Last(vars) in m
    ensures Restrict(m, Elements(vars)) == Restrict(m, Elements(Init(vars)))[Last(vars) := m[Last(vars)]]
  {
    assert Elements(vars) == Elements(Init(vars)) + {Last(vars)};
  }

  /** The mappings of an operand are the bindings of its variables whose row it holds. */
  lemma OperandBindingsIff(vars: seq<VarId>, t: Trie, m: Binding)
    ensures m in OperandBindings(vars, t) <==> m.Keys == Elements(vars) && RowOf(vars, m) in t.rows
  {
    if m.Keys == Elements(vars) && RowOf(vars, m) in t.rows {
      RowBindingValues(vars, m);
      assert Restrict(m, Elements(vars)) == m;
    }
  }

  lemma JoinIff(a: set<Binding>, b: set<Binding>, ka: set<VarId>, kb: set<VarId>, m: Binding)
    requires forall n :: n in a ==> n.Keys == ka
    requires forall n :: n in b ==> n.Keys == kb
    ensures m in Join(a, b) <==> m.Keys == ka + kb && Restrict(m, ka) in a && Restrict(m, kb) in b
  {
    if m in Join(a, b) {
      var n, p :| n in a && p in b && Compatible(n, p) && m == n + p;
      assert Restrict(m, ka) == n;
      assert Restrict(m, kb) == p;
    }
    if m.Keys == ka + kb && Restrict(m, ka) in a && Restrict(m, kb) in b {
      assert m == Restrict(m, ka) + Restrict(m, kb);
      assert Compatible(Restrict(m, ka), Restrict(m, kb));
    }
  }

  lemma FitsRestrict(v: Vertex, t: Trie, m: Binding, s: set<VarId>)
    requires v.Operand? ==> forall x :: x in v.vars ==> x in m && x in s
    ensures FitsAt(v, t, Restrict(m, s)) <==> FitsAt(v, t, m)
  {
    if v.Operand? {
      RowAgree(v.vars, m, Restrict(m, s));
    }
  }

  lemma SatKeys(vs: seq<Vertex>, i: nat)
    requires i < |vs| && vs[i].Operand?
    ensures forall x :: x in vs[i].vars ==> x in DataVars(vs)
  {
  }

  lemma InitFits(vs: seq<Vertex>, ops: seq<Trie>, m: Binding, i: nat)
    requires |vs| == |ops| && vs != [] && m.Keys == DataVars(vs) && i < |vs| - 1
    ensures vs[i].Operand? ==> forall x :: x in vs[i].vars ==> x in m && x in DataVars(Init(vs))
    ensures FitsAt(vs[i], ops[i], Restrict(m, DataVars(Init(vs)))) <==> FitsAt(vs[i], ops[i], m)
  {
    hide DataVars;
    assert Init(vs)[i] == vs[i];
    if vs[i].Operand? {
      SatKeys(Init(vs), i);
      SatKeys(vs, i);
    }
    FitsRestrict(vs[i], ops[i], m, DataVars(Init(vs)));
  }

  lemma InitKeys(vs: seq<Vertex>, m: Binding)
    requires vs != [] && m.Keys == DataVars(vs)
    ensures Restrict(m, DataVars(Init(vs))).Keys == DataVars(Init(vs))
    ensures Last(vs).Operand? ==> forall x :: x in Last(vs).vars ==> x in m
  {
    if Last(vs).Operand? {
      SatKeys(vs, |vs| - 1);
    }
  }

  /** One more vertex in a join. */
  lemma SatJoinStep(vs: seq<Vertex>, ops: seq<Trie>, m: Binding)
    requires |vs| == |ops| && vs != []
    requires m.Keys == DataVars(vs)
    ensures SatJoin(vs, ops, m) <==>
            SatJoin(Init(vs), Init(ops), Restrict(m, DataVars(Init(vs)))) && FitsAt(Last(vs), Last(ops), m)
  {
    hide DataVars, FitsAt, Restrict;
    var p := Restrict(m, DataVars(Init(vs)));
    InitKeys(vs, m);
    forall i: nat | i < |vs|
      ensures vs[i].Operand? ==> forall x :: x in vs[i].vars ==> x in m
      ensures i < |vs| - 1 ==> (vs[i].Operand? ==> forall x :: x in vs[i].vars ==> x in p)
      ensures i < |vs| - 1 ==> (FitsAt(vs[i], ops[i], p) <==> FitsAt(vs[i], ops[i], m))
    {
      if i < |vs| - 1 {
        InitFits(vs, ops, m, i);
      }
    }
    forall i: nat | i < |vs| - 1 ensures Init(vs)[i] == vs[i] && Init(ops)[i] == ops[i] {
    }
  }

  lemma {:induction false} NaiveJoinKeys(vs: seq<Vertex>, ops: seq<Trie>, m: Binding)
    requires |vs| == |ops| && m in NaiveJoin(vs, ops)
    ensures m.Keys == DataVars(vs)
  {
    if vs != [] {
      if Last(vs).FilterVertex? {
        NaiveJoinKeys(Init(vs), Init(ops), m);
      } else {
        var n, p :| n in NaiveJoin(Init(vs), Init(ops)) && p in OperandBindings(Last(vs).vars, Last(ops)) && m == n + p;
        NaiveJoinKeys(Init(vs), Init(ops), n);
      }
    }
  }

  /** The naive join holds exactly the bindings that satisfy every operand. */
  lemma {:induction false} NaiveJoinIff(vs: seq<Vertex>, ops: seq<Trie>, m: Binding)
    requires |vs| == |ops|
    ensures m in NaiveJoin(vs, ops) <==> SatJoin(vs, ops, m)
  {
    if vs == [] {
      assert m.Keys == {} ==> m == map[];
    } else {
      var before := DataVars(Init(vs));
      NaiveJoinIff(Init(vs), Init(ops), Restrict(m, before));
      if m.Keys == DataVars(vs) {
        SatJoinStep(vs, ops, m);
      }
      if Last(vs).FilterVertex? {
        assert m.Keys == before ==> Restrict(m, before) == m;
        if m in NaiveJoin(vs, ops) {
          NaiveJoinKeys(vs, ops, m);
        }
      } else {
        NaiveJoinIffOperand(vs, ops, m);
      }
    }
  }

  lemma NaiveJoinIffOperand(vs: seq<Vertex>, ops: seq<Trie>, m: Binding)
    requires |vs| == |ops| && vs != [] && Last(vs).Operand?
    requires Restrict(m, DataVars(Init(vs))) in NaiveJoin(Init(vs), Init(ops))
        <==> SatJoin(Init(vs), Init(ops), Restrict(m, DataVars(Init(vs))))
    requires m.Keys == DataVars(vs) ==>
            (SatJoin(vs, ops, m) <==>
            SatJoin(Init(vs), Init(ops), Restrict(m, DataVars(Init(vs)))) && FitsAt(Last(vs), Last(ops), m))
    ensures m in NaiveJoin(vs, ops) <==> SatJoin(vs, ops, m)
  {
    var a, b := NaiveJoin(Init(vs), Init(ops)), OperandBindings(Last(vs).vars, Last(ops));
    var ka, kb := DataVars(Init(vs)), Elements(Last(vs).vars);
    forall n | n in a ensures n.Keys == ka { NaiveJoinKeys(Init(vs), Init(ops), n); }
    forall n | n in b ensures n.Keys == kb { OperandBindingsIff(Last(vs).vars, Last(ops), n); }
    JoinIff(a, b, ka, kb, m);
    OperandBindingsIff(Last(vs).vars, Last(ops), Restrict(m, kb));
    if m.Keys == ka + kb {
      assert Restrict(m, kb).Keys == kb;
      RowAgree(Last(vs).vars, m, Restrict(m, kb));
    }
  }

  ghost predicate Sat(vs: seq<Vertex>, ops: seq<Trie>, base: Binding, m: Binding)
    requires |vs| == |ops|
  {
    SatJoin(vs, ops, m) && PassesAll(vs, base, m)
  }

  lemma SolsIff(vs: seq<Vertex>, ops: seq<Trie>, base: Binding, m: Binding)
    requires |vs| == |ops|
    ensures m in Sols(vs, ops, base) <==> Sat(vs, ops, base, m)
  {
    NaiveJoinIff(vs, ops, m);
  }
}
