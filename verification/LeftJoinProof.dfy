/**
 Left joins: every solution of the mandatory part is extended once for each
 compatible mapping of the optional operand, or kept as it is if there is none;
 and why this can be evaluated one variable at a time.
 */
module LeftJoinProof {
  import opened Graphs
  import opened Tries
  import opened Semantics
  import opened Projection
  import opened Counting
  import opened JoinProof

  /** The mandatory operands, and the optional one. */
  datatype LeftProblem = LeftProblem(vs: seq<Vertex>, ops: seq<Trie>, opt: Vertex, trie: Trie) {
    ghost predicate Valid() {
      |vs| == |ops| && Aligned(vs, ops) && opt.Operand? && AlignedAt(opt, trie)
    }
  }

  /** Some mapping of the optional operand is compatible with m. */
  predicate Extends(opt: Vertex, trie: Trie, m: Binding) {
    exists n :: n in OperandBindings(opt.vars, trie) && Compatible(m, n)
  }

  /** The left join of the mandatory part with the optional operand. */
  function LeftJoin(a: set<Binding>, opt: Vertex, trie: Trie): set<Binding> {
    Join(a, OperandBindings(opt.vars, trie)) + set m | m in a && !Extends(opt, trie, m)
  }

  function LeftSolutions(p: LeftProblem): set<Binding>
    requires |p.vs| == |p.ops|
  {
    LeftJoin(NaiveJoin(p.vs, p.ops), p.opt, p.trie)
  }

  /** A solution binds the mandatory variables alone and has no extension, or binds those of the optional operand too. */
  lemma LeftIff(p: LeftProblem, m: Binding)
    requires |p.vs| == |p.ops|
    ensures m in LeftSolutions(p) <==>
            || (m.Keys == DataVars(p.vs) && SatJoin(p.vs, p.ops, m) && !Extends(p.opt, p.trie, m))
            || (m.Keys == DataVars(p.vs) + Elements(p.opt.vars)
                && SatJoin(p.vs, p.ops, Restrict(m, DataVars(p.vs))) && RowOf(p.opt.vars, m) in p.trie.rows)
  {
    hide SatJoin, DataVars, Extends;
    var a, b := NaiveJoin(p.vs, p.ops), OperandBindings(p.opt.vars, p.trie);
    var ka, kb := DataVars(p.vs), Elements(p.opt.vars);
    forall n | n in a ensures n.Keys == ka { NaiveJoinKeys(p.vs, p.ops, n); }
    forall n | n in b ensures n.Keys == kb { OperandBindingsIff(p.opt.vars, p.trie, n); }
    JoinIff(a, b, ka, kb, m);
    NaiveJoinIff(p.vs, p.ops, m);
    NaiveJoinIff(p.vs, p.ops, Restrict(m, ka));
    if m.Keys == ka + kb {
      OptionalRow(p.opt.vars, p.trie, m);
    }
  }

  lemma OptionalRow(vars: seq<VarId>, t: Trie, m: Binding)
    requires Elements(vars) <= m.Keys
    ensures forall x :: x in vars ==> x in m
    ensures Restrict(m, Elements(vars)) in OperandBindings(vars, t) <==> RowOf(vars, m) in t.rows
  {
    var r := Restrict(m, Elements(vars));
    assert r.Keys == Elements(vars);
    OperandBindingsIff(vars, t, r);
    RowAgree(vars, m, r);
  }

  /* ---------- one variable ---------- */

  /** The problem with x resolved to v. */
  ghost predicate LeftStep(p: LeftProblem, x: VarId, v: Term, q: LeftProblem) {
    && JoinStep(p.vs, p.ops, x, v, Kept(p.vs, x), q.vs, q.ops)
    && q.opt == VertexWithout(p.opt, x)
    && q.trie == SliceOrKeep(p.trie, OwnPositions(p.opt, x), v)
  }

  /** Extending by the optional operand and by its slice is the same. */
  lemma ExtendsStep(opt: Vertex, trie: Trie, x: VarId, m: Binding)
    requires opt.Operand? && AlignedAt(opt, trie) && x in m
    ensures Extends(opt, trie, m)
       <==> Extends(VertexWithout(opt, x), SliceOrKeep(trie, OwnPositions(opt, x), m[x]), m - {x})
  {
    var w, t := VertexWithout(opt, x), SliceOrKeep(trie, OwnPositions(opt, x), m[x]);
    if Extends(opt, trie, m) {
      var n :| n in OperandBindings(opt.vars, trie) && Compatible(m, n);
      ExtensionDown(opt, trie, x, m, n);
    }
    if Extends(w, t, m - {x}) {
      var n :| n in OperandBindings(w.vars, t) && Compatible(m - {x}, n);
      ExtensionUp(opt, trie, x, m, n);
    }
  }

  /** The optional operand's row of m, and the row left when x is resolved. */
  lemma OptionalFits(opt: Vertex, trie: Trie, x: VarId, m: Binding)
    requires opt.Operand? && AlignedAt(opt, trie) && x in m && Elements(opt.vars) <= m.Keys
    ensures forall y :: y in opt.vars ==> y in m
    ensures forall y :: y in RemoveFrom(opt.vars, x) ==> y in m - {x}
    ensures RowOf(RemoveFrom(opt.vars, x), m - {x}) in SliceOrKeep(trie, OwnPositions(opt, x), m[x]).rows
       <==> RowOf(opt.vars, m) in trie.rows
  {
    var w := VertexWithout(opt, x);
    assert forall y :: y in opt.vars ==> y in Elements(opt.vars);
    assert forall y :: y in w.vars ==> y in m - {x};
    hide *;
    FitsStep(opt, trie, x, m);
    FitsIs(opt, trie, m);
    FitsIs(w, SliceOrKeep(trie, OwnPositions(opt, x), m[x]), m - {x});
  }

  lemma FitsIs(v: Vertex, t: Trie, m: Binding)
    requires v.Operand? && forall y :: y in v.vars ==> y in m
    ensures FitsAt(v, t, m) <==> RowOf(v.vars, m) in t.rows
  {
  }

  lemma RowSame(vars: seq<VarId>, m: Binding, n: Binding)
    requires Elements(vars) <= m.Keys && Elements(vars) <= n.Keys
    requires forall y :: y in Elements(vars) ==> m[y] == n[y]
    ensures (forall y :: y in vars ==> y in m && y in n) && RowOf(vars, m) == RowOf(vars, n)
  {
    assert forall y :: y in vars ==> y in Elements(vars);
    RowAgree(vars, m, n);
  }

  lemma ExtendsBy(opt: Vertex, trie: Trie, m: Binding, n: Binding)
    requires n in OperandBindings(opt.vars, trie) && Compatible(m, n)
    ensures Extends(opt, trie, m)
  {
  }

  /** What resolving x leaves of a mapping and of one compatible with it. */
  lemma CompatibleWithout(m: Binding, n: Binding, x: VarId)
    requires Compatible(m, n) && x in m
    ensures Compatible(m - {x}, n - {x}) && n[x := m[x]] - {x} == n - {x}
    ensures forall y :: y in n ==> n[x := m[x]][y] == n[y]
    ensures (n - {x}).Keys == n.Keys - {x} && n.Keys <= n[x := m[x]].Keys
  {
  }

  lemma CompatibleWith(m: Binding, n: Binding, x: VarId, d: set<VarId>)
    requires x in m && Compatible(m - {x}, n) && n.Keys == d - {x}
    ensures n[x := m[x]] - {x} == n && d <= n[x := m[x]].Keys
    ensures Compatible(m, Restrict(n[x := m[x]], d))
  {
  }

  lemma ExtensionDown(opt: Vertex, trie: Trie, x: VarId, m: Binding, n: Binding)
    requires opt.Operand? && AlignedAt(opt, trie) && x in m
    requires n in OperandBindings(opt.vars, trie) && Compatible(m, n)
    ensures Extends(VertexWithout(opt, x), SliceOrKeep(trie, OwnPositions(opt, x), m[x]), m - {x})
  {
    hide *;
    var w, t, full := VertexWithout(opt, x), SliceOrKeep(trie, OwnPositions(opt, x), m[x]), n[x := m[x]];
    CompatibleWithout(m, n, x);
    OperandBindingsIff(opt.vars, trie, n);
    OperandBindingsIff(w.vars, t, n - {x});
    WithoutElements(opt.vars, x);
    RowSame(opt.vars, full, n);
    OptionalFits(opt, trie, x, full);
    ExtendsBy(w, t, m - {x}, n - {x});
  }

  lemma ExtensionUp(opt: Vertex, trie: Trie, x: VarId, m: Binding, n: Binding)
    requires opt.Operand? && AlignedAt(opt, trie) && x in m
    requires n in OperandBindings(VertexWithout(opt, x).vars, SliceOrKeep(trie, OwnPositions(opt, x), m[x]))
    requires Compatible(m - {x}, n)
    ensures Extends(opt, trie, m)
  {
    hide *;
    var w, t, full := VertexWithout(opt, x), SliceOrKeep(trie, OwnPositions(opt, x), m[x]), n[x := m[x]];
    OperandBindingsIff(w.vars, t, n);
    WithoutElements(opt.vars, x);
    CompatibleWith(m, n, x, Elements(opt.vars));
    OptionalFits(opt, trie, x, full);
    OptionalRow(opt.vars, trie, full);
    ExtendsBy(opt, trie, m, Restrict(full, Elements(opt.vars)));
  }

  lemma WithoutElements(vars: seq<VarId>, x: VarId)
    ensures Elements(RemoveFrom(vars, x)) == Elements(vars) - {x}
  {
  }

  lemma StepRestrict(d: set<VarId>, x: VarId, m: Binding)
    requires x in m && x in d
    ensures Restrict(m - {x}, d - {x}) == Restrict(m, d) - {x}
  {
  }

  /** Resolving x to its value: the rest of a solution solves the rest of the problem, and conversely. */
  lemma LeftStepIff(p: LeftProblem, x: VarId, m: Binding, q: LeftProblem)
    requires p.Valid() && Live(p.vs, p.ops) && x in DataVars(p.vs) && x in m
    requires LeftStep(p, x, m[x], q) && |q.vs| == |q.ops|
    ensures m - {x} in LeftSolutions(q) <==> m in LeftSolutions(p)
  {
    hide JoinStep, Aligned, Live, SatJoin, DataVars, Extends, LeftSolutions, FitsAt;
    var d, e := DataVars(p.vs), Elements(p.opt.vars);
    LeftIff(p, m);
    LeftIff(q, m - {x});
    StepDataVars(p.vs, p.ops, x, m[x], Kept(p.vs, x), q.vs, q.ops);
    WithoutElements(p.opt.vars, x);
    assert (d - {x}) + (e - {x}) == (d + e) - {x};
    KeysWithout(m, d, x);
    KeysWithout(m, d + e, x);
    if m.Keys == d {
      SatStep(p.vs, p.ops, x, m, Kept(p.vs, x), q.vs, q.ops);
      ExtendsStep(p.opt, p.trie, x, m);
    }
    if m.Keys == d + e {
      StepRestrict(d, x, m);
      SatStep(p.vs, p.ops, x, Restrict(m, d), Kept(p.vs, x), q.vs, q.ops);
      OptionalFits(p.opt, p.trie, x, m);
    }
  }

  /* ---------- counting ---------- */

  /** The solutions of the left join that project to k. */
  ghost function LeftMatching(p: LeftProblem, tracked: seq<VarId>, c: Key, k: Key): set<Binding>
    requires |p.vs| == |p.ops| && |c| == |tracked|
  {
    set m | m in LeftSolutions(p) && KeyOf(tracked, c, m) == k
  }

  lemma LeftMatchingStep(p: LeftProblem, tracked: seq<VarId>, c: Key, k: Key, x: VarId, m: Binding, q: LeftProblem)
    requires p.Valid() && Live(p.vs, p.ops) && x in DataVars(p.vs) && x in m
    requires LeftStep(p, x, m[x], q) && |p.vs| == |p.ops| && |q.vs| == |q.ops|
    requires |c| == |tracked| && Distinct(tracked)
    ensures m - {x} in LeftMatching(q, tracked, Assigned(tracked, c, x, m[x]), k)
       <==> m in LeftMatching(p, tracked, c, k)
  {
    hide LeftSolutions, LeftStep, DataVars, Live;
    LeftStepIff(p, x, m, q);
    KeyOfStep(tracked, c, m, x);
  }

  lemma LeftKeys(p: LeftProblem, m: Binding)
    requires |p.vs| == |p.ops| && m in LeftSolutions(p)
    ensures DataVars(p.vs) <= m.Keys <= DataVars(p.vs) + Elements(p.opt.vars)
  {
    LeftIff(p, m);
  }

  /** The solutions that give x the value v are as many as those of the resolved problem. */
  lemma LeftStepCard(p: LeftProblem, tracked: seq<VarId>, c: Key, k: Key, x: VarId, v: Term, q: LeftProblem)
    requires p.Valid() && Live(p.vs, p.ops) && x in DataVars(p.vs)
    requires LeftStep(p, x, v, q) && |p.vs| == |p.ops| && |q.vs| == |q.ops|
    requires |c| == |tracked| && Distinct(tracked)
    ensures |ResolvedIn(LeftMatching(p, tracked, c, k), x, {v})|
         == |LeftMatching(q, tracked, Assigned(tracked, c, x, v), k)|
  {
    hide LeftMatching, LeftStep, DataVars, Live, Aligned;
    var s := ResolvedIn(LeftMatching(p, tracked, c, k), x, {v});
    var t := LeftMatching(q, tracked, Assigned(tracked, c, x, v), k);
    var f := (m: Binding) => m - {x};
    var g := (m: Binding) => m[x := v];
    forall m | m in s ensures f(m) in t && g(f(m)) == m {
      LeftMatchingStep(p, tracked, c, k, x, m, q);
    }
    forall m | m in t ensures g(m) in s && f(g(m)) == m {
      ResolvedGone(p, tracked, Assigned(tracked, c, x, v), k, x, v, q, m);
      assert g(m) - {x} == m;
      LeftMatchingStep(p, tracked, c, k, x, g(m), q);
    }
    BijectionCard(s, t, f, g);
  }

  lemma ResolvedGone(p: LeftProblem, tracked: seq<VarId>, c: Key, k: Key, x: VarId, v: Term, q: LeftProblem, m: Binding)
    requires LeftStep(p, x, v, q) && |q.vs| == |q.ops| && |c| == |tracked|
    requires m in LeftMatching(q, tracked, c, k)
    ensures x !in m
  {
    hide JoinStep, DataVars, LeftSolutions;
    LeftKeys(q, m);
    StepDataVars(p.vs, p.ops, x, v, Kept(p.vs, x), q.vs, q.ops);
    WithoutElements(p.opt.vars, x);
  }

  /** With all join keys of the mandatory operands done, every solution is counted. */
  lemma LeftResolvedAll(p: LeftProblem, tracked: seq<VarId>, c: Key, k: Key, x: VarId)
    requires |p.vs| == |p.ops| && |c| == |tracked| && x in DataVars(p.vs)
    ensures ResolvedIn(LeftMatching(p, tracked, c, k), x, JoinKeys(p.ops, VarPositions(p.vs, x)))
         == LeftMatching(p, tracked, c, k)
  {
    hide JoinKeys, SatJoin, DataVars, LeftSolutions, VarPositions;
    forall m | m in LeftMatching(p, tracked, c, k) ensures x in m && m[x] in JoinKeys(p.ops, VarPositions(p.vs, x)) {
      LeftIff(p, m);
      if m.Keys == DataVars(p.vs) && SatJoin(p.vs, p.ops, m) {
        JoinKeyOfSolution(p.vs, p.ops, x, m);
      } else {
        JoinKeyOfSolution(p.vs, p.ops, x, Restrict(m, DataVars(p.vs)));
      }
    }
  }

  /* ---------- problems without an optional part ---------- */

  lemma JoinEmpty(m: Binding)
    ensures m + map[] == m && map[] + m == m && Compatible(m, map[]) && Compatible(map[], m)
  {
  }

  lemma JoinUnit(a: set<Binding>)
    ensures Join(a, {map[]}) == a && Join({map[]}, a) == a
  {
    forall m ensures m in Join(a, {map[]}) <==> m in a {
      JoinEmpty(m);
      if m in Join(a, {map[]}) {
        var p, q :| p in a && q in {map[]} && Compatible(p, q) && m == p + q;
        JoinEmpty(p);
      }
    }
    forall m ensures m in Join({map[]}, a) <==> m in a {
      JoinEmpty(m);
      if m in Join({map[]}, a) {
        var p, q :| p in {map[]} && q in a && Compatible(p, q) && m == p + q;
        JoinEmpty(q);
      }
    }
  }

  lemma OneRow(vars: seq<VarId>, t: Trie)
    requires vars == [] && t.depth == 0 && t.Valid()
    ensures OperandBindings(vars, t) == if t.rows == {} then {} else {map[]}
  {
    forall m ensures m in OperandBindings(vars, t) <==> m == map[] && t.rows != {} {
      OperandBindingsIff(vars, t, m);
      if t.rows != {} {
        var r :| r in t.rows;
        assert r == [];
      }
    }
  }

  /** An empty optional operand, or one without variables, changes nothing. */
  lemma LeftWithout(p: LeftProblem)
    requires |p.vs| == |p.ops| && p.opt.Operand? && AlignedAt(p.opt, p.trie)
    requires p.trie.rows == {} || p.opt.vars == []
    ensures LeftSolutions(p) == NaiveJoin(p.vs, p.ops)
  {
    hide NaiveJoin, RowOf, RowBinding;
    var a := NaiveJoin(p.vs, p.ops);
    if p.trie.rows == {} {
      NothingExtends(a, p.opt, p.trie);
    } else {
      OneRow(p.opt.vars, p.trie);
      hide OperandBindings;
      UnitExtends(a, p.opt, p.trie);
    }
  }

  lemma NothingExtends(a: set<Binding>, opt: Vertex, t: Trie)
    requires t.rows == {}
    ensures LeftJoin(a, opt, t) == a
  {
    assert OperandBindings(opt.vars, t) == {};
    assert Join(a, {}) == {};
  }

  lemma UnitExtends(a: set<Binding>, opt: Vertex, t: Trie)
    requires OperandBindings(opt.vars, t) == {map[]}
    ensures LeftJoin(a, opt, t) == a
  {
    hide OperandBindings, Join;
    JoinUnit(a);
    forall m ensures Extends(opt, t, m) {
      JoinEmpty(m);
    }
  }

  /** With no mandatory operand left, the optional operand is all there is. */
  lemma LeftAlone(p: LeftProblem)
    requires p.vs == [] && p.ops == [] && OperandBindings(p.opt.vars, p.trie) != {}
    ensures LeftSolutions(p) == OperandBindings(p.opt.vars, p.trie)
  {
    hide OperandBindings, Join;
    var b := OperandBindings(p.opt.vars, p.trie);
    JoinUnit(b);
    var n :| n in b;
    JoinEmpty(n);
    assert Extends(p.opt, p.trie, map[]);
    assert NaiveJoin([], []) == {map[]};
  }
}
