/**
 Filters in a join: exactly when a filter stays within its own side, so that the
 join of two graphs has the join of their bags.
 */
module FilterScopes {
  import opened Reachability
  import opened Graphs
  import opened Tries
  import opened Semantics
  import opened Preparation
  import opened ProductProof
  import opened GraphUnions
  import opened BranchBags
  import opened UnionNormalForm

  /* ---------- other tests, same variables ---------- */

  /** The same vertex, but for what a filter tests. */
  ghost predicate SameForm(v: Vertex, w: Vertex) {
    if v.Operand? then w == v else w.FilterVertex? && w.vars == v.vars && w.filter.vars == v.filter.vars
  }

  ghost predicate Retested(vs: seq<Vertex>, us: seq<Vertex>) {
    |us| == |vs| && forall i :: 0 <= i < |vs| ==> SameForm(vs[i], us[i])
  }

  ghost predicate RetestedAll(a: seq<seq<Vertex>>, b: seq<seq<Vertex>>) {
    |b| == |a| && forall i :: 0 <= i < |a| ==> Retested(a[i], b[i])
  }

  /** The same operands, and filters at the same places. */
  ghost predicate SameOperands(vs: seq<Vertex>, us: seq<Vertex>) {
    |us| == |vs| && forall i :: 0 <= i < |vs| ==> us[i].Operand? == vs[i].Operand? && (vs[i].Operand? ==> us[i] == vs[i])
  }

  lemma {:induction false} RetestedOperands(vs: seq<Vertex>, us: seq<Vertex>)
    requires Retested(vs, us)
    ensures SameOperands(vs, us)
  {
    forall i | 0 <= i < |vs| ensures us[i].Operand? == vs[i].Operand? && (vs[i].Operand? ==> us[i] == vs[i]) {
      assert SameForm(vs[i], us[i]);
    }
  }

  lemma {:induction false} SameVars(vs: seq<Vertex>, us: seq<Vertex>)
    requires SameOperands(vs, us)
    ensures DataVars(us) == DataVars(vs)
    decreases |vs|
  {
    if vs != [] {
      SameVars(Init(vs), Init(us));
    }
  }

  lemma {:induction false} SameFits(vs: seq<Vertex>, us: seq<Vertex>, ops: seq<Trie>, ups: seq<Trie>, m: Binding)
    requires |vs| == |ops| && |us| == |ups| && SameOperands(vs, us) && DataVars(us) == DataVars(vs)
    requires forall i :: 0 <= i < |vs| && vs[i].Operand? ==> ups[i] == ops[i]
    requires SatJoin(vs, ops, m)
    ensures SatJoin(us, ups, m)
  {
    hide DataVars, RowOf;
    forall i: nat | i < |us|
      ensures us[i].Operand? ==> forall x :: x in us[i].vars ==> x in m
      ensures FitsAt(us[i], ups[i], m)
    {
      if us[i].Operand? {
        SatKeys(vs, i);
        assert FitsAt(vs[i], ops[i], m);
      }
    }
  }

  lemma {:induction false} SameSlicesOf(store: set<Row>, vs: seq<Vertex>, us: seq<Vertex>)
    requires SameOperands(vs, us)
    ensures |vs| == |us| && forall i :: 0 <= i < |vs| && vs[i].Operand? ==> SlicesOf(store, us)[i] == SlicesOf(store, vs)[i]
    ensures SameOperands(us, vs)
    ensures forall i :: 0 <= i < |us| && us[i].Operand? ==> SlicesOf(store, vs)[i] == SlicesOf(store, us)[i]
  {
    hide SliceOf;
  }

  /** Filters have no part in the join. */
  lemma {:induction false} SameJoin(store: set<Row>, vs: seq<Vertex>, us: seq<Vertex>)
    requires SameOperands(vs, us)
    ensures BranchJoin(store, us) == BranchJoin(store, vs) && DataVars(us) == DataVars(vs)
  {
    var ops, ups := SlicesOf(store, vs), SlicesOf(store, us);
    assert BranchJoin(store, us) == NaiveJoin(us, ups) && BranchJoin(store, vs) == NaiveJoin(vs, ops);
    hide *;
    SameVars(vs, us);
    SameSlicesOf(store, vs, us);
    forall m ensures m in BranchJoin(store, us) <==> m in BranchJoin(store, vs) {
      NaiveJoinIff(vs, ops, m);
      NaiveJoinIff(us, ups, m);
      if SatJoin(vs, ops, m) {
        SameFits(vs, us, ops, ups, m);
      }
      if SatJoin(us, ups, m) {
        SameFits(us, vs, ups, ops, m);
      }
    }
  }

  lemma SolsOfJoin(store: set<Row>, vs: seq<Vertex>, m: Binding)
    ensures m in BranchSols(store, vs) <==> m in BranchJoin(store, vs) && PassesAll(vs, map[], m)
  {
    hide NaiveJoin, PassesAll;
  }

  /** The solutions of a linked pair: the filters of both sides see the merged mapping. */
  lemma PairSolsLate(store: set<Row>, u: seq<Vertex>, w: seq<Vertex>, m: Binding)
    ensures m in BranchSols(store, u + w) <==>
            && m.Keys == DataVars(u) + DataVars(w)
            && Restrict(m, DataVars(u)) in BranchJoin(store, u) && Restrict(m, DataVars(w)) in BranchJoin(store, w)
            && PassesAll(u, map[], m) && PassesAll(w, map[], m)
  {
    hide *;
    SolsOfJoin(store, u + w, m);
    PairJoin(store, u, w, m);
    PassesBoth(u, w, m);
  }

  lemma {:induction false} PassesBoth(u: seq<Vertex>, w: seq<Vertex>, m: Binding)
    ensures PassesAll(u + w, map[], m) <==> PassesAll(u, map[], m) && PassesAll(w, map[], m)
  {
    hide Passes;
    var v := u + w;
    if PassesAll(v, map[], m) {
      forall i | 0 <= i < |u| && u[i].FilterVertex? ensures Passes(u[i].filter, map[], m) {
        assert v[i] == u[i];
      }
      forall i | 0 <= i < |w| && w[i].FilterVertex? ensures Passes(w[i].filter, map[], m) {
        assert v[|u| + i] == w[i];
      }
    }
  }

  /* ---------- the tests of the witness ---------- */

  /** All filters true, but the one at k asks that x is unbound. */
  function Asked(vs: seq<Vertex>, k: nat, x: VarId): (us: seq<Vertex>)
    ensures |us| == |vs|
    ensures forall i :: 0 <= i < |vs| ==> us[i] == AskedVertex(vs[i], i == k, x)
  {
    seq(|vs|, i requires 0 <= i < |vs| => AskedVertex(vs[i], i == k, x))
  }

  function AskedVertex(v: Vertex, asks: bool, x: VarId): Vertex {
    match v
    case Operand(_, _) => v
    case FilterVertex(vars, f) => FilterVertex(vars, Filter(f.vars, (b: Binding) => asks ==> x !in b))
  }

  /** Filters that read nothing and are true. */
  function Blank(vs: seq<Vertex>): (us: seq<Vertex>)
    ensures |us| == |vs|
    ensures forall i :: 0 <= i < |vs| ==> us[i] == BlankVertex(vs[i])
  {
    seq(|vs|, i requires 0 <= i < |vs| => BlankVertex(vs[i]))
  }

  function BlankVertex(v: Vertex): Vertex {
    match v
    case Operand(_, _) => v
    case FilterVertex(vars, _) => FilterVertex(vars, Filter({}, (b: Binding) => true))
  }

  lemma {:induction false} AskedRetested(vs: seq<Vertex>, k: nat, x: VarId)
    ensures Retested(vs, Asked(vs, k, x))
  {
    forall i | 0 <= i < |vs| ensures SameForm(vs[i], Asked(vs, k, x)[i]) {
    }
  }

  lemma {:induction false} AskedPasses(vs: seq<Vertex>, k: nat, x: VarId, m: Binding)
    requires x !in m || k >= |vs|
    ensures PassesAll(Asked(vs, k, x), map[], m)
  {
    var us := Asked(vs, k, x);
    forall i | 0 <= i < |us| && us[i].FilterVertex? ensures Passes(us[i].filter, map[], m) {
      assert us[i] == AskedVertex(vs[i], i == k, x);
    }
  }

  lemma {:induction false} AskedFails(vs: seq<Vertex>, k: nat, x: VarId, m: Binding)
    requires k < |vs| && vs[k].FilterVertex? && x in vs[k].filter.vars && x in m
    ensures !PassesAll(Asked(vs, k, x), map[], m)
  {
    var us := Asked(vs, k, x);
    assert us[k] == AskedVertex(vs[k], true, x);
    assert x in Restrict(map[] + m, us[k].filter.vars);
    assert !Passes(us[k].filter, map[], m);
  }

  /** As long as x is not bound, the filter lets everything pass. */
  lemma AskedSols(store: set<Row>, vs: seq<Vertex>, k: nat, x: VarId)
    requires x !in DataVars(vs) || k >= |vs|
    ensures BranchSols(store, Asked(vs, k, x)) == BranchJoin(store, vs)
    ensures DataVars(Asked(vs, k, x)) == DataVars(vs)
  {
    hide *;
    var us := Asked(vs, k, x);
    AskedRetested(vs, k, x);
    RetestedOperands(vs, us);
    SameJoin(store, vs, us);
    forall m ensures m in BranchSols(store, us) <==> m in BranchJoin(store, vs) {
      SolsOfJoin(store, us, m);
      if m in BranchJoin(store, vs) {
        BranchJoinKeys(store, vs, m);
        AskedPasses(vs, k, x, m);
      }
    }
  }

  lemma {:induction false} BlankIs(vs: seq<Vertex>, m: Binding)
    ensures SameOperands(vs, Blank(vs)) && PassesAll(Blank(vs), map[], m)
  {
    var us := Blank(vs);
    forall i | 0 <= i < |vs| ensures us[i].Operand? == vs[i].Operand? && (vs[i].Operand? ==> us[i] == vs[i]) {
      assert us[i] == BlankVertex(vs[i]);
    }
    forall i | 0 <= i < |us| && us[i].FilterVertex? ensures Passes(us[i].filter, map[], m) {
      assert us[i] == BlankVertex(vs[i]);
    }
  }

  lemma BlankSols(store: set<Row>, vs: seq<Vertex>)
    ensures BranchSols(store, Blank(vs)) == BranchJoin(store, vs)
  {
    hide *;
    forall m ensures m in BranchSols(store, Blank(vs)) <==> m in BranchJoin(store, vs) {
      BlankIs(vs, m);
      SameJoin(store, vs, Blank(vs));
      SolsOfJoin(store, Blank(vs), m);
    }
  }

  lemma {:induction false} BlankPair(u: seq<Vertex>, w: seq<Vertex>)
    ensures Blank(u) + Blank(w) == Blank(u + w) && Scoped(Blank(u), Blank(w))
  {
    assert forall i :: 0 <= i < |u| && Blank(u)[i].FilterVertex? ==> Blank(u)[i].filter.vars == {};
    assert forall i :: 0 <= i < |w| && Blank(w)[i].FilterVertex? ==> Blank(w)[i].filter.vars == {};
  }

  /* ---------- a store where everything matches ---------- */

  function Zero(d: set<VarId>): (m: Binding)
    ensures m.Keys == d
  {
    map x | x in d :: 0
  }

  /** The instances of all patterns under the zero mapping. */
  ghost function ZeroStore(vs: seq<Vertex>): (store: set<Row>)
    requires PatternsFit(vs)
    ensures forall i :: 0 <= i < |vs| && vs[i].Operand? ==>
              (forall x :: x in vs[i].vars ==> x in Zero(DataVars(vs)))
              && Instance(vs[i].slice, vs[i].vars, Zero(DataVars(vs))) in store
  {
    forall i: nat | i < |vs| && vs[i].Operand? ensures forall x :: x in vs[i].vars ==> x in Zero(DataVars(vs)) {
      SatKeys(vs, i);
    }
    set i | 0 <= i < |vs| && vs[i].Operand? :: Instance(vs[i].slice, vs[i].vars, Zero(DataVars(vs)))
  }

  lemma ZeroFits(vs: seq<Vertex>, i: nat)
    requires PatternsFit(vs) && i < |vs| && vs[i].Operand?
    ensures (forall x :: x in vs[i].vars ==> x in Zero(DataVars(vs)))
    ensures RowOf(vs[i].vars, Zero(DataVars(vs))) in SliceOf(ZeroStore(vs), vs[i].slice).rows
  {
    var m, store := Zero(DataVars(vs)), ZeroStore(vs);
    SatKeys(vs, i);
    hide DataVars, Instance, ZeroStore, Agrees, FreeParts, Zero, RowOf;
    var r := Instance(vs[i].slice, vs[i].vars, m);
    InstanceOf(vs[i].slice, vs[i].vars, m, r);
  }

  /** The zero mapping solves it all. */
  lemma {:induction false} ZeroSolves(vs: seq<Vertex>)
    requires PatternsFit(vs)
    ensures Zero(DataVars(vs)) in BranchJoin(ZeroStore(vs), vs)
  {
    var m, ops := Zero(DataVars(vs)), SlicesOf(ZeroStore(vs), vs);
    hide DataVars, ZeroStore, Zero, RowOf, NaiveJoin, SliceOf;
    forall i: nat | i < |vs|
      ensures vs[i].Operand? ==> forall x :: x in vs[i].vars ==> x in m
      ensures FitsAt(vs[i], ops[i], m)
    {
      if vs[i].Operand? {
        ZeroFits(vs, i);
      }
    }
    NaiveJoinIff(vs, ops, m);
  }

  /* ---------- one pair ---------- */

  /** The filter at k of u reads x, which w binds and u does not. */
  ghost predicate Escapes(u: seq<Vertex>, k: nat, x: VarId, w: seq<Vertex>) {
    k < |u| && u[k].FilterVertex? && x in u[k].filter.vars && x in DataVars(w) && x !in DataVars(u)
  }

  lemma {:induction false} SomeEscapes(u: seq<Vertex>, w: seq<Vertex>) returns (k: nat, x: VarId)
    requires !FiltersWithin(u, w)
    ensures Escapes(u, k, x, w)
  {
    hide DataVars;
    k :| k < |u| && u[k].FilterVertex? && !(u[k].filter.vars * DataVars(w) <= DataVars(u));
    x :| x in u[k].filter.vars * DataVars(w) && x !in DataVars(u);
  }

  /** Solving a pair is solving both sides. */
  ghost predicate PairJoins(u: seq<Vertex>, w: seq<Vertex>) {
    forall store: set<Row>, m: Binding ::
      m in BranchSols(store, u + w) <==> SolvesSides(store, u, w, m)
  }

  ghost predicate SolvesSides(store: set<Row>, u: seq<Vertex>, w: seq<Vertex>, m: Binding) {
    && m.Keys == DataVars(u) + DataVars(w)
    && Restrict(m, DataVars(u)) in BranchSols(store, u) && Restrict(m, DataVars(w)) in BranchSols(store, w)
  }

  /** Whatever the filters test. */
  ghost predicate AlwaysPairJoins(u: seq<Vertex>, w: seq<Vertex>) {
    forall p, q :: Retested(u, p) && Retested(w, q) ==> PairJoins(p, q)
  }

  lemma {:induction false} ScopedRetested(u: seq<Vertex>, w: seq<Vertex>, p: seq<Vertex>, q: seq<Vertex>)
    requires Scoped(u, w) && Retested(u, p) && Retested(w, q)
    ensures Scoped(p, q)
  {
    RetestedOperands(u, p);
    RetestedOperands(w, q);
    SameVars(u, p);
    SameVars(w, q);
    hide DataVars, SameOperands;
    forall i | 0 <= i < |p| && p[i].FilterVertex? ensures p[i].filter.vars * DataVars(q) <= DataVars(p) {
      assert SameForm(u[i], p[i]);
    }
    forall i | 0 <= i < |q| && q[i].FilterVertex? ensures q[i].filter.vars * DataVars(p) <= DataVars(q) {
      assert SameForm(w[i], q[i]);
    }
  }

  /** In the store of the zero mapping both sides pass, and the pair fails for the filter that escapes. */
  lemma AskedPair(u: seq<Vertex>, w: seq<Vertex>, k: nat, j: nat, x: VarId)
    requires PatternsFit(u + w)
    requires (Escapes(u, k, x, w) && j >= |w|) || (Escapes(w, j, x, u) && k >= |u|)
    ensures var store, m := ZeroStore(u + w), Zero(DataVars(u + w));
            && m in BranchJoin(store, u + w) && m.Keys == DataVars(u) + DataVars(w)
            && SolvesSides(store, Asked(u, k, x), Asked(w, j, x), m)
            && m !in BranchSols(store, Asked(u, k, x) + Asked(w, j, x))
  {
    EscapesVars(u, k, x, w);
    EscapesVars(w, j, x, u);
    hide *;
    var store, m := ZeroStore(u + w), Zero(DataVars(u + w));
    DataVarsConcat(u, w);
    ZeroSolves(u + w);
    PairJoin(store, u, w, m);
    AskedSols(store, u, k, x);
    AskedSols(store, w, j, x);
    MakeSides(store, u, w, Asked(u, k, x), Asked(w, j, x), m);
    if Escapes(u, k, x, w) && j >= |w| {
      AskedFails(u, k, x, m);
    } else {
      AskedFails(w, j, x, m);
    }
    PairSolsLate(store, Asked(u, k, x), Asked(w, j, x), m);
  }

  lemma EscapesVars(u: seq<Vertex>, k: nat, x: VarId, w: seq<Vertex>)
    ensures Escapes(u, k, x, w) ==> x in DataVars(w) && x !in DataVars(u) && k < |u| && u[k].FilterVertex? && x in u[k].filter.vars
  {
    hide DataVars;
  }

  lemma MakeSides(store: set<Row>, u: seq<Vertex>, w: seq<Vertex>, p: seq<Vertex>, q: seq<Vertex>, m: Binding)
    requires m.Keys == DataVars(u) + DataVars(w) && DataVars(p) == DataVars(u) && DataVars(q) == DataVars(w)
    requires BranchSols(store, p) == BranchJoin(store, u) && BranchSols(store, q) == BranchJoin(store, w)
    requires Restrict(m, DataVars(u)) in BranchJoin(store, u) && Restrict(m, DataVars(w)) in BranchJoin(store, w)
    ensures SolvesSides(store, p, q, m)
  {
    hide DataVars, BranchSols, BranchJoin, Restrict;
  }

  lemma NotPairJoins(store: set<Row>, u: seq<Vertex>, w: seq<Vertex>, m: Binding)
    requires SolvesSides(store, u, w, m) && m !in BranchSols(store, u + w)
    ensures !PairJoins(u, w)
  {
    hide SolvesSides, BranchSols;
  }

  /** Without a filter that escapes to the other side, and only then, solving a pair is solving both sides, whatever is tested. */
  lemma {:induction false} ScopedPairExactly(u: seq<Vertex>, w: seq<Vertex>)
    requires PatternsFit(u) && PatternsFit(w)
    ensures AlwaysPairJoins(u, w) <==> Scoped(u, w)
  {
    FitsConcat(u, w);
    if Scoped(u, w) {
      hide Retested, Scoped, PairJoins;
      forall p, q | Retested(u, p) && Retested(w, q) ensures PairJoins(p, q) {
        ScopedRetested(u, w, p, q);
        ScopedPairJoins(p, q);
      }
    } else {
      var k: nat, j: nat, x := |u|, |w|, 0;
      if !FiltersWithin(u, w) {
        k, x := SomeEscapes(u, w);
      } else {
        j, x := SomeEscapes(w, u);
      }
      hide *;
      AskedPair(u, w, k, j, x);
      AskedRetested(u, k, x);
      AskedRetested(w, j, x);
      NotPairJoins(ZeroStore(u + w), Asked(u, k, x), Asked(w, j, x), Zero(DataVars(u + w)));
      NotAlways(u, w, Asked(u, k, x), Asked(w, j, x));
    }
  }

  lemma FitsConcat(u: seq<Vertex>, w: seq<Vertex>)
    requires PatternsFit(u) && PatternsFit(w)
    ensures PatternsFit(u + w)
  {
  }

  lemma NotAlways(u: seq<Vertex>, w: seq<Vertex>, p: seq<Vertex>, q: seq<Vertex>)
    requires Retested(u, p) && Retested(w, q) && !PairJoins(p, q)
    ensures !AlwaysPairJoins(u, w)
  {
    hide Retested, PairJoins;
  }

  lemma ScopedPairJoins(p: seq<Vertex>, q: seq<Vertex>)
    requires Scoped(p, q)
    ensures PairJoins(p, q)
  {
    hide Scoped, BranchSols, DataVars, Restrict;
    forall store: set<Row>, m: Binding ensures m in BranchSols(store, p + q) <==> SolvesSides(store, p, q, m) {
      PairSols(store, p, q, m);
    }
  }

  /* ---------- lists of branches ---------- */

  /** The bag of all pairs is the join of the bags. */
  ghost predicate BagsJoin(a: seq<seq<Vertex>>, b: seq<seq<Vertex>>) {
    forall store: set<Row>, m: Binding ::
      BranchBag(store, Pairings(a, b))[m] == JoinMultiplicity(BranchBag(store, a), BranchBag(store, b), m)
  }

  ghost predicate AlwaysBagsJoin(a: seq<seq<Vertex>>, b: seq<seq<Vertex>>) {
    forall p, q :: RetestedAll(a, p) && RetestedAll(b, q) ==> BagsJoin(p, q)
  }

  /** Branch by branch no solution is gained. */
  ghost predicate NoneGained(store: set<Row>, p: seq<seq<Vertex>>, q: seq<seq<Vertex>>) {
    |p| == |q| && forall i :: 0 <= i < |p| ==> BranchSols(store, p[i]) <= BranchSols(store, q[i])
  }

  lemma BagAt(store: set<Row>, p: seq<seq<Vertex>>, m: Binding)
    ensures p == [] ==> BranchBag(store, p)[m] == 0
    ensures p != [] ==> BranchBag(store, p)[m] == BranchBag(store, Init(p))[m] + if m in BranchSols(store, Last(p)) then 1 else 0
  {
    hide BranchSols;
  }

  lemma {:induction false} NoneGainedLast(store: set<Row>, p: seq<seq<Vertex>>, q: seq<seq<Vertex>>)
    requires NoneGained(store, p, q) && p != []
    ensures |p| == |q| && NoneGained(store, Init(p), Init(q)) && BranchSols(store, Last(p)) <= BranchSols(store, Last(q))
    ensures p[|p| - 1] == Last(p) && q[|p| - 1] == Last(q)
    ensures forall i :: 0 <= i < |p| - 1 ==> Init(p)[i] == p[i] && Init(q)[i] == q[i]
  {
    hide BranchSols;
  }

  /** Some branch of q gives m where that of p does not. */
  ghost predicate Loses(store: set<Row>, p: seq<seq<Vertex>>, q: seq<seq<Vertex>>, m: Binding, i: nat) {
    i < |p| && i < |q| && m in BranchSols(store, q[i]) && m !in BranchSols(store, p[i])
  }

  /** Where no branch gains a solution, the bag has none more, and less of one that a branch loses. */
  lemma {:induction false} BagLess(store: set<Row>, p: seq<seq<Vertex>>, q: seq<seq<Vertex>>, m: Binding, i: nat)
    requires NoneGained(store, p, q)
    ensures BranchBag(store, p)[m] <= BranchBag(store, q)[m]
    ensures Loses(store, p, q, m, i) ==> BranchBag(store, p)[m] < BranchBag(store, q)[m]
    decreases |p|
  {
    hide BranchSols, BranchBag, NoneGained;
    BagAt(store, p, m);
    BagAt(store, q, m);
    if p != [] {
      NoneGainedLast(store, p, q);
      BagLess(store, Init(p), Init(q), m, i);
    }
  }

  /** The pairs of one branch with a list. */
  lemma {:induction false} RowLess(store: set<Row>, u: seq<Vertex>, b: seq<seq<Vertex>>, v: seq<Vertex>, d: seq<seq<Vertex>>, m: Binding)
    requires |b| == |d| && forall j :: 0 <= j < |b| ==> BranchSols(store, u + b[j]) <= BranchSols(store, v + d[j])
    ensures BranchBag(store, PairingsWith(u, b))[m] <= BranchBag(store, PairingsWith(v, d))[m]
    ensures forall j :: 0 <= j < |b| && m in BranchSols(store, v + d[j]) && m !in BranchSols(store, u + b[j]) ==>
              BranchBag(store, PairingsWith(u, b))[m] < BranchBag(store, PairingsWith(v, d))[m]
  {
    hide BranchSols, BranchBag;
    var p, q := PairingsWith(u, b), PairingsWith(v, d);
    BagLess(store, p, q, m, |p|);
    forall j: nat | j < |b| && m in BranchSols(store, v + d[j]) && m !in BranchSols(store, u + b[j])
      ensures BranchBag(store, p)[m] < BranchBag(store, q)[m]
    {
      assert p[j] == u + b[j] && q[j] == v + d[j];
      BagLess(store, p, q, m, j);
    }
  }

  /** No pair gains a solution. */
  ghost predicate PairsLose(store: set<Row>, a: seq<seq<Vertex>>, b: seq<seq<Vertex>>, c: seq<seq<Vertex>>, d: seq<seq<Vertex>>) {
    && |a| == |c| && |b| == |d|
    && forall i, j :: 0 <= i < |a| && 0 <= j < |b| ==> BranchSols(store, a[i] + b[j]) <= BranchSols(store, c[i] + d[j])
  }

  lemma {:induction false} PairingsLess(store: set<Row>, a: seq<seq<Vertex>>, b: seq<seq<Vertex>>, c: seq<seq<Vertex>>, d: seq<seq<Vertex>>,
                                        m: Binding)
    requires PairsLose(store, a, b, c, d)
    ensures BranchBag(store, Pairings(a, b))[m] <= BranchBag(store, Pairings(c, d))[m]
    ensures forall i, j :: 0 <= i < |a| && 0 <= j < |b| && m in BranchSols(store, c[i] + d[j]) && m !in BranchSols(store, a[i] + b[j]) ==>
              BranchBag(store, Pairings(a, b))[m] < BranchBag(store, Pairings(c, d))[m]
    decreases |a|
  {
    hide BranchSols, BranchBag, PairingsWith, Pairings;
    PairingsLast(a, b);
    PairingsLast(c, d);
    if a != [] {
      var n: nat := |a| - 1;
      assert forall i :: 0 <= i < n ==> Init(a)[i] == a[i] && Init(c)[i] == c[i];
      assert a[n] == Last(a) && c[n] == Last(c);
      PairingsLess(store, Init(a), b, Init(c), d, m);
      RowLess(store, Last(a), b, Last(c), d, m);
      BagAppend(store, Pairings(Init(a), b), PairingsWith(Last(a), b));
      BagAppend(store, Pairings(Init(c), d), PairingsWith(Last(c), d));
    }
  }

  function Blanks(a: seq<seq<Vertex>>): (p: seq<seq<Vertex>>)
    ensures |p| == |a| && forall i :: 0 <= i < |a| ==> p[i] == Blank(a[i])
  {
    seq(|a|, i requires 0 <= i < |a| => Blank(a[i]))
  }

  /** Only the filter at k of branch i asks. */
  function AskedAll(a: seq<seq<Vertex>>, i: nat, k: nat, x: VarId): (p: seq<seq<Vertex>>)
    ensures |p| == |a|
    ensures forall j :: 0 <= j < |a| ==> p[j] == Asked(a[j], if j == i then k else |a[j]|, x)
  {
    seq(|a|, j requires 0 <= j < |a| => Asked(a[j], if j == i then k else |a[j]|, x))
  }

  lemma {:induction false} AskedAllRetested(a: seq<seq<Vertex>>, i: nat, k: nat, x: VarId)
    ensures RetestedAll(a, AskedAll(a, i, k, x))
  {
    hide Retested, Asked;
    forall j | 0 <= j < |a| ensures Retested(a[j], AskedAll(a, i, k, x)[j]) {
      AskedRetested(a[j], if j == i then k else |a[j]|, x);
    }
  }

  lemma {:induction false} BagSame(store: set<Row>, p: seq<seq<Vertex>>, q: seq<seq<Vertex>>)
    requires |p| == |q| && forall i :: 0 <= i < |p| ==> BranchSols(store, p[i]) == BranchSols(store, q[i])
    ensures BranchBag(store, p) == BranchBag(store, q)
    decreases |p|
  {
    hide BranchSols;
    if p != [] {
      assert forall i :: 0 <= i < |p| - 1 ==> Init(p)[i] == p[i] && Init(q)[i] == q[i];
      BagSame(store, Init(p), Init(q));
      assert p[|p| - 1] == Last(p) && q[|q| - 1] == Last(q);
    }
  }

  /** Where the filter reads a variable that its branch does not bind, each list keeps the bag it has without filters. */
  lemma {:induction false} AskedBag(store: set<Row>, a: seq<seq<Vertex>>, i: nat, k: nat, x: VarId)
    requires i < |a| ==> x !in DataVars(a[i]) || k >= |a[i]|
    ensures BranchBag(store, AskedAll(a, i, k, x)) == BranchBag(store, Blanks(a))
  {
    hide DataVars, BranchSols, BranchBag, Asked, Blank, BranchJoin;
    var p, q := AskedAll(a, i, k, x), Blanks(a);
    forall j | 0 <= j < |a| ensures BranchSols(store, p[j]) == BranchSols(store, q[j]) {
      AskedSols(store, a[j], if j == i then k else |a[j]|, x);
      BlankSols(store, a[j]);
    }
    BagSame(store, p, q);
  }

  lemma {:induction false} BlanksJoin(a: seq<seq<Vertex>>, b: seq<seq<Vertex>>, store: set<Row>, m: Binding)
    ensures BranchBag(store, Pairings(Blanks(a), Blanks(b)))[m]
         == JoinMultiplicity(BranchBag(store, Blanks(a)), BranchBag(store, Blanks(b)), m)
  {
    hide Blank, Scoped, BranchBag, SizeWhere, JoinSize, Pairings;
    forall u, w | u in Blanks(a) && w in Blanks(b) ensures Scoped(u, w) {
      var i :| 0 <= i < |a| && Blanks(a)[i] == u;
      var j :| 0 <= j < |b| && Blanks(b)[j] == w;
      BlankPair(a[i], b[j]);
    }
    PairingsSize(store, Blanks(a), Blanks(b), Is(m));
    SizeOfOne(BranchBag(store, Pairings(Blanks(a), Blanks(b))), m);
  }

  /** A pair of retested branches solves no more than the unfiltered pair. */
  lemma LosesOnly(store: set<Row>, u: seq<Vertex>, w: seq<Vertex>, p: seq<Vertex>, q: seq<Vertex>)
    requires Retested(u, p) && Retested(w, q)
    ensures BranchSols(store, p + q) <= BranchSols(store, Blank(u) + Blank(w))
    ensures BranchSols(store, Blank(u) + Blank(w)) == BranchJoin(store, u + w)
  {
    hide *;
    BlankPair(u, w);
    BlankSols(store, u + w);
    RetestedOperands(u, p);
    RetestedOperands(w, q);
    OperandsConcat(u, w, p, q);
    SameJoin(store, u + w, p + q);
    forall m | m in BranchSols(store, p + q) ensures m in BranchJoin(store, u + w) {
      SolsOfJoin(store, p + q, m);
    }
  }

  lemma {:induction false} OperandsConcat(u: seq<Vertex>, w: seq<Vertex>, p: seq<Vertex>, q: seq<Vertex>)
    requires SameOperands(u, p) && SameOperands(w, q)
    ensures SameOperands(u + w, p + q)
  {
  }

  /** Lists whose sides keep their solutions and one of whose pairs loses one do not join. */
  lemma {:induction false} AskedNotJoins(a: seq<seq<Vertex>>, b: seq<seq<Vertex>>, i: nat, k: nat, j: nat, l: nat, x: VarId)
    requires i < |a| && j < |b| && PatternsFit(a[i] + b[j])
    requires (Escapes(a[i], k, x, b[j]) && l >= |b[j]|) || (Escapes(b[j], l, x, a[i]) && k >= |a[i]|)
    ensures !BagsJoin(AskedAll(a, i, k, x), AskedAll(b, j, l, x))
  {
    EscapesVars(a[i], k, x, b[j]);
    EscapesVars(b[j], l, x, a[i]);
    hide *;
    var p, q, c, d := AskedAll(a, i, k, x), AskedAll(b, j, l, x), Blanks(a), Blanks(b);
    var store, m := ZeroStore(a[i] + b[j]), Zero(DataVars(a[i] + b[j]));
    AskedPair(a[i], b[j], k, l, x);
    AskedBag(store, a, i, k, x);
    AskedBag(store, b, j, l, x);
    BlanksJoin(a, b, store, m);
    AskedAllRetested(a, i, k, x);
    AskedAllRetested(b, j, l, x);
    AllLose(store, a, b, p, q);
    PairingsLess(store, p, q, c, d, m);
    LosesAt(store, a, b, p, q, i, j);
    BagsDiffer(p, q, store, m);
  }

  lemma {:induction false} LosesAt(store: set<Row>, a: seq<seq<Vertex>>, b: seq<seq<Vertex>>, p: seq<seq<Vertex>>, q: seq<seq<Vertex>>, i: nat, j: nat)
    requires RetestedAll(a, p) && RetestedAll(b, q) && i < |a| && j < |b|
    ensures |p| == |a| && |q| == |b|
    ensures BranchSols(store, p[i] + q[j]) <= BranchSols(store, Blanks(a)[i] + Blanks(b)[j])
    ensures BranchSols(store, Blanks(a)[i] + Blanks(b)[j]) == BranchJoin(store, a[i] + b[j])
  {
    hide Retested, BranchSols, Blank, BranchJoin;
    LosesOnly(store, a[i], b[j], p[i], q[j]);
  }

  lemma {:induction false} AllLose(store: set<Row>, a: seq<seq<Vertex>>, b: seq<seq<Vertex>>, p: seq<seq<Vertex>>, q: seq<seq<Vertex>>)
    requires RetestedAll(a, p) && RetestedAll(b, q)
    ensures PairsLose(store, p, q, Blanks(a), Blanks(b))
  {
    hide Retested, BranchSols, Blank, BranchJoin;
    forall i: nat, j: nat | i < |a| && j < |b|
      ensures BranchSols(store, p[i] + q[j]) <= BranchSols(store, Blanks(a)[i] + Blanks(b)[j])
    {
      LosesAt(store, a, b, p, q, i, j);
    }
  }

  lemma BagsDiffer(p: seq<seq<Vertex>>, q: seq<seq<Vertex>>, store: set<Row>, m: Binding)
    requires BranchBag(store, Pairings(p, q))[m] != JoinMultiplicity(BranchBag(store, p), BranchBag(store, q), m)
    ensures !BagsJoin(p, q)
  {
    hide BranchBag, Pairings, JoinMultiplicity;
  }

  ghost predicate AllPatternsFit(a: seq<seq<Vertex>>) {
    forall u :: u in a ==> PatternsFit(u)
  }

  lemma {:induction false} ScopedRetestedAll(a: seq<seq<Vertex>>, b: seq<seq<Vertex>>, p: seq<seq<Vertex>>, q: seq<seq<Vertex>>)
    requires AllScoped(a, b) && RetestedAll(a, p) && RetestedAll(b, q)
    ensures AllScoped(p, q)
  {
    hide Scoped, Retested;
    forall u, w | u in p && w in q ensures Scoped(u, w) {
      var i :| 0 <= i < |p| && p[i] == u;
      var j :| 0 <= j < |q| && q[j] == w;
      assert a[i] in a && b[j] in b;
      ScopedRetested(a[i], b[j], u, w);
    }
  }

  lemma ScopedJoins(p: seq<seq<Vertex>>, q: seq<seq<Vertex>>)
    requires AllScoped(p, q)
    ensures BagsJoin(p, q)
  {
    hide AllScoped, BranchBag, SizeWhere, JoinSize, Pairings;
    forall store: set<Row>, m: Binding
      ensures BranchBag(store, Pairings(p, q))[m] == JoinMultiplicity(BranchBag(store, p), BranchBag(store, q), m)
    {
      PairingsSize(store, p, q, Is(m));
      SizeOfOne(BranchBag(store, Pairings(p, q)), m);
    }
  }

  /** A filter that escapes: its place in one of the two lists, and the branch of the other list that binds its variable. */
  lemma {:induction false} SomeEscape(a: seq<seq<Vertex>>, b: seq<seq<Vertex>>) returns (i: nat, k: nat, j: nat, l: nat, x: VarId)
    requires !AllScoped(a, b)
    ensures i < |a| && j < |b|
    ensures (Escapes(a[i], k, x, b[j]) && l >= |b[j]|) || (Escapes(b[j], l, x, a[i]) && k >= |a[i]|)
  {
    hide Escapes, FiltersWithin;
    var u, w :| u in a && w in b && !Scoped(u, w);
    i :| i < |a| && a[i] == u;
    j :| j < |b| && b[j] == w;
    k, l := |u|, |w|;
    if !FiltersWithin(u, w) {
      k, x := SomeEscapes(u, w);
    } else {
      l, x := SomeEscapes(w, u);
    }
  }

  /** Over all stores and whatever the filters test the bags join, exactly when no filter escapes to the other side. */
  lemma {:induction false} ScopedExactly(a: seq<seq<Vertex>>, b: seq<seq<Vertex>>)
    requires AllPatternsFit(a) && AllPatternsFit(b)
    ensures AlwaysBagsJoin(a, b) <==> AllScoped(a, b)
  {
    hide AllScoped, BagsJoin, RetestedAll, PatternsFit;
    if AllScoped(a, b) {
      forall p, q | RetestedAll(a, p) && RetestedAll(b, q) ensures BagsJoin(p, q) {
        ScopedRetestedAll(a, b, p, q);
        ScopedJoins(p, q);
      }
    } else {
      var i, k, j, l, x := SomeEscape(a, b);
      assert a[i] in a && b[j] in b;
      FitsConcat(a[i], b[j]);
      AskedNotJoins(a, b, i, k, j, l, x);
      AskedAllRetested(a, i, k, x);
      AskedAllRetested(b, j, l, x);
    }
  }

  /* ---------- graphs ---------- */

  /** The same graph, but for what its filters test. */
  ghost predicate RetestedGraph(g: Graph, h: Graph) {
    h.edges == g.edges && Retested(g.vertices, h.vertices)
  }

  lemma {:induction false} RetestedBranches(g: Graph, h: Graph)
    requires RetestedGraph(g, h)
    ensures RetestedAll(Branches(g), Branches(h)) && (h.vertices == [] <==> g.vertices == [])
  {
    hide Components, SameForm, Pick;
    forall i | 0 <= i < |Branches(g)| ensures Retested(Branches(g)[i], Branches(h)[i]) {
    }
  }

  /** The vertex at place k of branch i asks. */
  lemma {:induction false} AskedBranches(g: Graph, i: nat, k: nat, x: VarId)
    requires i < |UnionParts(g)| ==> k >= |UnionParts(g)[i]| || UnionParts(g)[i][k] < |g.vertices|
    ensures var v := if i < |UnionParts(g)| && k < |UnionParts(g)[i]| then UnionParts(g)[i][k] else |g.vertices|;
            var h := Graph(Asked(g.vertices, v, x), g.edges);
            RetestedGraph(g, h) && Branches(h) == AskedAll(Branches(g), i, k, x)
  {
    var parts := UnionParts(g);
    var v := if i < |parts| && k < |parts[i]| then parts[i][k] else |g.vertices|;
    var h := Graph(Asked(g.vertices, v, x), g.edges);
    AskedRetested(g.vertices, v, x);
    hide Components, ArcsOf, Asked, AskedVertex, Pick;
    assert UnionParts(h) == parts;
    forall j: nat | j < |parts| ensures Branches(h)[j] == AskedAll(Branches(g), i, k, x)[j] {
      var n := if j == i then k else |parts[j]|;
      forall t: nat | t < |parts[j]| ensures parts[j][t] < |g.vertices| && (parts[j][t] == v <==> t == n) {
        PlaceOf(g, i, k, j, t);
      }
      assert forall t :: 0 <= t < |parts[j]| ==> Branches(h)[j][t] == AskedVertex(g.vertices[parts[j][t]], t == n, x);
    }
  }

  /** A vertex has one place in one branch. */
  lemma {:induction false} PlaceOf(g: Graph, i: nat, k: nat, j: nat, t: nat)
    requires j < |UnionParts(g)| && t < |UnionParts(g)[j]|
    ensures UnionParts(g)[j][t] < |g.vertices|
    ensures i < |UnionParts(g)| && k < |UnionParts(g)[i]| ==> (UnionParts(g)[j][t] == UnionParts(g)[i][k] <==> j == i && t == k)
  {
    hide Components, ArcsOf;
    var parts := UnionParts(g);
    assert parts[j] in parts;
    PartShape(g, parts[j]);
    if i < |parts| && k < |parts[i]| && parts[j][t] == parts[i][k] {
      assert parts[j][t] in parts[j] && parts[i][k] in parts[i];
      if i != j {
        ComponentsDisjoint(ArcsOf(g.edges), |g.vertices|, i, j, parts[i][k]);
      }
    }
  }

  ghost predicate AlwaysGraphsJoin(first: Graph, second: Graph) {
    forall g, h :: RetestedGraph(first, g) && RetestedGraph(second, h) ==> GraphsJoin(g, h)
  }

  /** With an empty side, or the branches of both. */
  lemma GraphsJoinBranches(first: Graph, second: Graph)
    ensures first.vertices == [] || second.vertices == [] ==> GraphsJoin(first, second) && AllScoped(Branches(first), Branches(second))
    ensures first.vertices != [] && second.vertices != [] ==> (GraphsJoin(first, second) <==> BagsJoin(Branches(first), Branches(second)))
  {
    hide Branches, BranchBag, Pairings, JoinSize, SizeWhere, Scoped;
    EmptySides(first);
    EmptySides(second);
    if first.vertices == [] || second.vertices == [] {
      forall store: set<Row>, m: Binding
        ensures JoinedBag(store, first, second)[m] == JoinMultiplicity(GraphBag(store, first), GraphBag(store, second), m)
      {
        JoinUnit(GraphBag(store, second), Is(m));
        JoinUnit(GraphBag(store, first), Is(m));
        SizeOfOne(GraphBag(store, first), m);
        SizeOfOne(GraphBag(store, second), m);
      }
    } else {
      BagsAreBranches(first, second);
    }
  }

  lemma BagsAreBranches(first: Graph, second: Graph)
    requires first.vertices != [] && second.vertices != []
    ensures GraphsJoin(first, second) <==> BagsJoin(Branches(first), Branches(second))
  {
    hide Branches, BranchBag, Pairings, JoinMultiplicity;
    var a, b := Branches(first), Branches(second);
    if GraphsJoin(first, second) {
      forall store: set<Row>, m: Binding
        ensures BranchBag(store, Pairings(a, b))[m] == JoinMultiplicity(BranchBag(store, a), BranchBag(store, b), m)
      {
        assert JoinedBag(store, first, second)[m] == JoinMultiplicity(GraphBag(store, first), GraphBag(store, second), m);
      }
    }
    if BagsJoin(a, b) {
      forall store: set<Row>, m: Binding
        ensures JoinedBag(store, first, second)[m] == JoinMultiplicity(GraphBag(store, first), GraphBag(store, second), m)
      {
        assert BranchBag(store, Pairings(a, b))[m] == JoinMultiplicity(BranchBag(store, a), BranchBag(store, b), m);
      }
    }
  }

  lemma EmptySides(g: Graph)
    ensures g.vertices == [] ==> Branches(g) == []
  {
    if g.vertices == [] {
      EmptyBranches(g);
    }
  }

  lemma {:induction false} BranchesFit(g: Graph)
    requires PatternsFit(g.vertices)
    ensures AllPatternsFit(Branches(g))
  {
    hide Components, Pick, Free;
    forall u | u in Branches(g) ensures PatternsFit(u) {
      var i :| 0 <= i < |Branches(g)| && Branches(g)[i] == u;
    }
  }

  /** The graphs with one filter asking, and all other filters true. */
  lemma {:induction false} GraphAsked(g: Graph, i: nat, k: nat, x: VarId) returns (h: Graph)
    ensures RetestedGraph(g, h) && Branches(h) == AskedAll(Branches(g), i, k, x)
  {
    hide Components, ArcsOf, Asked, Pick;
    if i < |UnionParts(g)| && k < |UnionParts(g)[i]| {
      PlaceOf(g, i, k, i, k);
    }
    AskedBranches(g, i, k, x);
    h := Graph(Asked(g.vertices, if i < |UnionParts(g)| && k < |UnionParts(g)[i]| then UnionParts(g)[i][k] else |g.vertices|, x), g.edges);
  }

  /**
   The graph of a join has the join of the bags of both sides over every store and
   whatever the filters test, exactly when no filter reads a variable that its own
   branch does not bind and a branch of the other side does.
   */
  lemma {:induction false} GraphsJoinExactly(first: Graph, second: Graph)
    requires PatternsFit(first.vertices) && PatternsFit(second.vertices)
    ensures AlwaysGraphsJoin(first, second) <==> AllScoped(Branches(first), Branches(second))
  {
    hide AllScoped, BagsJoin, RetestedAll, RetestedGraph, PatternsFit, GraphsJoin, Branches;
    if AllScoped(Branches(first), Branches(second)) {
      forall g, h | RetestedGraph(first, g) && RetestedGraph(second, h) ensures GraphsJoin(g, h) {
        RetestedBranches(first, g);
        RetestedBranches(second, h);
        ScopedRetestedAll(Branches(first), Branches(second), Branches(g), Branches(h));
        ScopedJoins(Branches(g), Branches(h));
        GraphsJoinBranches(g, h);
      }
    } else {
      GraphsJoinBranches(first, second);
      BranchesFit(first);
      BranchesFit(second);
      EscapingGraphs(first, second);
    }
  }

  lemma {:induction false} EscapingGraphs(first: Graph, second: Graph)
    requires AllPatternsFit(Branches(first)) && AllPatternsFit(Branches(second)) && !AllScoped(Branches(first), Branches(second))
    requires first.vertices != [] && second.vertices != []
    ensures !AlwaysGraphsJoin(first, second)
  {
    hide AllScoped, BagsJoin, RetestedAll, RetestedGraph, PatternsFit, GraphsJoin, Branches, Escapes, AskedAll;
    var a, b := Branches(first), Branches(second);
    var i, k, j, l, x := SomeEscape(a, b);
    assert a[i] in a && b[j] in b;
    FitsConcat(a[i], b[j]);
    AskedNotJoins(a, b, i, k, j, l, x);
    var g := GraphAsked(first, i, k, x);
    var h := GraphAsked(second, j, l, x);
    RetestedBranches(first, g);
    RetestedBranches(second, h);
    GraphsJoinBranches(g, h);
  }
}
