/**
 The bag of a list of branches over a store, and why pairing the branches of two
 lists joins their bags.
 */
module BranchBags {
  import opened Graphs
  import opened Tries
  import opened Semantics
  import opened Counting
  import opened ProductProof
  import opened GraphUnions
  import opened Preparation

  /* ---------- branches ---------- */

  /** Every branch of the first with every branch of the second, row by row. */
  function Pairings(a: seq<seq<Vertex>>, b: seq<seq<Vertex>>): (r: seq<seq<Vertex>>)
    ensures |r| == |a| * |b|
  {
    if a == [] then []
    else
      assert |a| * |b| == (|a| - 1) * |b| + |b|;
      Pairings(Init(a), b) + PairingsWith(Last(a), b)
  }

  function PairingsWith(u: seq<Vertex>, b: seq<seq<Vertex>>): (r: seq<seq<Vertex>>)
    ensures |r| == |b| && forall j :: 0 <= j < |b| ==> r[j] == u + b[j]
  {
    seq(|b|, j requires 0 <= j < |b| => u + b[j])
  }

  lemma InInit<T>(b: seq<T>)
    requires b != []
    ensures b == Init(b) + [Last(b)] && Last(b) in b && forall x :: x in Init(b) ==> x in b
  {
  }

  lemma PairingsWithLast(u: seq<Vertex>, b: seq<seq<Vertex>>)
    ensures b == [] ==> PairingsWith(u, b) == []
    ensures b != [] ==> PairingsWith(u, b) == PairingsWith(u, Init(b)) + [u + Last(b)]
  {
  }

  lemma PairingsLast(a: seq<seq<Vertex>>, b: seq<seq<Vertex>>)
    ensures a == [] ==> Pairings(a, b) == []
    ensures a != [] ==> Pairings(a, b) == Pairings(Init(a), b) + PairingsWith(Last(a), b)
  {
  }

  lemma {:induction false} PairingsMember(a: seq<seq<Vertex>>, b: seq<seq<Vertex>>, x: seq<Vertex>)
    requires x in Pairings(a, b)
    ensures exists u, w :: u in a && w in b && x == u + w
  {
    if a != [] {
      if x in Pairings(Init(a), b) {
        PairingsMember(Init(a), b, x);
        var u, w :| u in Init(a) && w in b && x == u + w;
        assert u in a;
      } else {
        var j :| 0 <= j < |b| && PairingsWith(Last(a), b)[j] == x;
        assert Last(a) in a && b[j] in b;
      }
    }
  }

  lemma {:induction false} RowLength(u: seq<Vertex>, b: seq<seq<Vertex>>)
    ensures TotalLength(PairingsWith(u, b)) == |b| * |u| + TotalLength(b)
    decreases |b|
  {
    PairingsWithLast(u, b);
    if b != [] {
      RowLength(u, Init(b));
      hide *;
      InInit(b);
      LengthSnoc(Init(b), Last(b));
      LengthSnoc(PairingsWith(u, Init(b)), u + Last(b));
      OneMore(|b|, |u|);
    }
  }

  lemma LengthSnoc(lists: seq<seq<Vertex>>, last: seq<Vertex>)
    ensures TotalLength(lists + [last]) == TotalLength(lists) + |last|
  {
    assert Init(lists + [last]) == lists;
  }

  lemma OneMore(n: nat, s: nat)
    requires n > 0
    ensures n * s == (n - 1) * s + s
  {
  }

  lemma DistributeBoth(a: nat, b: nat, t: nat, l: nat, s: nat)
    requires a > 0
    ensures b * (t + l) + a * s == (b * t + (a - 1) * s) + (b * l + s)
  {
    OneMore(a, s);
    assert b * (t + l) == b * t + b * l;
  }

  /** Every branch is repeated once for each branch of the other side. */
  lemma {:induction false} PairingsLength(a: seq<seq<Vertex>>, b: seq<seq<Vertex>>)
    ensures TotalLength(Pairings(a, b)) == |b| * TotalLength(a) + |a| * TotalLength(b)
    decreases |a|
  {
    hide *;
    PairingsLast(a, b);
    if a == [] {
      NoLength();
    } else {
      InInit(a);
      PairingsLength(Init(a), b);
      RowLength(Last(a), b);
      TotalLengthAppend(Pairings(Init(a), b), PairingsWith(Last(a), b));
      LengthSnoc(Init(a), Last(a));
      DistributeBoth(|a|, |b|, TotalLength(Init(a)), |Last(a)|, TotalLength(b));
    }
  }

  lemma NoLength()
    ensures TotalLength<Vertex>([]) == 0
  {
  }

  function SlicesOf(store: set<Row>, vs: seq<Vertex>): (ops: seq<Trie>)
    ensures |ops| == |vs|
    ensures forall i :: 0 <= i < |vs| ==>
              ops[i] == if vs[i].FilterVertex? then TRUE_SCALAR else SliceOf(store, vs[i].slice)
  {
    seq(|vs|, i requires 0 <= i < |vs| => if vs[i].FilterVertex? then TRUE_SCALAR else SliceOf(store, vs[i].slice))
  }

  ghost function BranchJoin(store: set<Row>, vs: seq<Vertex>): set<Binding> {
    NaiveJoin(vs, SlicesOf(store, vs))
  }

  lemma BranchJoinKeys(store: set<Row>, vs: seq<Vertex>, m: Binding)
    requires m in BranchJoin(store, vs)
    ensures m.Keys == DataVars(vs)
  {
    NaiveJoinKeys(vs, SlicesOf(store, vs), m);
  }

  /** The join of a linked pair is the join of its sides. */
  lemma PairJoin(store: set<Row>, u: seq<Vertex>, w: seq<Vertex>, m: Binding)
    ensures m in BranchJoin(store, u + w) <==>
            m.Keys == DataVars(u) + DataVars(w)
            && Restrict(m, DataVars(u)) in BranchJoin(store, u) && Restrict(m, DataVars(w)) in BranchJoin(store, w)
    ensures BranchJoin(store, u + w) == Join(BranchJoin(store, u), BranchJoin(store, w))
  {
    hide *;
    assert SlicesOf(store, u + w) == SlicesOf(store, u) + SlicesOf(store, w);
    var a, b := BranchJoin(store, u), BranchJoin(store, w);
    forall n | n in a ensures n.Keys == DataVars(u) { BranchJoinKeys(store, u, n); }
    forall n | n in b ensures n.Keys == DataVars(w) { BranchJoinKeys(store, w, n); }
    forall n ensures n in BranchJoin(store, u + w) <==>
                     n.Keys == DataVars(u) + DataVars(w)
                     && Restrict(n, DataVars(u)) in a && Restrict(n, DataVars(w)) in b
    {
      PairSat(store, u, w, n);
      JoinIff(a, b, DataVars(u), DataVars(w), n);
    }
    forall n ensures n in BranchJoin(store, u + w) <==> n in Join(a, b) {
      JoinIff(a, b, DataVars(u), DataVars(w), n);
    }
  }

  lemma PairSat(store: set<Row>, u: seq<Vertex>, w: seq<Vertex>, m: Binding)
    requires SlicesOf(store, u + w) == SlicesOf(store, u) + SlicesOf(store, w)
    ensures m in BranchJoin(store, u + w) <==>
            m.Keys == DataVars(u) + DataVars(w)
            && Restrict(m, DataVars(u)) in BranchJoin(store, u) && Restrict(m, DataVars(w)) in BranchJoin(store, w)
  {
    hide SatJoin, DataVars;
    var ou, ow := SlicesOf(store, u), SlicesOf(store, w);
    NaiveJoinIff(u + w, ou + ow, m);
    NaiveJoinIff(u, ou, Restrict(m, DataVars(u)));
    NaiveJoinIff(w, ow, Restrict(m, DataVars(w)));
    SatJoinConcat(u, ou, w, ow, m);
  }

  /* ---------- the solutions of a linked pair ---------- */

  /** The filtered join of a branch. */
  ghost function BranchSols(store: set<Row>, vs: seq<Vertex>): set<Binding> {
    Sols(vs, SlicesOf(store, vs), map[])
  }

  /** A filter reads no variable of the other branch that its own does not bind. */
  ghost predicate FiltersWithin(u: seq<Vertex>, w: seq<Vertex>) {
    forall i :: 0 <= i < |u| && u[i].FilterVertex? ==> u[i].filter.vars * DataVars(w) <= DataVars(u)
  }

  ghost predicate Scoped(u: seq<Vertex>, w: seq<Vertex>) {
    FiltersWithin(u, w) && FiltersWithin(w, u)
  }

  lemma PassesPair(u: seq<Vertex>, w: seq<Vertex>, m: Binding)
    requires Scoped(u, w) && m.Keys == DataVars(u) + DataVars(w)
    ensures PassesAll(u + w, map[], m) <==>
            PassesAll(u, map[], Restrict(m, DataVars(u))) && PassesAll(w, map[], Restrict(m, DataVars(w)))
  {
    hide DataVars, Passes;
    var v := u + w;
    forall i: nat | i < |u| && u[i].FilterVertex?
      ensures v[i] == u[i]
      ensures Passes(u[i].filter, map[], Restrict(m, DataVars(u))) <==> Passes(u[i].filter, map[], m)
    {
      PassesRestrict(u[i].filter, map[], m, DataVars(u));
    }
    forall i: nat | i < |w| && w[i].FilterVertex?
      ensures v[|u| + i] == w[i]
      ensures Passes(w[i].filter, map[], Restrict(m, DataVars(w))) <==> Passes(w[i].filter, map[], m)
    {
      PassesRestrict(w[i].filter, map[], m, DataVars(w));
    }
  }

  /** The solutions of a linked pair are the joined solutions of its sides. */
  lemma PairSols(store: set<Row>, u: seq<Vertex>, w: seq<Vertex>, m: Binding)
    requires Scoped(u, w)
    ensures m in BranchSols(store, u + w) <==>
            m.Keys == DataVars(u) + DataVars(w)
            && Restrict(m, DataVars(u)) in BranchSols(store, u) && Restrict(m, DataVars(w)) in BranchSols(store, w)
  {
    hide DataVars, PassesAll, NaiveJoin, Restrict, Scoped;
    PairJoin(store, u, w, m);
    if m.Keys == DataVars(u) + DataVars(w) {
      PassesPair(u, w, m);
    }
  }

  lemma BranchSolsKeys(store: set<Row>, vs: seq<Vertex>, m: Binding)
    requires m in BranchSols(store, vs)
    ensures m.Keys == DataVars(vs)
  {
    BranchJoinKeys(store, vs, m);
  }

  /* ---------- bags ---------- */

  /** The bag of a union: the solutions of its branches, added up. */
  ghost function BranchBag(store: set<Row>, branches: seq<seq<Vertex>>): multiset<Binding> {
    if branches == [] then multiset{}
    else BranchBag(store, Init(branches)) + multiset(BranchSols(store, Last(branches)))
  }

  ghost function Support(bag: multiset<Binding>): set<Binding> {
    set m | m in bag
  }

  ghost function Weight(bag: multiset<Binding>, ok: Binding -> bool): Binding -> nat {
    (m: Binding) => if ok(m) then bag[m] else 0
  }

  /** How many of the bag's mappings are ok, with multiplicity. */
  ghost function SizeWhere(bag: multiset<Binding>, ok: Binding -> bool): nat {
    SumOver(Support(bag), Weight(bag, ok))
  }

  ghost function PairWeight(a: multiset<Binding>, b: multiset<Binding>, ok: Binding -> bool): ((Binding, Binding)) -> nat {
    (p: (Binding, Binding)) => if Compatible(p.0, p.1) && ok(p.0 + p.1) then Times(a[p.0], b[p.1]) else 0
  }

  /** How many pairs of mappings of the two bags are compatible and merge to one that is ok, with multiplicity. */
  ghost function JoinSize(a: multiset<Binding>, b: multiset<Binding>, ok: Binding -> bool): nat {
    SumOver(Pairs(Support(a), Support(b)), PairWeight(a, b, ok))
  }

  function Is(m: Binding): Binding -> bool {
    (n: Binding) => n == m
  }

  /** The multiplicity of a mapping in the join of two bags, as section 18.5 defines it. */
  ghost function JoinMultiplicity(a: multiset<Binding>, b: multiset<Binding>, m: Binding): nat {
    JoinSize(a, b, Is(m))
  }

  lemma SizeOfOne(bag: multiset<Binding>, m: Binding)
    ensures SizeWhere(bag, Is(m)) == bag[m]
  {
    var only := set n | n in Support(bag) && n == m;
    SumOverWider(only, Support(bag), Weight(bag, Is(m)));
    if m in bag {
      assert only == {m};
      SumOverSplit(only, m, Weight(bag, Is(m)));
      assert only - {m} == {};
    } else {
      assert only == {};
    }
  }

  lemma SizeUnion(a: multiset<Binding>, b: multiset<Binding>, ok: Binding -> bool)
    ensures SizeWhere(a + b, ok) == SizeWhere(a, ok) + SizeWhere(b, ok)
  {
    var t := Support(a + b);
    SumOverWider(Support(a), t, Weight(a, ok));
    SumOverWider(Support(b), t, Weight(b, ok));
    SumOverAdd(t, Weight(a, ok), Weight(b, ok), Weight(a + b, ok));
  }

  lemma TimesAdd(x: nat, y: nat, z: nat)
    ensures Times(x + y, z) == Times(x, z) + Times(y, z)
    ensures Times(z, x + y) == Times(z, x) + Times(z, y)
  {
  }

  lemma JoinUnionLeft(a: multiset<Binding>, b: multiset<Binding>, d: multiset<Binding>, ok: Binding -> bool)
    ensures JoinSize(a + b, d, ok) == JoinSize(a, d, ok) + JoinSize(b, d, ok)
  {
    hide Compatible, Times;
    var t := Pairs(Support(a + b), Support(d));
    forall p ensures PairWeight(a + b, d, ok)(p) == PairWeight(a, d, ok)(p) + PairWeight(b, d, ok)(p) {
      TimesAdd(a[p.0], b[p.0], d[p.1]);
    }
    forall p | p !in Pairs(Support(a), Support(d)) && p in t ensures PairWeight(a, d, ok)(p) == 0 {
      assert a[p.0] == 0;
    }
    forall p | p !in Pairs(Support(b), Support(d)) && p in t ensures PairWeight(b, d, ok)(p) == 0 {
      assert b[p.0] == 0;
    }
    SumOverWider(Pairs(Support(a), Support(d)), t, PairWeight(a, d, ok));
    SumOverWider(Pairs(Support(b), Support(d)), t, PairWeight(b, d, ok));
    SumOverAdd(t, PairWeight(a, d, ok), PairWeight(b, d, ok), PairWeight(a + b, d, ok));
  }

  lemma JoinUnionRight(a: multiset<Binding>, b: multiset<Binding>, d: multiset<Binding>, ok: Binding -> bool)
    ensures JoinSize(d, a + b, ok) == JoinSize(d, a, ok) + JoinSize(d, b, ok)
  {
    hide Compatible, Times;
    var t := Pairs(Support(d), Support(a + b));
    forall p ensures PairWeight(d, a + b, ok)(p) == PairWeight(d, a, ok)(p) + PairWeight(d, b, ok)(p) {
      TimesAdd(a[p.1], b[p.1], d[p.0]);
    }
    forall p | p !in Pairs(Support(d), Support(a)) && p in t ensures PairWeight(d, a, ok)(p) == 0 {
      assert a[p.1] == 0;
    }
    forall p | p !in Pairs(Support(d), Support(b)) && p in t ensures PairWeight(d, b, ok)(p) == 0 {
      assert b[p.1] == 0;
    }
    SumOverWider(Pairs(Support(d), Support(a)), t, PairWeight(d, a, ok));
    SumOverWider(Pairs(Support(d), Support(b)), t, PairWeight(d, b, ok));
    SumOverAdd(t, PairWeight(d, a, ok), PairWeight(d, b, ok), PairWeight(d, a + b, ok));
  }

  ghost function Where(s: set<Binding>, ok: Binding -> bool): set<Binding> {
    set m | m in s && ok(m)
  }

  lemma SizeOfSet(s: set<Binding>, ok: Binding -> bool)
    ensures SizeWhere(multiset(s), ok) == |Where(s, ok)|
  {
    assert Support(multiset(s)) == s;
    SumOverCount(s, Where(s, ok), Weight(multiset(s), ok));
  }

  ghost function PairsWhere(s: set<Binding>, t: set<Binding>, ok: Binding -> bool): set<(Binding, Binding)> {
    set p | p in Pairs(s, t) && Compatible(p.0, p.1) && ok(p.0 + p.1)
  }

  lemma JoinOfSets(s: set<Binding>, t: set<Binding>, ok: Binding -> bool)
    ensures JoinSize(multiset(s), multiset(t), ok) == |PairsWhere(s, t, ok)|
  {
    hide Compatible;
    assert Support(multiset(s)) == s && Support(multiset(t)) == t;
    SumOverCount(Pairs(s, t), PairsWhere(s, t, ok), PairWeight(multiset(s), multiset(t), ok));
  }

  lemma JoinNone(b: multiset<Binding>, ok: Binding -> bool)
    ensures JoinSize(multiset{}, b, ok) == 0 && JoinSize(b, multiset{}, ok) == 0 && SizeWhere(multiset{}, ok) == 0
  {
    assert Support(multiset{}) == {};
    assert Pairs<Binding, Binding>({}, Support(b)) == {} && Pairs<Binding, Binding>(Support(b), {}) == {};
  }

  /** The empty mapping alone is the unit of the join. */
  lemma JoinUnit(b: multiset<Binding>, ok: Binding -> bool)
    ensures JoinSize(multiset{map[]}, b, ok) == SizeWhere(b, ok) && JoinSize(b, multiset{map[]}, ok) == SizeWhere(b, ok)
  {
    var e := multiset{map[]};
    assert Support(e) == {map[]};
    forall m: Binding ensures map[] + m == m && m + map[] == m && Compatible(map[], m) && Compatible(m, map[]) {
    }
    SumOverBijection(Support(b), Pairs(Support(e), Support(b)), Weight(b, ok), PairWeight(e, b, ok),
                     (m: Binding) => (map[], m), (p: (Binding, Binding)) => p.1);
    SumOverBijection(Support(b), Pairs(Support(b), Support(e)), Weight(b, ok), PairWeight(b, e, ok),
                     (m: Binding) => (m, map[]), (p: (Binding, Binding)) => p.0);
  }

  /* ---------- pairing joins the bags ---------- */

  lemma {:induction false} BagAppend(store: set<Row>, a: seq<seq<Vertex>>, b: seq<seq<Vertex>>)
    ensures BranchBag(store, a + b) == BranchBag(store, a) + BranchBag(store, b)
  {
    hide BranchSols;
    if b == [] {
      assert a + b == a;
    } else {
      BagAppend(store, a, Init(b));
      assert Init(a + b) == a + Init(b) && Last(a + b) == Last(b);
    }
  }

  /** A linked pair has one solution for each compatible pair of solutions of its sides. */
  lemma PairSize(store: set<Row>, u: seq<Vertex>, w: seq<Vertex>, ok: Binding -> bool)
    requires Scoped(u, w)
    ensures SizeWhere(multiset(BranchSols(store, u + w)), ok)
         == JoinSize(multiset(BranchSols(store, u)), multiset(BranchSols(store, w)), ok)
  {
    hide BranchSols, DataVars, Scoped, SizeWhere, JoinSize;
    var a, b := BranchSols(store, u), BranchSols(store, w);
    var s, t := Where(BranchSols(store, u + w), ok), PairsWhere(a, b, ok);
    var f := (m: Binding) => (Restrict(m, DataVars(u)), Restrict(m, DataVars(w)));
    var g := (p: (Binding, Binding)) => p.0 + p.1;
    forall m | m in s ensures f(m) in t && g(f(m)) == m {
      PairSols(store, u, w, m);
      assert Restrict(m, DataVars(u)) + Restrict(m, DataVars(w)) == m;
    }
    forall p | p in t ensures g(p) in s && f(g(p)) == p {
      BranchSolsKeys(store, u, p.0);
      BranchSolsKeys(store, w, p.1);
      assert Restrict(p.0 + p.1, DataVars(u)) == p.0;
      assert Restrict(p.0 + p.1, DataVars(w)) == p.1;
      PairSols(store, u, w, p.0 + p.1);
    }
    BijectionCard(s, t, f, g);
    SizeOfSet(BranchSols(store, u + w), ok);
    JoinOfSets(a, b, ok);
  }

  ghost predicate AllScoped(a: seq<seq<Vertex>>, b: seq<seq<Vertex>>) {
    forall u, w :: u in a && w in b ==> Scoped(u, w)
  }

  lemma NoBag(store: set<Row>)
    ensures BranchBag(store, []) == multiset{}
  {
  }

  lemma BranchBagLast(store: set<Row>, branches: seq<seq<Vertex>>, last: seq<Vertex>)
    ensures BranchBag(store, branches + [last]) == BranchBag(store, branches) + multiset(BranchSols(store, last))
  {
    assert Init(branches + [last]) == branches;
  }

  lemma {:induction false} RowSize(store: set<Row>, u: seq<Vertex>, b: seq<seq<Vertex>>, ok: Binding -> bool)
    requires forall w :: w in b ==> Scoped(u, w)
    ensures SizeWhere(BranchBag(store, PairingsWith(u, b)), ok)
         == JoinSize(multiset(BranchSols(store, u)), BranchBag(store, b), ok)
    decreases |b|
  {
    hide *;
    var s := multiset(BranchSols(store, u));
    PairingsWithLast(u, b);
    if b == [] {
      NoBag(store);
      JoinNone(s, ok);
    } else {
      var before, w := Init(b), Last(b);
      InInit(b);
      RowSize(store, u, before, ok);
      PairSize(store, u, w, ok);
      BranchBagLast(store, PairingsWith(u, before), u + w);
      BranchBagLast(store, before, w);
      SizeUnion(BranchBag(store, PairingsWith(u, before)), multiset(BranchSols(store, u + w)), ok);
      JoinUnionRight(BranchBag(store, before), multiset(BranchSols(store, w)), s, ok);
    }
  }

  /** Pairing all branches of two unions joins their bags. */
  lemma {:induction false} PairingsSize(store: set<Row>, a: seq<seq<Vertex>>, b: seq<seq<Vertex>>, ok: Binding -> bool)
    requires AllScoped(a, b)
    ensures SizeWhere(BranchBag(store, Pairings(a, b)), ok) == JoinSize(BranchBag(store, a), BranchBag(store, b), ok)
    decreases |a|
  {
    hide *;
    PairingsLast(a, b);
    if a == [] {
      NoBag(store);
      JoinNone(BranchBag(store, b), ok);
    } else {
      var before, u := Init(a), Last(a);
      InInit(a);
      ScopedInit(a, b);
      PairingsSize(store, before, b, ok);
      RowSize(store, u, b, ok);
      BagAppend(store, Pairings(before, b), PairingsWith(u, b));
      BranchBagLast(store, before, u);
      SizeUnion(BranchBag(store, Pairings(before, b)), BranchBag(store, PairingsWith(u, b)), ok);
      JoinUnionLeft(BranchBag(store, before), multiset(BranchSols(store, u)), BranchBag(store, b), ok);
    }
  }

  lemma ScopedInit(a: seq<seq<Vertex>>, b: seq<seq<Vertex>>)
    requires a != [] && AllScoped(a, b)
    ensures AllScoped(Init(a), b) && forall w :: w in b ==> Scoped(Last(a), w)
  {
    InInit(a);
    hide Scoped;
  }
}
