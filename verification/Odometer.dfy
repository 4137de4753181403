/**
 The iterator over the product of materialized sub-results: an odometer whose
 first wheel turns fastest and which keeps the product of the current values by
 one multiplication and one exact division per wheel.
 */
module Odometer {
  import opened Graphs

  /* ---------- mixed radix ---------- */

  /** t is a tuple of wheel positions. */
  predicate IsTuple(ns: seq<nat>, t: seq<nat>) {
    |t| == |ns| && forall i :: 0 <= i < |ns| ==> t[i] < ns[i]
  }

  /** The rank of a tuple; the first wheel is the least significant. */
  ghost function Rank(ns: seq<nat>, t: seq<nat>): nat
    requires |t| == |ns|
  {
    if ns == [] then 0 else t[0] + ns[0] * Rank(ns[1..], t[1..])
  }

  ghost function Size(ns: seq<nat>): nat {
    if ns == [] then 1 else ns[0] * Size(ns[1..])
  }

  lemma RowBound(a: nat, n: nat, r: nat, s: nat)
    requires a < n && r < s
    ensures a + n * r < n * s
  {
    assert n * (r + 1) <= n * s;
  }

  lemma {:induction false} RankBound(ns: seq<nat>, t: seq<nat>)
    requires IsTuple(ns, t)
    ensures Rank(ns, t) < Size(ns)
  {
    if ns != [] {
      RankBound(ns[1..], t[1..]);
      RowBound(t[0], ns[0], Rank(ns[1..], t[1..]), Size(ns[1..]));
    }
  }

  lemma UniqueRow(a: nat, b: nat, n: nat, r: nat, s: nat)
    requires a < n && b < n && a + n * r == b + n * s
    ensures a == b && r == s
  {
    assert r < s ==> n * (r + 1) <= n * s;
    assert s < r ==> n * (s + 1) <= n * r;
  }

  /** Different tuples have different ranks. */
  lemma {:induction false} RankInjective(ns: seq<nat>, t: seq<nat>, u: seq<nat>)
    requires IsTuple(ns, t) && IsTuple(ns, u) && Rank(ns, t) == Rank(ns, u)
    ensures t == u
  {
    if ns != [] {
      UniqueRow(t[0], u[0], ns[0], Rank(ns[1..], t[1..]), Rank(ns[1..], u[1..]));
      RankInjective(ns[1..], t[1..], u[1..]);
      assert t == [t[0]] + t[1..] && u == [u[0]] + u[1..];
    }
  }

  /** t with its first i wheels back at zero. */
  ghost function Reset(t: seq<nat>, i: nat): (r: seq<nat>)
    requires i <= |t|
    ensures |r| == |t| && forall j :: 0 <= j < |t| ==> r[j] == if j < i then 0 else t[j]
  {
    seq(|t|, j requires 0 <= j < |t| => if j < i then 0 else t[j])
  }

  lemma {:induction false} RankZero(ns: seq<nat>, t: seq<nat>)
    requires |t| == |ns| && forall j :: 0 <= j < |t| ==> t[j] == 0
    ensures Rank(ns, t) == 0
  {
    if ns != [] {
      RankZero(ns[1..], t[1..]);
    }
  }

  /** Turning wheel i while all wheels before it carry over adds one to the rank. */
  lemma {:induction false} RankTurn(ns: seq<nat>, t: seq<nat>, i: nat)
    requires IsTuple(ns, t) && i < |ns|
    requires forall j :: 0 <= j < i ==> t[j] == ns[j] - 1
    ensures Rank(ns, Reset(t, i)[i := t[i] + 1]) == Rank(ns, t) + 1
  {
    var u := Reset(t, i)[i := t[i] + 1];
    if i == 0 {
      assert u[1..] == t[1..];
    } else {
      RankTurn(ns[1..], t[1..], i - 1);
      assert u[1..] == Reset(t[1..], i - 1)[i - 1 := t[1..][i - 1] + 1];
      assert ns[0] * (Rank(ns[1..], t[1..]) + 1) == ns[0] * Rank(ns[1..], t[1..]) + ns[0];
    }
  }

  /** All wheels at their last positions: the last rank. */
  lemma {:induction false} RankLast(ns: seq<nat>, t: seq<nat>)
    requires IsTuple(ns, t) && forall j :: 0 <= j < |ns| ==> t[j] == ns[j] - 1
    ensures Rank(ns, t) + 1 == Size(ns)
  {
    if ns != [] {
      RankLast(ns[1..], t[1..]);
      assert ns[0] * (Rank(ns[1..], t[1..]) + 1) == ns[0] * Rank(ns[1..], t[1..]) + ns[0];
    }
  }

  /* ---------- weights ---------- */

  /** The product of the weights at the positions of a tuple. */
  ghost function Weight(ws: seq<seq<nat>>, t: seq<nat>): nat
    requires IsIndex(ws, t)
  {
    if ws == [] then 1 else ws[0][t[0]] * Weight(ws[1..], t[1..])
  }

  ghost function Sum(s: seq<nat>): nat {
    if s == [] then 0 else Sum(Init(s)) + Last(s)
  }

  ghost function SumProduct(ws: seq<seq<nat>>): nat {
    if ws == [] then 1 else Sum(ws[0]) * SumProduct(ws[1..])
  }

  ghost predicate IsIndex(ws: seq<seq<nat>>, t: seq<nat>) {
    |t| == |ws| && forall i :: 0 <= i < |ws| ==> t[i] < |ws[i]|
  }

  lemma IndexTail(ws: seq<seq<nat>>, t: seq<nat>)
    requires ws != [] && IsIndex(ws, t)
    ensures IsIndex(ws[1..], t[1..]) && t[0] < |ws[0]|
  {
  }

  /** The weights of all tuples of lower rank than t. */
  ghost function SumBefore(ws: seq<seq<nat>>, t: seq<nat>): nat
    requires IsIndex(ws, t)
  {
    if ws == [] then 0
    else
      IndexTail(ws, t);
      Sum(ws[0][..t[0]]) * Weight(ws[1..], t[1..]) + Sum(ws[0]) * SumBefore(ws[1..], t[1..])
  }

  lemma {:induction false} SumBeforeZero(ws: seq<seq<nat>>, t: seq<nat>)
    requires IsIndex(ws, t) && forall i :: 0 <= i < |t| ==> t[i] == 0
    ensures SumBefore(ws, t) == 0
  {
    if ws != [] {
      IndexTail(ws, t);
      SumBeforeZero(ws[1..], t[1..]);
    }
  }

  lemma TakeStep(s: seq<nat>, a: nat)
    requires a < |s|
    ensures Sum(s[..a + 1]) == Sum(s[..a]) + s[a]
  {
    assert Init(s[..a + 1]) == s[..a];
  }

  lemma TakeAll(s: seq<nat>)
    requires s != []
    ensures Sum(s) == Sum(s[..|s| - 1]) + s[|s| - 1]
  {
    TakeStep(s, |s| - 1);
    assert s[..|s|] == s;
  }

  lemma Distribute(a: nat, b: nat, w: nat)
    ensures (a + b) * w == a * w + b * w && w * (a + b) == w * a + w * b
  {
  }

  lemma SumBeforeStep(ws: seq<seq<nat>>, t: seq<nat>)
    requires ws != [] && IsIndex(ws, t)
    ensures IsIndex(ws[1..], t[1..]) && t[0] < |ws[0]|
    ensures SumBefore(ws, t) == Sum(ws[0][..t[0]]) * Weight(ws[1..], t[1..]) + Sum(ws[0]) * SumBefore(ws[1..], t[1..])
    ensures Weight(ws, t) == ws[0][t[0]] * Weight(ws[1..], t[1..])
  {
  }

  lemma ResetTail(t: seq<nat>, i: nat)
    requires i < |t|
    ensures i == 0 ==> Reset(t, i)[i := t[i] + 1] == [t[0] + 1] + t[1..]
    ensures i > 0 ==> Reset(t, i)[i := t[i] + 1] == [0] + Reset(t[1..], i - 1)[i - 1 := t[1..][i - 1] + 1]
  {
  }

  lemma TurnFirst(p: nat, l: nat, s: nat, w: nat, b: nat)
    ensures (p + l) * w + s * b == (p * w + s * b) + l * w
  {
  }

  lemma TurnLater(p: nat, l: nat, w: nat, b: nat, any: nat)
    ensures 0 * any + (p + l) * (b + w) == (p * w + (p + l) * b) + l * w
  {
  }

  lemma SumTurnFirst(ws: seq<seq<nat>>, t: seq<nat>, u: seq<nat>)
    requires IsIndex(ws, t) && ws != [] && t[0] + 1 < |ws[0]|
    requires u == [t[0] + 1] + t[1..]
    ensures IsIndex(ws, u) && SumBefore(ws, u) == SumBefore(ws, t) + Weight(ws, t)
  {
    hide SumBefore, Weight, Sum;
    assert u[1..] == t[1..];
    SumBeforeStep(ws, t);
    SumBeforeStep(ws, u);
    TakeStep(ws[0], t[0]);
    TurnFirst(Sum(ws[0][..t[0]]), ws[0][t[0]], Sum(ws[0]), Weight(ws[1..], t[1..]), SumBefore(ws[1..], t[1..]));
  }

  lemma SumTurnLater(ws: seq<seq<nat>>, t: seq<nat>, u: seq<nat>)
    requires IsIndex(ws, t) && ws != [] && t[0] == |ws[0]| - 1
    requires |u| == |t| && u[0] == 0 && IsIndex(ws[1..], t[1..]) && IsIndex(ws[1..], u[1..])
    requires SumBefore(ws[1..], u[1..]) == SumBefore(ws[1..], t[1..]) + Weight(ws[1..], t[1..])
    ensures IsIndex(ws, u) && SumBefore(ws, u) == SumBefore(ws, t) + Weight(ws, t)
  {
    hide SumBefore, Weight, Sum;
    TailIndex(ws, u);
    hide IsIndex;
    SumBeforeStep(ws, t);
    SumBeforeStep(ws, u);
    TakeAll(ws[0]);
    assert ws[0][..0] == [];
    EmptySum();
    LaterFactor(Sum(ws[0][..t[0]]), ws[0][t[0]], Weight(ws[1..], t[1..]), SumBefore(ws[1..], t[1..]),
                Sum(ws[0]), SumBefore(ws[1..], u[1..]), Weight(ws[1..], u[1..]));
  }

  lemma TailIndex(ws: seq<seq<nat>>, u: seq<nat>)
    requires |u| == |ws| > 0 && u[0] < |ws[0]| && IsIndex(ws[1..], u[1..])
    ensures IsIndex(ws, u)
  {
    assert forall i :: 0 < i < |ws| ==> ws[i] == ws[1..][i - 1] && u[i] == u[1..][i - 1];
  }

  lemma LaterFactor(p: nat, l: nat, w: nat, b: nat, s: nat, q: nat, any: nat)
    requires s == p + l && q == b + w
    ensures 0 * any + s * q == (p * w + s * b) + l * w
  {
    TurnLater(p, l, w, b, any);
  }

  /** Turning a wheel adds the weight of the tuple that is left. */
  lemma {:induction false} SumTurn(ws: seq<seq<nat>>, t: seq<nat>, i: nat)
    requires IsIndex(ws, t) && i < |ws| && t[i] + 1 < |ws[i]|
    requires forall j :: 0 <= j < i ==> t[j] == |ws[j]| - 1
    ensures IsIndex(ws, Reset(t, i)[i := t[i] + 1])
    ensures SumBefore(ws, Reset(t, i)[i := t[i] + 1]) == SumBefore(ws, t) + Weight(ws, t)
  {
    hide SumBefore, Weight, Sum;
    var u := Reset(t, i)[i := t[i] + 1];
    ResetTail(t, i);
    if i == 0 {
      SumTurnFirst(ws, t, u);
    } else {
      IndexTail(ws, t);
      SumTurn(ws[1..], t[1..], i - 1);
      assert u[1..] == Reset(t[1..], i - 1)[i - 1 := t[1..][i - 1] + 1];
      SumTurnLater(ws, t, u);
    }
  }

  lemma EmptySum()
    ensures Sum([]) == 0
  {
  }

  /** With the last tuple, the sum of products is the product of sums. */
  lemma {:induction false} SumLast(ws: seq<seq<nat>>, t: seq<nat>)
    requires IsIndex(ws, t) && forall j :: 0 <= j < |ws| ==> t[j] == |ws[j]| - 1
    ensures SumBefore(ws, t) + Weight(ws, t) == SumProduct(ws)
  {
    hide SumBefore, Weight, SumProduct, Sum;
    if ws == [] {
      SumLastNone(ws, t);
    } else {
      IndexTail(ws, t);
      SumLast(ws[1..], t[1..]);
      TakeAll(ws[0]);
      SumBeforeStep(ws, t);
      SumProductStep(ws);
      LastFactor(Sum(ws[0][..t[0]]), ws[0][t[0]], Weight(ws[1..], t[1..]), SumBefore(ws[1..], t[1..]),
                 Sum(ws[0]), SumProduct(ws[1..]));
    }
  }

  lemma SumLastNone(ws: seq<seq<nat>>, t: seq<nat>)
    requires ws == [] && IsIndex(ws, t)
    ensures SumBefore(ws, t) + Weight(ws, t) == SumProduct(ws)
  {
  }

  lemma SumProductStep(ws: seq<seq<nat>>)
    requires ws != []
    ensures SumProduct(ws) == Sum(ws[0]) * SumProduct(ws[1..])
  {
  }

  lemma LastFactor(p: nat, l: nat, w: nat, b: nat, s: nat, q: nat)
    requires s == p + l && q == b + w
    ensures (p * w + s * b) + l * w == s * q
  {
    Distribute(p, l, w);
    Distribute(b, w, s);
  }
}
