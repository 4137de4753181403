/**
 Branches without an empty pattern: when patterns without variables among them
 are harmless, and how many of them a join has.
 */
module BranchLives {
  import opened Graphs
  import opened Tries
  import opened Preparation
  import opened BranchBags
  import opened Counting

  /** Patterns without variables only. */
  ghost predicate ScalarBranch(vs: seq<Vertex>) {
    forall i :: 0 <= i < |vs| ==> vs[i].Operand? && vs[i].vars == []
  }

  /** No pattern is empty over the store. */
  ghost predicate LiveBranch(store: set<Row>, vs: seq<Vertex>) {
    forall i :: 0 <= i < |vs| ==> SlicesOf(store, vs)[i].rows != {}
  }

  /** No live branch of patterns without variables stands beside another live one. */
  ghost predicate BranchesHarmless(store: set<Row>, branches: seq<seq<Vertex>>) {
    forall i, j :: 0 <= i < |branches| && 0 <= j < |branches| && Harming(store, branches[i], branches[j]) ==> i == j
  }

  ghost predicate Harming(store: set<Row>, u: seq<Vertex>, w: seq<Vertex>) {
    ScalarBranch(u) && LiveBranch(store, u) && LiveBranch(store, w)
  }

  /* ---------- numbers of live branches ---------- */

  function One(b: bool): (r: nat)
    ensures b ==> r == 1
    ensures !b ==> r == 0
  {
    if b then 1 else 0
  }

  ghost function LiveNumber(store: set<Row>, branches: seq<seq<Vertex>>): nat {
    if branches == [] then 0 else LiveNumber(store, Init(branches)) + One(LiveBranch(store, Last(branches)))
  }

  /** The live branches of patterns without variables. */
  ghost function ScalarNumber(store: set<Row>, branches: seq<seq<Vertex>>): nat {
    if branches == [] then 0
    else ScalarNumber(store, Init(branches)) + One(ScalarBranch(Last(branches)) && LiveBranch(store, Last(branches)))
  }

  ghost function Places(n: nat, has: nat -> bool): set<nat> {
    set i: nat | i < n && has(i)
  }

  lemma PlacesStep(n: nat, has: nat -> bool, before: nat -> bool)
    requires n > 0 && forall i: nat :: i < n - 1 ==> has(i) == before(i)
    ensures |Places(n, has)| == |Places(n - 1, before)| + One(has(n - 1))
  {
    var last := if has(n - 1) then {n - 1} else {};
    assert Places(n, has) == Places(n - 1, before) + last;
    SplitCard(Places(n, has), Places(n - 1, before), last);
  }

  ghost function IsLive(store: set<Row>, branches: seq<seq<Vertex>>): nat -> bool {
    (i: nat) => i < |branches| && LiveBranch(store, branches[i])
  }

  ghost function IsScalar(store: set<Row>, branches: seq<seq<Vertex>>): nat -> bool {
    (i: nat) => i < |branches| && ScalarBranch(branches[i]) && LiveBranch(store, branches[i])
  }

  lemma InitPlaces(store: set<Row>, branches: seq<seq<Vertex>>)
    requires branches != []
    ensures forall i: nat :: i < |branches| - 1 ==> IsLive(store, branches)(i) == IsLive(store, Init(branches))(i)
    ensures forall i: nat :: i < |branches| - 1 ==> IsScalar(store, branches)(i) == IsScalar(store, Init(branches))(i)
    ensures IsLive(store, branches)(|branches| - 1) == LiveBranch(store, Last(branches))
    ensures IsScalar(store, branches)(|branches| - 1) == (ScalarBranch(Last(branches)) && LiveBranch(store, Last(branches)))
  {
    hide LiveBranch, ScalarBranch;
    assert forall i :: 0 <= i < |branches| - 1 ==> Init(branches)[i] == branches[i];
  }

  lemma {:induction false} PlacesNumber(store: set<Row>, branches: seq<seq<Vertex>>)
    ensures |Places(|branches|, IsLive(store, branches))| == LiveNumber(store, branches)
    ensures |Places(|branches|, IsScalar(store, branches))| == ScalarNumber(store, branches)
    decreases |branches|
  {
    hide *;
    if branches == [] {
      NoPlaces(IsLive(store, branches));
      NoPlaces(IsScalar(store, branches));
      NoNumbers(store);
    } else {
      InInit(branches);
      PlacesNumber(store, Init(branches));
      InitPlaces(store, branches);
      PlacesStep(|branches|, IsLive(store, branches), IsLive(store, Init(branches)));
      PlacesStep(|branches|, IsScalar(store, branches), IsScalar(store, Init(branches)));
      NumbersLast(store, Init(branches), Last(branches));
    }
  }

  lemma NoPlaces(has: nat -> bool)
    ensures Places(0, has) == {}
  {
  }

  lemma OneElement(s: set<nat>, x: nat)
    requires x in s
    ensures |s| == 1 <==> forall y :: y in s ==> y == x
  {
    assert s == (s - {x}) + {x};
    if |s| == 1 {
      forall y | y in s ensures y == x {
        assert y != x ==> y in s - {x};
      }
    }
    if forall y :: y in s ==> y == x {
      assert s - {x} == {};
    }
  }

  /** Harmless: there is no live branch of patterns without variables, or it is the only live one. */
  lemma HarmlessExactly(store: set<Row>, branches: seq<seq<Vertex>>)
    ensures BranchesHarmless(store, branches) <==> ScalarNumber(store, branches) == 0 || LiveNumber(store, branches) == 1
  {
    PlacesNumber(store, branches);
    hide LiveBranch, ScalarBranch, LiveNumber, ScalarNumber;
    var n := |branches|;
    var live, scalars := Places(n, IsLive(store, branches)), Places(n, IsScalar(store, branches));
    if scalars == {} {
      forall i: nat, j: nat | i < |branches| && j < |branches| ensures !Harming(store, branches[i], branches[j]) {
        assert i !in scalars;
      }
    } else {
      var i: nat :| i in scalars;
      OneElement(live, i);
      if BranchesHarmless(store, branches) {
        forall j: nat | j in live ensures j == i {
          assert Harming(store, branches[i], branches[j]);
        }
      }
      if |live| == 1 {
        forall j: nat, k: nat | j < |branches| && k < |branches| && Harming(store, branches[j], branches[k]) ensures j == k {
          assert j in live && k in live;
        }
      }
    }
  }

  lemma {:induction false} NumbersAppend(store: set<Row>, a: seq<seq<Vertex>>, b: seq<seq<Vertex>>)
    ensures LiveNumber(store, a + b) == LiveNumber(store, a) + LiveNumber(store, b)
    ensures ScalarNumber(store, a + b) == ScalarNumber(store, a) + ScalarNumber(store, b)
    decreases |b|
  {
    hide *;
    if b == [] {
      NoNumbers(store);
      assert a + b == a;
    } else {
      NumbersAppend(store, a, Init(b));
      InInit(b);
      NumbersLast(store, Init(b), Last(b));
      NumbersLast(store, a + Init(b), Last(b));
      assert a + b == a + Init(b) + [Last(b)];
    }
  }

  lemma NoNumbers(store: set<Row>)
    ensures LiveNumber(store, []) == 0 && ScalarNumber(store, []) == 0
  {
  }

  lemma NumbersLast(store: set<Row>, branches: seq<seq<Vertex>>, last: seq<Vertex>)
    ensures LiveNumber(store, branches + [last]) == LiveNumber(store, branches) + One(LiveBranch(store, last))
    ensures ScalarNumber(store, branches + [last]) == ScalarNumber(store, branches) + One(ScalarBranch(last) && LiveBranch(store, last))
  {
    assert Init(branches + [last]) == branches;
  }

  /** A linked pair is live if both sides are. */
  lemma LivePair(store: set<Row>, u: seq<Vertex>, w: seq<Vertex>)
    ensures LiveBranch(store, u + w) <==> LiveBranch(store, u) && LiveBranch(store, w)
  {
    hide SliceOf;
    var v := u + w;
    assert SlicesOf(store, v) == SlicesOf(store, u) + SlicesOf(store, w);
    if LiveBranch(store, v) {
      forall i | 0 <= i < |u| ensures SlicesOf(store, u)[i].rows != {} {
        assert SlicesOf(store, v)[i] == SlicesOf(store, u)[i];
      }
      forall i | 0 <= i < |w| ensures SlicesOf(store, w)[i].rows != {} {
        assert SlicesOf(store, v)[|u| + i] == SlicesOf(store, w)[i];
      }
    }
  }

  lemma {:induction false} RowLives(store: set<Row>, u: seq<Vertex>, b: seq<seq<Vertex>>)
    ensures LiveNumber(store, PairingsWith(u, b)) == if LiveBranch(store, u) then LiveNumber(store, b) else 0
    decreases |b|
  {
    hide *;
    PairingsWithLast(u, b);
    NoNumbers(store);
    if b != [] {
      RowLives(store, u, Init(b));
      InInit(b);
      LivePair(store, u, Last(b));
      NumbersLast(store, PairingsWith(u, Init(b)), u + Last(b));
      NumbersLast(store, Init(b), Last(b));
    }
  }

  /** The live pairs are the pairs of live branches. */
  lemma {:induction false} PairingsLive(store: set<Row>, a: seq<seq<Vertex>>, b: seq<seq<Vertex>>)
    ensures LiveNumber(store, Pairings(a, b)) == LiveNumber(store, a) * LiveNumber(store, b)
    decreases |a|
  {
    hide *;
    PairingsLast(a, b);
    NoNumbers(store);
    if a != [] {
      PairingsLive(store, Init(a), b);
      RowLives(store, Last(a), b);
      InInit(a);
      NumbersAppend(store, Pairings(Init(a), b), PairingsWith(Last(a), b));
      NumbersLast(store, Init(a), Last(a));
      OneTimes(LiveNumber(store, Init(a)), LiveBranch(store, Last(a)), LiveNumber(store, b));
    }
  }

  lemma OneTimes(n: nat, b: bool, m: nat)
    ensures n * m + (if b then m else 0) == (n + One(b)) * m
  {
  }

  lemma {:induction false} NoScalars(store: set<Row>, branches: seq<seq<Vertex>>)
    requires forall u :: u in branches ==> !ScalarBranch(u)
    ensures ScalarNumber(store, branches) == 0
    decreases |branches|
  {
    hide LiveBranch, ScalarBranch;
    if branches != [] {
      InInit(branches);
      NoScalars(store, Init(branches));
    }
  }
}
