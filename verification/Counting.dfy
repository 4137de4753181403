/**
 Cardinalities of finite sets: the arithmetic behind counted solutions.
 */
module Counting {

  function Times(a: nat, b: nat): (r: nat)
    ensures r == a * b
  {
    if b == 0 then 0 else Times(a, b - 1) + a
  }

  /** Two sets in bijection have the same size. */
  lemma {:induction false} BijectionCard<A, B>(s: set<A>, t: set<B>, f: A -> B, g: B -> A)
    requires forall a :: a in s ==> f(a) in t && g(f(a)) == a
    requires forall b :: b in t ==> g(b) in s && f(g(b)) == b
    ensures |s| == |t|
  {
    if s == {} {
      if b :| b in t {
        assert g(b) in s;
      }
    } else {
      var a :| a in s;
      BijectionCard(s - {a}, t - {f(a)}, f, g);
    }
  }

  ghost function Pairs<A, B>(s: set<A>, t: set<B>): set<(A, B)> {
    set a, b | a in s && b in t :: (a, b)
  }

  ghost function PairsWith<A, B>(a: A, t: set<B>): set<(A, B)> {
    set b | b in t :: (a, b)
  }

  lemma {:induction false} PairsWithCard<A, B>(a: A, t: set<B>)
    ensures |PairsWith(a, t)| == |t|
  {
    if t != {} {
      var b :| b in t;
      PairsWithCard(a, t - {b});
      assert PairsWith(a, t) == PairsWith(a, t - {b}) + {(a, b)};
    }
  }

  lemma PairsStep<A, B>(a: A, s: set<A>, t: set<B>)
    requires a in s
    ensures Pairs(s, t) == Pairs(s - {a}, t) + PairsWith(a, t)
    ensures Pairs(s - {a}, t) !! PairsWith(a, t)
  {
  }

  /** The pairs over two sets are as many as the product of their sizes. */
  lemma {:induction false} ProductCard<A, B>(s: set<A>, t: set<B>)
    ensures |Pairs(s, t)| == |s| * |t|
  {
    if s != {} {
      var a :| a in s;
      PairsStep(a, s, t);
      PairsWithCard(a, t);
      ProductCard(s - {a}, t);
      SplitCard(Pairs(s, t), Pairs(s - {a}, t), PairsWith(a, t));
      assert |s| * |t| == (|s| - 1) * |t| + |t|;
    }
  }

  /** A set split by a predicate. */
  lemma SplitCard<A>(s: set<A>, t: set<A>, u: set<A>)
    requires s == t + u && t !! u
    ensures |s| == |t| + |u|
  {
  }

  lemma SubsetCard<T>(a: set<T>, b: set<T>)
    requires a <= b
    ensures |a| <= |b|
  {
    assert b == a + (b - a);
  }

  /* ---------- finite sums ---------- */

  ghost function SumOver<T>(s: set<T>, f: T -> nat): nat {
    if s == {} then 0
    else
      var x :| x in s;
      f(x) + SumOver(s - {x}, f)
  }

  lemma {:induction false} SumOverSplit<T>(s: set<T>, x: T, f: T -> nat)
    requires x in s
    ensures SumOver(s, f) == f(x) + SumOver(s - {x}, f)
  {
    var y :| y in s && SumOver(s, f) == f(y) + SumOver(s - {y}, f);
    if y != x {
      SumOverSplit(s - {y}, x, f);
      SumOverSplit(s - {x}, y, f);
      assert s - {y} - {x} == s - {x} - {y};
    }
  }

  lemma {:induction false} SumOverSame<T>(s: set<T>, f: T -> nat, g: T -> nat)
    requires forall x :: x in s ==> f(x) == g(x)
    ensures SumOver(s, f) == SumOver(s, g)
  {
    if s != {} {
      var x :| x in s;
      SumOverSplit(s, x, f);
      SumOverSplit(s, x, g);
      SumOverSame(s - {x}, f, g);
    }
  }

  lemma {:induction false} SumOverAdd<T>(s: set<T>, f: T -> nat, g: T -> nat, h: T -> nat)
    requires forall x :: x in s ==> h(x) == f(x) + g(x)
    ensures SumOver(s, h) == SumOver(s, f) + SumOver(s, g)
  {
    if s != {} {
      var x :| x in s;
      SumOverSplit(s, x, f);
      SumOverSplit(s, x, g);
      SumOverSplit(s, x, h);
      SumOverAdd(s - {x}, f, g, h);
    }
  }

  lemma {:induction false} SumOverZero<T>(s: set<T>, f: T -> nat)
    requires forall x :: x in s ==> f(x) == 0
    ensures SumOver(s, f) == 0
  {
    if s != {} {
      var x :| x in s;
      SumOverSplit(s, x, f);
      SumOverZero(s - {x}, f);
    }
  }

  /** Elements of weight zero do not matter. */
  lemma {:induction false} SumOverWider<T>(s: set<T>, t: set<T>, f: T -> nat)
    requires s <= t && forall x :: x in t && x !in s ==> f(x) == 0
    ensures SumOver(t, f) == SumOver(s, f)
  {
    if s == {} {
      SumOverZero(t, f);
    } else {
      var x :| x in s;
      SumOverSplit(s, x, f);
      SumOverSplit(t, x, f);
      SumOverWider(s - {x}, t - {x}, f);
    }
  }

  /** Sums over two sets in bijection. */
  lemma {:induction false} SumOverBijection<A, B>(s: set<A>, t: set<B>, f: A -> nat, g: B -> nat, to: A -> B, from: B -> A)
    requires forall a :: a in s ==> to(a) in t && from(to(a)) == a && g(to(a)) == f(a)
    requires forall b :: b in t ==> from(b) in s && to(from(b)) == b
    ensures SumOver(s, f) == SumOver(t, g)
  {
    if s == {} {
      assert forall b :: b in t ==> from(b) in s;
      assert t == {};
    } else {
      var a :| a in s;
      SumOverSplit(s, a, f);
      SumOverSplit(t, to(a), g);
      SumOverBijection(s - {a}, t - {to(a)}, f, g, to, from);
    }
  }

  /** Weights of one count the elements that have one. */
  lemma {:induction false} SumOverCount<T>(s: set<T>, has: set<T>, f: T -> nat)
    requires has <= s && forall x :: x in s ==> f(x) == if x in has then 1 else 0
    ensures SumOver(s, f) == |has|
  {
    if s != {} {
      var x :| x in s;
      SumOverSplit(s, x, f);
      SumOverCount(s - {x}, has - {x}, f);
    }
  }
}
