/**
 The product of materialized sub-results, visited one index tuple after the other.
 */
module CartesianResult {
  import opened Graphs
  import opened Projection
  import opened Entries
  import opened Odometer

  type SubResult = map<Key, nat>

  /* ---------- the product of the current values ---------- */

  ghost function ValuesOf(es: seq<CountedEntry>): (r: seq<nat>)
    ensures |r| == |es| && forall i :: 0 <= i < |es| ==> r[i] == es[i].value
  {
    seq(|es|, i requires 0 <= i < |es| => es[i].value)
  }

  ghost function Values(subs: seq<seq<CountedEntry>>): (r: seq<seq<nat>>)
    ensures |r| == |subs| && forall i :: 0 <= i < |subs| ==> r[i] == ValuesOf(subs[i])
  {
    seq(|subs|, i requires 0 <= i < |subs| => ValuesOf(subs[i]))
  }

  ghost function Radices(subs: seq<seq<CountedEntry>>): (r: seq<nat>)
    ensures |r| == |subs| && forall i :: 0 <= i < |subs| ==> r[i] == |subs[i]|
  {
    seq(|subs|, i requires 0 <= i < |subs| => |subs[i]|)
  }

  lemma Scale(x: nat, y: nat, z: nat, a: nat, b: nat)
    requires y * a == z * b
    ensures x * y * a == x * z * b
  {
    assert x * y * a == x * (y * a);
    assert x * z * b == x * (z * b);
  }

  /** Replacing one factor of a product. */
  lemma {:induction false} WeightReplace(ws: seq<seq<nat>>, t: seq<nat>, i: nat, b: nat)
    requires IsIndex(ws, t) && i < |ws| && b < |ws[i]|
    ensures IsIndex(ws, t[i := b])
    ensures Weight(ws, t[i := b]) * ws[i][t[i]] == Weight(ws, t) * ws[i][b]
  {
    if i == 0 {
      assert t[i := b][1..] == t[1..];
      var w := Weight(ws[1..], t[1..]);
      assert ws[0][b] * w * ws[0][t[0]] == ws[0][t[0]] * w * ws[0][b];
    } else {
      IndexTail(ws, t);
      WeightReplace(ws[1..], t[1..], i - 1, b);
      assert t[i := b][1..] == t[1..][i - 1 := b];
      Scale(ws[0][t[0]], Weight(ws[1..], t[1..][i - 1 := b]), Weight(ws[1..], t[1..]), ws[i][t[i]], ws[i][b]);
    }
  }

  lemma ExactDivision(x: nat, y: nat, a: nat)
    requires a > 0 && x * a == y
    ensures y / a == x && y % a == 0
  {
    var q, r := y / a, y % a;
    assert y == a * q + r;
    assert q < x ==> a * (q + 1) <= a * x;
    assert x < q ==> a * (x + 1) <= a * q;
    assert a * x == x * a;
  }

  lemma {:induction false} WeightPositive(ws: seq<seq<nat>>, t: seq<nat>)
    requires IsIndex(ws, t) && forall i :: 0 <= i < |ws| ==> ws[i][t[i]] > 0
    ensures Weight(ws, t) > 0
  {
    if ws != [] {
      IndexTail(ws, t);
      assert forall i :: 0 <= i < |ws| - 1 ==> ws[1..][i] == ws[i + 1] && t[1..][i] == t[i + 1];
      WeightPositive(ws[1..], t[1..]);
    }
  }

  /* ---------- what the entry shows ---------- */

  ghost predicate FitsWidth(subs: seq<seq<CountedEntry>>, poss: seq<seq<nat>>, width: nat) {
    && |poss| == |subs|
    && (forall i :: 0 <= i < |subs| ==> Indices(poss[i], width))
    && (forall i, d :: 0 <= i < |subs| && 0 <= d < |subs[i]| ==> |subs[i][d].key| == width)
  }

  ghost predicate NonEmptyPositive(subs: seq<seq<CountedEntry>>) {
    && (forall i :: 0 <= i < |subs| ==> subs[i] != [])
    && (forall i, d :: 0 <= i < |subs| && 0 <= d < |subs[i]| ==> subs[i][d].value > 0)
  }

  /** No two components write the same position. */
  ghost predicate Apart(poss: seq<seq<nat>>) {
    forall i, j, p :: 0 <= i < j < |poss| && p in poss[i] ==> p !in poss[j]
  }

  /** The key with the first n components written over it. */
  ghost function Shown(k: Key, subs: seq<seq<CountedEntry>>, poss: seq<seq<nat>>, t: seq<nat>, n: nat): (r: Key)
    requires FitsWidth(subs, poss, |k|) && |t| == |subs| && n <= |subs|
    requires forall i :: 0 <= i < |subs| ==> t[i] < |subs[i]|
    ensures |r| == |k|
  {
    if n == 0 then k
    else Overwrite(Shown(k, subs, poss, t, n - 1), poss[n - 1], subs[n - 1][t[n - 1]].key)
  }

  ghost predicate Somewhere(poss: seq<seq<nat>>, n: nat, p: nat)
    requires n <= |poss|
  {
    exists i :: 0 <= i < n && p in poss[i]
  }

  /** Position by position: a component's own positions show its current key, all others keep k. */
  lemma {:induction false} ShownAt(k: Key, subs: seq<seq<CountedEntry>>, poss: seq<seq<nat>>, t: seq<nat>, n: nat, p: nat)
    requires FitsWidth(subs, poss, |k|) && |t| == |subs| && n <= |subs| && Apart(poss) && p < |k|
    requires forall i :: 0 <= i < |subs| ==> t[i] < |subs[i]|
    ensures forall i :: 0 <= i < n && p in poss[i] ==> Shown(k, subs, poss, t, n)[p] == subs[i][t[i]].key[p]
    ensures !Somewhere(poss, n, p) ==> Shown(k, subs, poss, t, n)[p] == k[p]
  {
    if n > 0 {
      ShownAt(k, subs, poss, t, n - 1, p);
      forall i | 0 <= i < n - 1 && p in poss[i] ensures p !in poss[n - 1] {
      }
    }
  }

  lemma {:induction false} ShownPrefix(k: Key, subs: seq<seq<CountedEntry>>, poss: seq<seq<nat>>, t: seq<nat>, u: seq<nat>, n: nat)
    requires FitsWidth(subs, poss, |k|) && |t| == |subs| == |u| && n <= |subs|
    requires forall i :: 0 <= i < |subs| ==> t[i] < |subs[i]| && u[i] < |subs[i]|
    requires forall i :: 0 <= i < n ==> t[i] == u[i]
    ensures Shown(k, subs, poss, t, n) == Shown(k, subs, poss, u, n)
  {
    if n > 0 {
      ShownPrefix(k, subs, poss, t, u, n - 1);
    }
  }

  /* ---------- the iterator ---------- */

  /** entry lists the pairs of a sub-result; an empty sub-result becomes one unbound entry. */
  ghost predicate VectorOf(m: SubResult, vec: seq<CountedEntry>, width: nat) {
    if m == map[] then vec == [CountedEntry(seq(width, _ => None), 1)]
    else
      && (forall d :: 0 <= d < |vec| ==> vec[d].key in m && vec[d].value == m[vec[d].key])
      && (forall k :: Total(vec, k) == if k in m then m[k] else 0)
  }

  /** vec lists the pairs of the keys in done. */
  ghost predicate Listed(m: SubResult, done: set<Key>, vec: seq<CountedEntry>) {
    && (forall d :: 0 <= d < |vec| ==> vec[d].key in m && vec[d].value == m[vec[d].key])
    && (forall k :: Total(vec, k) == if k in m && k in done then m[k] else 0)
  }

  lemma ListedStep(m: SubResult, done: set<Key>, vec: seq<CountedEntry>, k: Key)
    requires Listed(m, done, vec) && k in m && k !in done
    ensures Listed(m, done + {k}, vec + [CountedEntry(k, m[k])])
  {
    forall k' ensures Total(vec + [CountedEntry(k, m[k])], k') == if k' in m && k' in done + {k} then m[k'] else 0 {
      TotalSnoc(vec, CountedEntry(k, m[k]), k');
    }
  }

  method ToVector(m: SubResult, width: nat) returns (vec: seq<CountedEntry>)
    ensures VectorOf(m, vec, width) && vec != []
  {
    if m == map[] {
      vec := [CountedEntry(seq(width, _ => None), 1)];
      return;
    }
    vec := [];
    var rest := m.Keys;
    while rest != {}
      invariant rest <= m.Keys
      invariant Listed(m, m.Keys - rest, vec)
      invariant vec == [] ==> rest == m.Keys
      decreases rest
    {
      var k :| k in rest;
      ListedStep(m, m.Keys - rest, vec, k);
      assert m.Keys - (rest - {k}) == (m.Keys - rest) + {k};
      vec := vec + [CountedEntry(k, m[k])];
      rest := rest - {k};
    }
  }

  /** All lists but the one at the excluded position. */
  function AllBut<T>(s: seq<T>, excluded: nat): (r: seq<T>)
    requires excluded < |s|
    ensures |r| == |s| - 1
    ensures forall i :: 0 <= i < |r| ==> r[i] == if i < excluded then s[i] else s[i + 1]
  {
    s[..excluded] + s[excluded + 1..]
  }

  class FullCartesianResult {
    const entry: Entry
    var value: nat
    var subResults: seq<seq<CountedEntry>>
    var ended: bool
    var iterPoss: seq<nat>
    var resultPoss: seq<seq<nat>>

    /** The parts that never change fit together. */
    ghost predicate Shape(width: nat)
      reads this
    {
      FitsWidth(subResults, resultPoss, width) && NonEmptyPositive(subResults) && |iterPoss| == |subResults|
    }

    /** The iterator stands on a tuple, and value is the product of the values there. */
    ghost predicate OnTuple()
      reads this
    {
      IsIndex(Values(subResults), iterPoss) && value == Weight(Values(subResults), iterPoss)
    }

    constructor (maps: seq<SubResult>, entry: Entry, excluded: nat, allPoss: seq<seq<nat>>)
      requires |allPoss| == |maps| + 1 && excluded < |allPoss|
      ensures this.entry == entry && ended
      ensures |subResults| == |maps| && resultPoss == AllBut(allPoss, excluded)
      ensures forall i :: 0 <= i < |maps| ==> VectorOf(maps[i], subResults[i], |entry.key|) && subResults[i] != []
      ensures |iterPoss| == |subResults|
    {
      this.entry := entry;
      value := 1;
      subResults := [];
      ended := true;
      iterPoss := seq(|maps|, _ => 0);
      resultPoss := [];
      new;
      for i := 0 to |maps|
        invariant |subResults| == i && |iterPoss| == |maps| && value == 1 && ended && resultPoss == []
        invariant forall j :: 0 <= j < i ==> VectorOf(maps[j], subResults[j], |entry.key|) && subResults[j] != []
      {
        var vec := ToVector(maps[i], |entry.key|);
        subResults := subResults + [vec];
      }
      for i := 0 to |allPoss|
        invariant |subResults| == |maps| && |iterPoss| == |maps| && ended
        invariant forall j :: 0 <= j < |maps| ==> VectorOf(maps[j], subResults[j], |entry.key|) && subResults[j] != []
        invariant i <= excluded ==> resultPoss == allPoss[..i]
        invariant i > excluded ==> resultPoss == allPoss[..excluded] + allPoss[excluded + 1..i]
      {
        if i != excluded {
          resultPoss := resultPoss + [allPoss[i]];
        }
      }
    }

    /** The product of the values of the current tuple. */
    method Deref() returns (v: nat)
      ensures v == value
    {
      v := value;
    }

    /** Back to the first tuple. */
    method Restart()
      requires Shape(|entry.key|)
      modifies this`value, this`ended, this`iterPoss, entry
      ensures Shape(|entry.key|) && OnTuple() && !ended
      ensures forall i :: 0 <= i < |iterPoss| ==> iterPoss[i] == 0
      ensures |entry.key| == |old(entry.key)| && entry.value == old(entry.value)
      ensures entry.key == Shown(old(entry.key), subResults, resultPoss, iterPoss, |subResults|)
    {
      hide Shown, FirstProduct, FitsWidth, NonEmptyPositive, Weight, IsIndex, Values;
      ended := false;
      iterPoss := seq(|subResults|, _ => 0);
      value := 1;
      ghost var ws := Values(subResults);
      ghost var zeros := iterPoss;
      ZeroStart(subResults, resultPoss, entry.key, zeros);
      for i := 0 to |subResults|
        invariant Shape(|entry.key|) && !ended && iterPoss == zeros
        invariant |entry.key| == |old(entry.key)| && entry.value == old(entry.value)
        invariant entry.key == Shown(old(entry.key), subResults, resultPoss, zeros, i)
        invariant FirstProduct(ws, zeros, i, value)
      {
        var current := subResults[i][0];
        UpdateEntryKey(resultPoss[i], entry, current.key);
        ShownNext(old(entry.key), subResults, resultPoss, zeros, i);
        FirstProductNext(ws, zeros, i, value);
        value := value * current.value;
      }
      ProductDone(ws, zeros, value);
    }

    /** Moves one wheel: the product gains the new factor and loses the old one. */
    method TurnWheel(i: nat, ghost key: Key) returns (carryOver: bool)
      requires Shape(|entry.key|) && OnTuple() && |key| == |entry.key|
      requires i < |subResults| && entry.key == Shown(key, subResults, resultPoss, iterPoss, i)
      modifies this`value, this`iterPoss, entry
      ensures Shape(|entry.key|) && OnTuple()
      ensures |entry.key| == |old(entry.key)| && entry.value == old(entry.value)
      ensures old(iterPoss)[i] < |subResults[i]|
      ensures carryOver == (old(iterPoss)[i] + 1 == |subResults[i]|)
      ensures iterPoss == old(iterPoss)[i := if carryOver then 0 else old(iterPoss)[i] + 1]
      ensures entry.key == Shown(key, subResults, resultPoss, iterPoss, i + 1)
    {
      hide Shown, Weight;
      var last := subResults[i][iterPoss[i]];
      carryOver := iterPoss[i] + 1 == |subResults[i]|;
      var position := if carryOver then 0 else iterPoss[i] + 1;
      var current := subResults[i][position];
      Replaced(key, subResults, resultPoss, iterPoss, i, position);
      ReplacedValue(subResults, iterPoss, i, position, value);
      UpdateEntryKey(resultPoss[i], entry, current.key);
      iterPoss := iterPoss[i := position];
      value := (value * current.value) / last.value;
    }

    /** Shows the wheels from i on. */
    method ShowRest(i: nat, ghost key: Key)
      requires Shape(|entry.key|) && OnTuple() && |key| == |entry.key|
      requires i <= |subResults| && entry.key == Shown(key, subResults, resultPoss, iterPoss, i)
      modifies entry
      ensures |entry.key| == |old(entry.key)| && entry.value == old(entry.value)
      ensures entry.key == Shown(key, subResults, resultPoss, iterPoss, |subResults|)
    {
      hide Shown, Weight;
      for j := i to |subResults|
        invariant |entry.key| == |old(entry.key)| && entry.value == old(entry.value)
        invariant entry.key == Shown(key, subResults, resultPoss, iterPoss, j)
      {
        UpdateEntryKey(resultPoss[j], entry, subResults[j][iterPoss[j]].key);
        ShownNext(key, subResults, resultPoss, iterPoss, j);
      }
    }

    /** On to the tuple of the next rank, or to the end after the last one. */
    method Advance()
      requires Shape(|entry.key|) && OnTuple() && !ended
      modifies this`value, this`ended, this`iterPoss, entry
      ensures Shape(|entry.key|) && OnTuple()
      ensures |entry.key| == |old(entry.key)| && entry.value == old(entry.value)
      ensures entry.key == Shown(old(entry.key), subResults, resultPoss, iterPoss, |subResults|)
      ensures Turned(Radices(subResults), old(iterPoss), iterPoss, ended)
    {
      hide Shown, Weight, FitsWidth, NonEmptyPositive, AtLast, Turned, Reset, Radices;
      ghost var before := iterPoss;
      ShownStart(entry.key, subResults, resultPoss, iterPoss);
      ResetNone(Radices(subResults), before);
      var i := 0;
      while i < |subResults|
        invariant 0 <= i <= |subResults|
        invariant Shape(|entry.key|) && OnTuple() && !ended
        invariant |entry.key| == |old(entry.key)| && entry.value == old(entry.value)
        invariant |before| == |subResults| && iterPoss == Reset(before, i) && AtLast(Radices(subResults), before, i)
        invariant entry.key == Shown(old(entry.key), subResults, resultPoss, iterPoss, i)
      {
        var carryOver := TurnWheel(i, old(entry.key));
        i := i + 1;
        ResetNext(subResults, before, i - 1);
        if !carryOver {
          TurnedAt(Radices(subResults), before, iterPoss, i - 1);
          ShowRest(i, old(entry.key));
          return;
        }
      }
      ended := true;
      TurnedOver(subResults, before);
    }
  }

  lemma ShownStart(k: Key, subs: seq<seq<CountedEntry>>, poss: seq<seq<nat>>, t: seq<nat>)
    requires FitsWidth(subs, poss, |k|) && |t| == |subs| && forall i :: 0 <= i < |subs| ==> t[i] < |subs[i]|
    ensures Shown(k, subs, poss, t, 0) == k
  {
  }

  lemma ResetNone(ns: seq<nat>, t: seq<nat>)
    requires |ns| == |t|
    ensures Reset(t, 0) == t && AtLast(ns, t, 0)
  {
  }

  lemma ResetNext(subs: seq<seq<CountedEntry>>, t: seq<nat>, i: nat)
    requires i < |subs| == |t| && AtLast(Radices(subs), t, i)
    ensures Reset(t, i)[i] == t[i] && |Radices(subs)| == |subs| && Radices(subs)[i] == |subs[i]|
    ensures t[i] + 1 == |subs[i]| ==> Reset(t, i)[i := 0] == Reset(t, i + 1) && AtLast(Radices(subs), t, i + 1)
  {
  }

  lemma TurnedOver(subs: seq<seq<CountedEntry>>, t: seq<nat>)
    requires |t| == |subs| && AtLast(Radices(subs), t, |subs|)
    ensures Turned(Radices(subs), t, Reset(t, |subs|), true)
  {
  }

  lemma ZeroStart(subs: seq<seq<CountedEntry>>, poss: seq<seq<nat>>, k: Key, zeros: seq<nat>)
    requires FitsWidth(subs, poss, |k|) && NonEmptyPositive(subs)
    requires |zeros| == |subs| && forall i :: 0 <= i < |zeros| ==> zeros[i] == 0
    ensures |poss| == |subs| && forall i :: 0 <= i < |subs| ==> subs[i] != [] && zeros[i] < |subs[i]| && Indices(poss[i], |k|)
    ensures forall i :: 0 <= i < |subs| ==> |subs[i][0].key| == |k|
    ensures Shown(k, subs, poss, zeros, 0) == k && FirstProduct(Values(subs), zeros, 0, 1)
    ensures IsIndex(Values(subs), zeros)
  {
    assert Values(subs)[0..] == Values(subs) && zeros[0..] == zeros;
  }

  lemma ProductDone(ws: seq<seq<nat>>, t: seq<nat>, value: nat)
    requires FirstProduct(ws, t, |ws|, value)
    ensures value == Weight(ws, t)
  {
    assert ws[|ws|..] == [] && t[|ws|..] == [];
  }

  /** The first i wheels stand on their last positions. */
  ghost predicate AtLast(ns: seq<nat>, t: seq<nat>, i: nat) {
    i <= |ns| == |t| && forall j :: 0 <= j < i ==> t[j] + 1 == ns[j]
  }

  lemma TurnedAt(ns: seq<nat>, t: seq<nat>, u: seq<nat>, i: nat)
    requires i < |t| && AtLast(ns, t, i) && t[i] + 1 < ns[i]
    requires u == Reset(t, i)[i := t[i] + 1]
    ensures Turned(ns, t, u, false)
  {
  }

  /** From tuple t the iterator moves to u: one wheel turns and those before it carry over, or all wheels carry over and it ends. */
  ghost predicate Turned(ns: seq<nat>, t: seq<nat>, u: seq<nat>, ended: bool) {
    && |t| == |ns| == |u|
    && if ended then
         AtLast(ns, t, |ns|) && forall j :: 0 <= j < |ns| ==> u[j] == 0
       else
         exists i :: 0 <= i < |ns| && AtLast(ns, t, i) && t[i] + 1 < ns[i] && u == Reset(t, i)[i := t[i] + 1]
  }

  lemma Replaced(k: Key, subs: seq<seq<CountedEntry>>, poss: seq<seq<nat>>, t: seq<nat>, i: nat, b: nat)
    requires FitsWidth(subs, poss, |k|) && |t| == |subs| && i < |subs| && b < |subs[i]|
    requires forall j :: 0 <= j < |subs| ==> t[j] < |subs[j]|
    ensures Shown(k, subs, poss, t[i := b], i + 1) == Overwrite(Shown(k, subs, poss, t, i), poss[i], subs[i][b].key)
  {
    ShownNext(k, subs, poss, t[i := b], i);
    ShownPrefix(k, subs, poss, t, t[i := b], i);
  }

  lemma ReplacedValue(subs: seq<seq<CountedEntry>>, t: seq<nat>, i: nat, b: nat, value: nat)
    requires IsIndex(Values(subs), t) && value == Weight(Values(subs), t)
    requires i < |subs| && b < |subs[i]| && subs[i][t[i]].value > 0
    ensures IsIndex(Values(subs), t[i := b])
    ensures (value * subs[i][b].value) / subs[i][t[i]].value == Weight(Values(subs), t[i := b])
    ensures (value * subs[i][b].value) % subs[i][t[i]].value == 0
  {
    WeightReplace(Values(subs), t, i, b);
    ExactDivision(Weight(Values(subs), t[i := b]), value * subs[i][b].value, subs[i][t[i]].value);
  }

  /** value is the product of the first i factors. */
  ghost predicate FirstProduct(ws: seq<seq<nat>>, t: seq<nat>, i: nat, value: nat) {
    IsIndex(ws, t) && i <= |ws| && IsIndex(ws[i..], t[i..]) && value * Weight(ws[i..], t[i..]) == Weight(ws, t)
  }

  lemma FirstProductNext(ws: seq<seq<nat>>, t: seq<nat>, i: nat, value: nat)
    requires FirstProduct(ws, t, i, value) && i < |ws|
    ensures t[i] < |ws[i]| && FirstProduct(ws, t, i + 1, value * ws[i][t[i]])
  {
    WeightSplit(ws, t, i);
    var w := Weight(ws[i + 1..], t[i + 1..]);
    assert value * (ws[i][t[i]] * w) == value * ws[i][t[i]] * w;
  }

  lemma ShownNext(k: Key, subs: seq<seq<CountedEntry>>, poss: seq<seq<nat>>, t: seq<nat>, i: nat)
    requires FitsWidth(subs, poss, |k|) && |t| == |subs| && i < |subs|
    requires forall j :: 0 <= j < |subs| ==> t[j] < |subs[j]|
    ensures Shown(k, subs, poss, t, i + 1) == Overwrite(Shown(k, subs, poss, t, i), poss[i], subs[i][t[i]].key)
  {
  }

  lemma WeightSplit(ws: seq<seq<nat>>, t: seq<nat>, i: nat)
    requires IsIndex(ws, t) && i < |ws|
    ensures IsIndex(ws[i..], t[i..]) && IsIndex(ws[i + 1..], t[i + 1..])
    ensures Weight(ws[i..], t[i..]) == ws[i][t[i]] * Weight(ws[i + 1..], t[i + 1..])
  {
    assert ws[i..][1..] == ws[i + 1..] && t[i..][1..] == t[i + 1..];
  }

  /* ---------- every tuple once ---------- */

  /** One step of the iterator goes to the next rank, and the end comes after the last rank. */
  lemma TurnedRank(ns: seq<nat>, t: seq<nat>, u: seq<nat>, ended: bool)
    requires IsTuple(ns, t) && Turned(ns, t, u, ended)
    ensures !ended ==> IsTuple(ns, u) && Rank(ns, u) == Rank(ns, t) + 1 && Rank(ns, u) < Size(ns)
    ensures ended ==> Rank(ns, t) + 1 == Size(ns)
  {
    if ended {
      RankLast(ns, t);
    } else {
      var i :| 0 <= i < |ns| && AtLast(ns, t, i) && t[i] + 1 < ns[i] && u == Reset(t, i)[i := t[i] + 1];
      RankTurn(ns, t, i);
      RankBound(ns, u);
    }
  }

  /** The tuples from the first one on, each a step after the one before. */
  ghost predicate IsRun(ns: seq<nat>, run: seq<seq<nat>>) {
    && run != [] && (forall i :: 0 <= i < |run| ==> IsTuple(ns, run[i]))
    && (forall j :: 0 <= j < |ns| ==> run[0][j] == 0)
    && forall i :: 0 < i < |run| ==> Turned(ns, run[i - 1], run[i], false)
  }

  /** The tuples passed by an iterator that stands on t, or has ended. */
  ghost predicate RunSoFar(ns: seq<nat>, visited: seq<seq<nat>>, t: seq<nat>, ended: bool) {
    if ended then IsRun(ns, visited) && Turned(ns, Last(visited), t, true) else IsRun(ns, visited + [t])
  }

  lemma RunStart(ns: seq<nat>, t: seq<nat>)
    requires IsTuple(ns, t) && forall j :: 0 <= j < |t| ==> t[j] == 0
    ensures RunSoFar(ns, [], t, false)
  {
  }

  lemma RunStep(ns: seq<nat>, visited: seq<seq<nat>>, t: seq<nat>, u: seq<nat>, ended: bool)
    requires RunSoFar(ns, visited, t, false) && IsTuple(ns, u) && Turned(ns, t, u, ended)
    ensures RunSoFar(ns, visited + [t], u, ended)
  {
    hide Turned, IsTuple;
    var run := visited + [t];
    assert Last(run) == t;
    if !ended {
      forall i | 0 < i < |run| + 1 ensures Turned(ns, (run + [u])[i - 1], (run + [u])[i], false) {
      }
    }
  }

  lemma {:induction false} RunRank(ns: seq<nat>, run: seq<seq<nat>>, i: nat)
    requires IsRun(ns, run) && i < |run|
    ensures |run[i]| == |ns| && Rank(ns, run[i]) == i
    decreases i
  {
    hide Turned;
    if i == 0 {
      RankZero(ns, run[0]);
    } else {
      RunRank(ns, run, i - 1);
      TurnedRank(ns, run[i - 1], run[i], false);
    }
  }

  /** All tuples, and none twice. */
  ghost predicate EachOnce(ns: seq<nat>, run: seq<seq<nat>>) {
    && |run| == Size(ns)
    && (forall i :: 0 <= i < |run| ==> IsTuple(ns, run[i]))
    && (forall t :: IsTuple(ns, t) ==> t in run)
    && forall i, j :: 0 <= i < j < |run| ==> run[i] != run[j]
  }

  /** A run that has come to its end has visited every tuple exactly once. */
  lemma RunVisitsAll(ns: seq<nat>, visited: seq<seq<nat>>, end: seq<nat>)
    requires RunSoFar(ns, visited, end, true)
    ensures EachOnce(ns, visited)
  {
    hide Turned, Rank, Size;
    RunRank(ns, visited, |visited| - 1);
    TurnedRank(ns, Last(visited), end, true);
    forall t | IsTuple(ns, t) ensures t in visited {
      RankBound(ns, t);
      var r := Rank(ns, t);
      RunRank(ns, visited, r);
      RankInjective(ns, t, visited[r]);
    }
    forall i: nat, j: nat | i < j < |visited| ensures visited[i] != visited[j] {
      RunRank(ns, visited, i);
      RunRank(ns, visited, j);
    }
  }

  /** Along the visit, the weights of the tuples passed add up; at the end, to the product of the sums. */
  lemma TurnedSum(ws: seq<seq<nat>>, ns: seq<nat>, t: seq<nat>, u: seq<nat>, ended: bool)
    requires |ws| == |ns| && forall i :: 0 <= i < |ws| ==> |ws[i]| == ns[i]
    requires IsIndex(ws, t) && Turned(ns, t, u, ended)
    ensures !ended ==> IsIndex(ws, u) && SumBefore(ws, u) == SumBefore(ws, t) + Weight(ws, t)
    ensures ended ==> SumBefore(ws, t) + Weight(ws, t) == SumProduct(ws)
  {
    if ended {
      SumLast(ws, t);
    } else {
      var i :| 0 <= i < |ns| && AtLast(ns, t, i) && t[i] + 1 < ns[i] && u == Reset(t, i)[i := t[i] + 1];
      SumTurn(ws, t, i);
    }
  }

  /* ---------- the weight of a key ---------- */

  /** Two keys agree at the listed positions. */
  predicate AgreeAt(a: Key, b: Key, poss: seq<nat>) {
    forall p :: p in poss ==> p < |a| && p < |b| && a[p] == b[p]
  }

  /** The values of the entries that agree with k at the positions; the others weigh nothing. */
  ghost function WeightsFor(es: seq<CountedEntry>, poss: seq<nat>, k: Key): (r: seq<nat>)
    ensures |r| == |es|
    ensures forall d :: 0 <= d < |es| ==> r[d] == if AgreeAt(es[d].key, k, poss) then es[d].value else 0
  {
    seq(|es|, d requires 0 <= d < |es| => if AgreeAt(es[d].key, k, poss) then es[d].value else 0)
  }

  ghost function KeyWeights(subs: seq<seq<CountedEntry>>, poss: seq<seq<nat>>, k: Key): (r: seq<seq<nat>>)
    requires |subs| == |poss|
    ensures |r| == |subs| && forall i :: 0 <= i < |subs| ==> r[i] == WeightsFor(subs[i], poss[i], k)
  {
    seq(|subs|, i requires 0 <= i < |subs| => WeightsFor(subs[i], poss[i], k))
  }

  ghost predicate AllAgree(subs: seq<seq<CountedEntry>>, poss: seq<seq<nat>>, t: seq<nat>, k: Key)
    requires |subs| == |poss| == |t| && forall i :: 0 <= i < |subs| ==> t[i] < |subs[i]|
  {
    forall i :: 0 <= i < |subs| ==> AgreeAt(subs[i][t[i]].key, k, poss[i])
  }

  /** A tuple weighs the product of its values if all its keys agree with k, and nothing otherwise. */
  lemma {:induction false} TupleWeight(vs: seq<seq<nat>>, ws: seq<seq<nat>>, t: seq<nat>, agree: seq<bool>)
    requires IsIndex(vs, t) && IsIndex(ws, t) && |agree| == |t|
    requires forall i :: 0 <= i < |t| ==> ws[i][t[i]] == if agree[i] then vs[i][t[i]] else 0
    ensures Weight(ws, t) == if (forall i :: 0 <= i < |t| ==> agree[i]) then Weight(vs, t) else 0
  {
    if t != [] {
      IndexTail(vs, t);
      IndexTail(ws, t);
      assert forall i :: 0 <= i < |t| - 1 ==> ws[1..][i] == ws[i + 1] && vs[1..][i] == vs[i + 1] && t[1..][i] == t[i + 1] && agree[1..][i] == agree[i + 1];
      TupleWeight(vs[1..], ws[1..], t[1..], agree[1..]);
      if forall i :: 0 <= i < |t| - 1 ==> agree[1..][i] {
        assert (forall i :: 0 <= i < |t| ==> agree[i]) <==> agree[0];
      }
    }
  }

  lemma KeyTupleWeight(subs: seq<seq<CountedEntry>>, poss: seq<seq<nat>>, t: seq<nat>, k: Key)
    requires |subs| == |poss| == |t| && forall i :: 0 <= i < |subs| ==> t[i] < |subs[i]|
    ensures IsIndex(KeyWeights(subs, poss, k), t) && IsIndex(Values(subs), t)
    ensures Weight(KeyWeights(subs, poss, k), t) == if AllAgree(subs, poss, t, k) then Weight(Values(subs), t) else 0
  {
    var agree := seq(|t|, i requires 0 <= i < |t| => AgreeAt(subs[i][t[i]].key, k, poss[i]));
    TupleWeight(Values(subs), KeyWeights(subs, poss, k), t, agree);
  }
}
