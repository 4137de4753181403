/**
 Counted solutions: keys over the tracked variables, and how many solutions
 project to a key.
 */
module Projection {
  import opened Graphs
  import opened Tries
  import opened Semantics

  /** One part for each tracked variable; None is unbound. */
  type Key = seq<Option<Term>>

  datatype CountedEntry = CountedEntry(key: Key, value: nat)

  predicate Distinct(s: seq<VarId>) {
    forall i, j :: 0 <= i < j < |s| ==> s[i] != s[j]
  }

  lemma DistinctIndex(s: seq<VarId>, i: nat)
    requires Distinct(s) && i < |s|
    ensures IndexIn(s, s[i]) == i
  {
  }

  /** The key of a solution: tracked variables of the solution overwrite the key before. */
  function KeyOf(tracked: seq<VarId>, c: Key, m: Binding): (k: Key)
    requires |c| == |tracked|
    ensures |k| == |c|
    ensures forall i :: 0 <= i < |c| ==> k[i] == if tracked[i] in m then Some(m[tracked[i]]) else c[i]
  {
    seq(|c|, i requires 0 <= i < |c| => if tracked[i] in m then Some(m[tracked[i]]) else c[i])
  }

  /** The key with the variables in d unbound. */
  function Cleared(tracked: seq<VarId>, c: Key, d: set<VarId>): (k: Key)
    requires |c| == |tracked|
    ensures |k| == |c|
    ensures forall i :: 0 <= i < |c| ==> k[i] == if tracked[i] in d then None else c[i]
  {
    seq(|c|, i requires 0 <= i < |c| => if tracked[i] in d then None else c[i])
  }

  /** What an expression can read from a key. */
  function AsBinding(tracked: seq<VarId>, c: Key): Binding
    requires |c| == |tracked|
  {
    map x | x in tracked && c[IndexIn(tracked, x)].Some? :: c[IndexIn(tracked, x)].value
  }

  /** The sum of the values yielded for a key. */
  function Total(ys: seq<CountedEntry>, k: Key): nat {
    if ys == [] then 0
    else Total(Init(ys), k) + (if Last(ys).key == k then Last(ys).value else 0)
  }

  lemma TotalSnoc(ys: seq<CountedEntry>, y: CountedEntry, k: Key)
    ensures Total(ys + [y], k) == Total(ys, k) + (if y.key == k then y.value else 0)
  {
    assert Init(ys + [y]) == ys;
  }

  lemma {:induction false} TotalAppend(ys: seq<CountedEntry>, zs: seq<CountedEntry>, k: Key)
    ensures Total(ys + zs, k) == Total(ys, k) + Total(zs, k)
  {
    if zs == [] {
      assert ys + zs == ys;
    } else {
      TotalAppend(ys, Init(zs), k);
      assert ys + zs == (ys + Init(zs)) + [Last(zs)];
      TotalSnoc(ys + Init(zs), Last(zs), k);
    }
  }

  /** The solutions of a component that project to k. */
  ghost function Matching(vs: seq<Vertex>, ops: seq<Trie>, tracked: seq<VarId>, c: Key, k: Key): set<Binding>
    requires |vs| == |ops| && |c| == |tracked|
  {
    set m | m in Sols(vs, ops, AsBinding(tracked, c)) && KeyOf(tracked, c, m) == k
  }

  lemma MatchingIff(vs: seq<Vertex>, ops: seq<Trie>, tracked: seq<VarId>, c: Key, k: Key, m: Binding)
    requires |vs| == |ops| && |c| == |tracked|
    ensures m in Matching(vs, ops, tracked, c, k) <==>
            SatJoin(vs, ops, m) && PassesAll(vs, AsBinding(tracked, c), m) && KeyOf(tracked, c, m) == k
  {
    SolsIff(vs, ops, AsBinding(tracked, c), m);
  }

  /** The bag of a graph: the solutions of its union components, counted one component after the other. */
  ghost function BagCount(vs: seq<Vertex>, ops: seq<Trie>, parts: seq<seq<nat>>, tracked: seq<VarId>, c: Key, k: Key): nat
    requires |vs| == |ops| && |c| == |tracked|
    requires forall p :: p in parts ==> Indices(p, |vs|)
  {
    if parts == [] then 0
    else
      assert forall p :: p in Init(parts) ==> p in parts;
      BagCount(vs, ops, Init(parts), tracked, c, k)
      + |Matching(Pick(vs, Last(parts)), Pick(ops, Last(parts)), tracked, c, k)|
  }

  /* ---------- one join step ---------- */

  lemma StepVarStays(vs: seq<Vertex>, ops: seq<Trie>, x: VarId, v: Term,
                     keep: seq<nat>, vs': seq<Vertex>, ops': seq<Trie>, y: VarId, i: nat)
    requires JoinStep(vs, ops, x, v, keep, vs', ops')
    requires i < |vs| && vs[i].Operand? && y in vs[i].vars && y != x
    ensures y in DataVars(vs')
  {
    assert y in RemoveFrom(vs[i].vars, x);
    assert i in keep;
    var j :| 0 <= j < |keep| && keep[j] == i;
    assert vs'[j] == VertexWithout(vs[i], x);
  }

  lemma StepVarCame(vs: seq<Vertex>, ops: seq<Trie>, x: VarId, v: Term,
                    keep: seq<nat>, vs': seq<Vertex>, ops': seq<Trie>, y: VarId, j: nat)
    requires JoinStep(vs, ops, x, v, keep, vs', ops')
    requires j < |vs'| && vs'[j].Operand? && y in vs'[j].vars
    ensures y in DataVars(vs) && y != x
  {
    var i := keep[j];
    assert vs'[j] == VertexWithout(vs[i], x);
    assert vs[i].Operand? && y in vs[i].vars;
  }

  lemma StepDataVars(vs: seq<Vertex>, ops: seq<Trie>, x: VarId, v: Term,
                     keep: seq<nat>, vs': seq<Vertex>, ops': seq<Trie>)
    requires JoinStep(vs, ops, x, v, keep, vs', ops')
    ensures DataVars(vs') == DataVars(vs) - {x}
  {
    hide JoinStep;
    forall y | y in DataVars(vs) - {x} ensures y in DataVars(vs') {
      var i :| 0 <= i < |vs| && vs[i].Operand? && y in vs[i].vars;
      StepVarStays(vs, ops, x, v, keep, vs', ops', y, i);
    }
    forall y | y in DataVars(vs') ensures y in DataVars(vs) - {x} {
      var j :| 0 <= j < |vs'| && vs'[j].Operand? && y in vs'[j].vars;
      StepVarCame(vs, ops, x, v, keep, vs', ops', y, j);
    }
  }

  /** A solution takes for x a value that every operand with x holds. */
  lemma KeyPresent(vs: seq<Vertex>, ops: seq<Trie>, x: VarId, m: Binding)
    requires |vs| == |ops| && SatJoin(vs, ops, m) && x in m
    ensures PresentInAll(ops, VarPositions(vs, x), m[x])
  {
    var poss := VarPositions(vs, x);
    forall j | 0 <= j < |ops| ensures Present(ops[j], poss[j], m[x]) {
      if vs[j].Operand? {
        assert FitsAt(vs[j], ops[j], m);
        RowHasValue(vs[j].vars, x, m);
      }
    }
  }

  lemma JoinKeyOfSolution(vs: seq<Vertex>, ops: seq<Trie>, x: VarId, m: Binding)
    requires |vs| == |ops| && SatJoin(vs, ops, m) && x in DataVars(vs)
    ensures x in m && m[x] in JoinKeys(ops, VarPositions(vs, x))
  {
    var poss := VarPositions(vs, x);
    KeyPresent(vs, ops, x, m);
    var i :| 0 <= i < |vs| && vs[i].Operand? && x in vs[i].vars;
    var p :| 0 <= p < |vs[i].vars| && vs[i].vars[p] == x;
    assert p in poss[i];
    CandidatesHave(ops, poss, m[x], i);
  }

  lemma FitsStep(u: Vertex, t: Trie, x: VarId, m: Binding)
    requires AlignedAt(u, t) && x in m
    requires u.Operand? ==> forall y :: y in u.vars ==> y in m
    ensures FitsAt(VertexWithout(u, x), SliceOrKeep(t, OwnPositions(u, x), m[x]), m - {x}) <==> FitsAt(u, t, m)
  {
    if u.Operand? {
      RowAgree(RemoveFrom(u.vars, x), m, m - {x});
      if x in u.vars {
        var p :| 0 <= p < |u.vars| && u.vars[p] == x;
        assert p in PositionsOf(u.vars, x);
        SliceRow(t, u.vars, x, m);
      } else {
        RemoveAbsent(u.vars, x);
      }
    }
  }

  lemma OnlyVar(vars: seq<VarId>, x: VarId)
    requires RemoveFrom(vars, x) == [] && vars != []
    ensures PositionsOf(vars, x) != [] && forall y :: y in vars ==> y == x
  {
    assert forall y :: y in RemoveFrom(vars, x) <==> y in vars && y != x;
    assert vars[0] in vars;
    assert 0 in PositionsOf(vars, x);
  }

  /** An operand whose only variable is x holds the row of x alone as soon as v is present. */
  lemma FitsDropped(vars: seq<VarId>, t: Trie, x: VarId, m: Binding)
    requires t.Valid() && t.depth == |vars| && x in m
    requires RemoveFrom(vars, x) == [] && vars != []
    requires Present(t, PositionsOf(vars, x), m[x])
    ensures (forall y :: y in vars ==> y in m) && RowOf(vars, m) in t.rows
  {
    OnlyVar(vars, x);
    var r :| r in t.rows && RowHas(r, PositionsOf(vars, x), m[x]);
    RowHasValue(vars, x, m);
    DropLength(vars, x, r);
    DropLength(vars, x, RowOf(vars, m));
    DropInjective(vars, x, m[x], r, RowOf(vars, m));
  }

  lemma KeysWithout(m: Binding, d: set<VarId>, x: VarId)
    requires x in m && x in d
    ensures (m - {x}).Keys == d - {x} <==> m.Keys == d
  {
    assert m.Keys == (m - {x}).Keys + {x};
    assert d == (d - {x}) + {x};
  }

  /** Resolving x to its value in m: the rest of m satisfies the sliced operands, and conversely. */
  lemma SatStep(vs: seq<Vertex>, ops: seq<Trie>, x: VarId, m: Binding,
                keep: seq<nat>, vs': seq<Vertex>, ops': seq<Trie>)
    requires Aligned(vs, ops) && Live(vs, ops) && x in m && x in DataVars(vs)
    requires JoinStep(vs, ops, x, m[x], keep, vs', ops')
    ensures SatJoin(vs', ops', m - {x}) <==> SatJoin(vs, ops, m)
  {
    StepDataVars(vs, ops, x, m[x], keep, vs', ops');
    KeysWithout(m, DataVars(vs), x);
    if SatJoin(vs, ops, m) {
      SatStepForth(vs, ops, x, m, keep, vs', ops');
    }
    if SatJoin(vs', ops', m - {x}) {
      SatStepBack(vs, ops, x, m, keep, vs', ops');
    }
  }

  lemma JoinStepAt(vs: seq<Vertex>, ops: seq<Trie>, x: VarId, v: Term,
                   keep: seq<nat>, vs': seq<Vertex>, ops': seq<Trie>, j: nat)
    requires JoinStep(vs, ops, x, v, keep, vs', ops') && j < |keep|
    ensures |vs| == |ops| && |keep| == |vs'| == |ops'| && keep[j] < |vs|
    ensures vs'[j] == VertexWithout(vs[keep[j]], x)
    ensures ops'[j] == SliceOrKeep(ops[keep[j]], OwnPositions(vs[keep[j]], x), v)
  {
  }

  lemma AlignedHere(vs: seq<Vertex>, ops: seq<Trie>, i: nat)
    requires Aligned(vs, ops) && i < |vs|
    ensures |vs| == |ops| && AlignedAt(vs[i], ops[i])
  {
  }

  lemma JoinStepDropped(vs: seq<Vertex>, ops: seq<Trie>, x: VarId, v: Term,
                        keep: seq<nat>, vs': seq<Vertex>, ops': seq<Trie>, i: nat)
    requires JoinStep(vs, ops, x, v, keep, vs', ops') && i < |vs| && i !in keep
    requires Aligned(vs, ops) && Live(vs, ops)
    ensures vs[i].Operand? && RemoveFrom(vs[i].vars, x) == [] && vs[i].vars != []
    ensures Present(ops[i], PositionsOf(vs[i].vars, x), v)
    ensures ops[i].Valid() && ops[i].depth == |vs[i].vars|
  {
    assert AlignedAt(vs[i], ops[i]);
  }

  lemma StepFits(vs: seq<Vertex>, ops: seq<Trie>, x: VarId, m: Binding, i: nat)
    requires Aligned(vs, ops) && x in m && m.Keys == DataVars(vs) && i < |vs|
    ensures vs[i].Operand? ==> forall y :: y in vs[i].vars ==> y in m
    ensures FitsAt(VertexWithout(vs[i], x), SliceOrKeep(ops[i], OwnPositions(vs[i], x), m[x]), m - {x})
       <==> FitsAt(vs[i], ops[i], m)
  {
    AlignedHere(vs, ops, i);
    if vs[i].Operand? {
      SatKeys(vs, i);
    }
    FitsStep(vs[i], ops[i], x, m);
  }

  lemma SatStepForth(vs: seq<Vertex>, ops: seq<Trie>, x: VarId, m: Binding,
                     keep: seq<nat>, vs': seq<Vertex>, ops': seq<Trie>)
    requires Aligned(vs, ops) && x in m && SatJoin(vs, ops, m)
    requires JoinStep(vs, ops, x, m[x], keep, vs', ops')
    requires (m - {x}).Keys == DataVars(vs')
    ensures SatJoin(vs', ops', m - {x})
  {
    forall j: nat | j < |vs'|
      ensures vs'[j].Operand? ==> forall y :: y in vs'[j].vars ==> y in m - {x}
      ensures FitsAt(vs'[j], ops'[j], m - {x})
    {
      hide JoinStep, Aligned;
      JoinStepAt(vs, ops, x, m[x], keep, vs', ops', j);
      StepFits(vs, ops, x, m, keep[j]);
    }
  }

  lemma SatStepBack(vs: seq<Vertex>, ops: seq<Trie>, x: VarId, m: Binding,
                    keep: seq<nat>, vs': seq<Vertex>, ops': seq<Trie>)
    requires Aligned(vs, ops) && Live(vs, ops) && x in m && m.Keys == DataVars(vs)
    requires JoinStep(vs, ops, x, m[x], keep, vs', ops')
    requires SatJoin(vs', ops', m - {x})
    ensures SatJoin(vs, ops, m)
  {
    hide JoinStep, RemoveFrom, PositionsOf;
    forall i: nat | i < |vs|
      ensures vs[i].Operand? ==> forall y :: y in vs[i].vars ==> y in m
      ensures FitsAt(vs[i], ops[i], m)
    {
      if i in keep {
        var j :| 0 <= j < |keep| && keep[j] == i;
        JoinStepAt(vs, ops, x, m[x], keep, vs', ops', j);
        StepFits(vs, ops, x, m, i);
        assert FitsAt(vs'[j], ops'[j], m - {x});
      } else {
        JoinStepDropped(vs, ops, x, m[x], keep, vs', ops', i);
        FitsDropped(vs[i].vars, ops[i], x, m);
      }
    }
  }
}
