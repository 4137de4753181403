/**
 Operands: boolean hypertries as finite sets of rows of one depth, and what the
 hypertrie library's hash join promises about them.
 */
module Tries {
  import opened Reachability
  import opened Graphs

  type Row = seq<Term>

  datatype Trie = Trie(depth: nat, rows: set<Row>) {
    predicate Valid() {
      forall r :: r in rows ==> |r| == depth
    }
  }

  /** The scalar that stands for an expression or a pattern without variables that holds. */
  const TRUE_SCALAR := Trie(0, {[]})

  /** The positions of x among the variables of an operand. */
  function PositionsOf(vars: seq<VarId>, x: VarId): (ps: seq<nat>)
    ensures forall p: nat :: p in ps <==> p < |vars| && vars[p] == x
    ensures |vars| == |ps| + |RemoveFrom(vars, x)|
  {
    if vars == [] then []
    else PositionsOf(Init(vars), x) + (if Last(vars) == x then [|vars| - 1] else [])
  }

  /** A row without the listed positions, which are in increasing order. */
  function DropAt(r: Row, poss: seq<nat>): (s: Row) {
    if r == [] then []
    else if poss != [] && Last(poss) == |r| - 1 then DropAt(Init(r), Init(poss))
    else DropAt(Init(r), poss) + [Last(r)]
  }

  lemma DropSnoc(r: Row, y: Term, poss: seq<nat>)
    ensures DropAt(r + [y], poss + [|r|]) == DropAt(r, poss)
    ensures (forall p :: p in poss ==> p < |r|) ==> DropAt(r + [y], poss) == DropAt(r, poss) + [y]
  {
    assert Init(r + [y]) == r && Init(poss + [|r|]) == poss;
    assert poss != [] ==> Last(poss) in poss;
  }

  predicate RowHas(r: Row, poss: seq<nat>, v: Term) {
    forall p :: p in poss ==> p < |r| && r[p] == v
  }

  /** The rows that hold v at all the positions, with these positions dropped. */
  function SliceAt(t: Trie, poss: seq<nat>, v: Term): Trie {
    Trie(if t.depth < |poss| then 0 else t.depth - |poss|,
         set r | r in t.rows && RowHas(r, poss, v) :: DropAt(r, poss))
  }

  predicate Present(t: Trie, poss: seq<nat>, v: Term) {
    poss == [] || exists r :: r in t.rows && RowHas(r, poss, v)
  }

  /** The values at the first listed position of the operands that have one. */
  function Candidates(ops: seq<Trie>, poss: seq<seq<nat>>): set<Term>
    requires |ops| == |poss|
  {
    if ops == [] then {}
    else Candidates(Init(ops), Init(poss)) + FirstValues(Last(ops), Last(poss))
  }

  function FirstValues(t: Trie, poss: seq<nat>): set<Term> {
    set r | r in t.rows && poss != [] && poss[0] < |r| :: r[poss[0]]
  }

  predicate PresentInAll(ops: seq<Trie>, poss: seq<seq<nat>>, v: Term)
    requires |ops| == |poss|
  {
    forall j :: 0 <= j < |ops| ==> Present(ops[j], poss[j], v)
  }

  /** The values present at every listed position of every operand that has one. */
  function JoinKeys(ops: seq<Trie>, poss: seq<seq<nat>>): set<Term>
    requires |ops| == |poss|
  {
    set v | v in Candidates(ops, poss) && PresentInAll(ops, poss, v)
  }

  function SliceOrKeep(t: Trie, poss: seq<nat>, v: Term): Trie {
    if poss == [] then t else SliceAt(t, poss, v)
  }

  function AllSlices(ops: seq<Trie>, poss: seq<seq<nat>>, v: Term): (r: seq<Trie>)
    requires |ops| == |poss|
    ensures |r| == |ops|
    ensures forall i :: 0 <= i < |ops| ==> r[i] == SliceOrKeep(ops[i], poss[i], v)
  {
    if ops == [] then []
    else AllSlices(Init(ops), Init(poss), v) + [SliceOrKeep(Last(ops), Last(poss), v)]
  }

  /** The operands a join step keeps: those not taking part, and those left with a position. */
  function JoinKept(ops: seq<Trie>, poss: seq<seq<nat>>): (keep: seq<nat>)
    requires |ops| == |poss|
    ensures Indices(keep, |ops|) && Increasing(keep)
  {
    if ops == [] then []
    else
      var before := JoinKept(Init(ops), Init(poss));
      if Last(poss) == [] || Last(ops).depth > |Last(poss)| then
        KeptAppend(before, |ops| - 1); before + [|ops| - 1]
      else before
  }

  /** The operands after resolving the joined variable to v. */
  function JoinSlices(ops: seq<Trie>, poss: seq<seq<nat>>, v: Term): seq<Trie>
    requires |ops| == |poss|
  {
    Pick(AllSlices(ops, poss, v), JoinKept(ops, poss))
  }

  /** The positions of x in every operand; expressions have none. */
  function VarPositions(vs: seq<Vertex>, x: VarId): (r: seq<seq<nat>>)
    ensures |r| == |vs|
    ensures forall i :: 0 <= i < |vs| ==> r[i] == if vs[i].Operand? then PositionsOf(vs[i].vars, x) else []
  {
    if vs == [] then []
    else VarPositions(Init(vs), x) + [if Last(vs).Operand? then PositionsOf(Last(vs).vars, x) else []]
  }

  /* ---------- alignment ---------- */

  predicate AlignedAt(v: Vertex, t: Trie) {
    match v
    case Operand(vars, _) => t.depth == |vars| && t.Valid()
    case FilterVertex(_, _) => t == TRUE_SCALAR
  }

  /** One operand for each vertex, as deep as the vertex has variables. */
  ghost predicate Aligned(vs: seq<Vertex>, ops: seq<Trie>) {
    |vs| == |ops| && forall i :: 0 <= i < |vs| ==> AlignedAt(vs[i], ops[i])
  }

  /** Every operand has a row and a variable left. */
  ghost predicate Live(vs: seq<Vertex>, ops: seq<Trie>) {
    |vs| == |ops| && forall i :: 0 <= i < |vs| && vs[i].Operand? ==> ops[i].rows != {} && vs[i].vars != []
  }

  lemma PickAligned(vs: seq<Vertex>, ops: seq<Trie>, keep: seq<nat>)
    requires Aligned(vs, ops) && Indices(keep, |vs|)
    ensures Aligned(Pick(vs, keep), Pick(ops, keep))
  {
  }

  lemma PickLive(vs: seq<Vertex>, ops: seq<Trie>, keep: seq<nat>)
    requires Live(vs, ops) && Indices(keep, |vs|)
    ensures Live(Pick(vs, keep), Pick(ops, keep))
  {
  }

  /** An operand keeps a position after the join exactly when its vertex keeps a variable. */
  lemma KeepAgree(v: Vertex, t: Trie, x: VarId)
    requires AlignedAt(v, t) && (v.Operand? ==> v.vars != [])
    ensures var ps := if v.Operand? then PositionsOf(v.vars, x) else [];
            (ps == [] || t.depth > |ps|) <==> (v.FilterVertex? || RemoveFrom(v.vars, x) != [])
  {
  }

  lemma AlignedInit(vs: seq<Vertex>, ops: seq<Trie>)
    requires Aligned(vs, ops) && Live(vs, ops) && vs != []
    ensures Aligned(Init(vs), Init(ops)) && Live(Init(vs), Init(ops)) && AlignedAt(Last(vs), Last(ops))
    ensures Last(vs).Operand? ==> Last(vs).vars != []
  {
    assert forall i :: 0 <= i < |vs| - 1 ==> Init(vs)[i] == vs[i] && Init(ops)[i] == ops[i];
  }

  /** The join keeps exactly the operands whose vertices stay in the graph. */
  lemma {:induction false} KeptAgree(vs: seq<Vertex>, ops: seq<Trie>, x: VarId)
    requires Aligned(vs, ops) && Live(vs, ops)
    ensures JoinKept(ops, VarPositions(vs, x)) == Kept(vs, x)
  {
    if vs != [] {
      AlignedInit(vs, ops);
      KeptAgree(Init(vs), Init(ops), x);
      KeepAgree(Last(vs), Last(ops), x);
      var last := if Last(vs).Operand? then PositionsOf(Last(vs).vars, x) else [];
      var before := VarPositions(Init(vs), x);
      assert VarPositions(vs, x) == before + [last];
      assert Init(before + [last]) == before && Last(before + [last]) == last;
    }
  }

  /* ---------- rows and bindings ---------- */

  /** The row of an operand under a binding of its variables. */
  function RowOf(vars: seq<VarId>, m: Binding): (r: Row)
    requires forall x :: x in vars ==> x in m
    ensures |r| == |vars| && forall i :: 0 <= i < |vars| ==> r[i] == m[vars[i]]
  {
    if vars == [] then [] else RowOf(Init(vars), m) + [m[Last(vars)]]
  }

  lemma PositionsInit(vars: seq<VarId>, x: VarId, r: Row, v: Term)
    requires vars != [] && |r| == |vars| && RowHas(r, PositionsOf(vars, x), v)
    ensures RowHas(Init(r), PositionsOf(Init(vars), x), v)
    ensures Last(vars) == x ==> Last(r) == v
  {
    forall p | p in PositionsOf(Init(vars), x) ensures p < |Init(r)| && Init(r)[p] == v {
      assert p in PositionsOf(vars, x);
    }
    if Last(vars) == x {
      assert |vars| - 1 in PositionsOf(vars, x);
    }
  }

  lemma PositionsBelow(vars: seq<VarId>, x: VarId)
    ensures forall p :: p in PositionsOf(vars, x) ==> p < |vars|
  {
  }

  /** Erasing x and its positions, one variable at a time. */
  lemma DropStep(vars: seq<VarId>, x: VarId, r: Row)
    requires vars != [] && |r| == |vars|
    ensures DropAt(r, PositionsOf(vars, x)) ==
            DropAt(Init(r), PositionsOf(Init(vars), x)) + (if Last(vars) == x then [] else [Last(r)])
  {
    PositionsBelow(Init(vars), x);
    DropSnoc(Init(r), Last(r), PositionsOf(Init(vars), x));
    assert r == Init(r) + [Last(r)];
    if Last(vars) != x {
      assert PositionsOf(vars, x) == PositionsOf(Init(vars), x);
    }
  }

  /** The row of a binding holds the value of x at the positions of x. */
  lemma RowHasValue(vars: seq<VarId>, x: VarId, m: Binding)
    requires forall y :: y in vars ==> y in m
    ensures x in m ==> RowHas(RowOf(vars, m), PositionsOf(vars, x), m[x])
  {
  }

  /** Dropping the positions of x from a row mirrors erasing x from the variables. */
  lemma {:induction false} DropRow(vars: seq<VarId>, x: VarId, m: Binding)
    requires forall y :: y in vars ==> y in m
    ensures DropAt(RowOf(vars, m), PositionsOf(vars, x)) == RowOf(RemoveFrom(vars, x), m)
  {
    if vars != [] {
      var r := RowOf(vars, m);
      assert Init(r) == RowOf(Init(vars), m);
      DropRow(Init(vars), x, m);
      DropStep(vars, x, r);
      RowSnoc(RemoveFrom(Init(vars), x), Last(vars), m);
    }
  }

  lemma RowSnoc(vars: seq<VarId>, y: VarId, m: Binding)
    requires (forall z :: z in vars ==> z in m) && y in m
    ensures RowOf(vars + [y], m) == RowOf(vars, m) + [m[y]]
    ensures RowOf(vars + [], m) == RowOf(vars, m) + []
  {
    assert Init(vars + [y]) == vars;
    assert vars + [] == vars;
  }

  /** A row that holds v at the positions of x is determined by what is left after dropping them. */
  lemma {:induction false} DropInjective(vars: seq<VarId>, x: VarId, v: Term, r: Row, s: Row)
    requires |r| == |vars| == |s|
    requires RowHas(r, PositionsOf(vars, x), v) && RowHas(s, PositionsOf(vars, x), v)
    requires DropAt(r, PositionsOf(vars, x)) == DropAt(s, PositionsOf(vars, x))
    ensures r == s
  {
    if vars != [] {
      PositionsInit(vars, x, r, v);
      PositionsInit(vars, x, s, v);
      DropStep(vars, x, r);
      DropStep(vars, x, s);
      var r', s' := DropAt(Init(r), PositionsOf(Init(vars), x)), DropAt(Init(s), PositionsOf(Init(vars), x));
      if Last(vars) != x {
        SnocCancel(r', s', Last(r), Last(s));
      } else {
        assert r' + [] == r' && s' + [] == s';
      }
      DropInjective(Init(vars), x, v, Init(r), Init(s));
    }
  }

  lemma SnocCancel(a: Row, b: Row, x: Term, y: Term)
    ensures a + [x] == b + [y] ==> a == b && x == y
  {
    if a + [x] == b + [y] {
      assert Init(a + [x]) == a && Init(b + [y]) == b;
      assert Last(a + [x]) == x && Last(b + [y]) == y;
    }
  }

  lemma {:induction false} RowAgree(vars: seq<VarId>, m: Binding, m': Binding)
    requires forall y :: y in vars ==> y in m && y in m' && m[y] == m'[y]
    ensures RowOf(vars, m) == RowOf(vars, m')
  {
  }

  /** Slicing at the value of x selects the rows of the bindings with this value. */
  lemma SliceRow(t: Trie, vars: seq<VarId>, x: VarId, m: Binding)
    requires t.Valid() && t.depth == |vars|
    requires x in m && forall y :: y in vars ==> y in m
    ensures RowOf(RemoveFrom(vars, x), m) in SliceAt(t, PositionsOf(vars, x), m[x]).rows
       <==> RowOf(vars, m) in t.rows
  {
    var poss := PositionsOf(vars, x);
    DropRow(vars, x, m);
    RowHasValue(vars, x, m);
    if RowOf(RemoveFrom(vars, x), m) in SliceAt(t, poss, m[x]).rows {
      var r :| r in t.rows && RowHas(r, poss, m[x]) && DropAt(r, poss) == RowOf(RemoveFrom(vars, x), m);
      DropInjective(vars, x, m[x], r, RowOf(vars, m));
    }
  }

  lemma {:induction false} DropLength(vars: seq<VarId>, x: VarId, r: Row)
    requires |r| == |vars|
    ensures |DropAt(r, PositionsOf(vars, x))| == |RemoveFrom(vars, x)|
  {
    if vars != [] {
      DropStep(vars, x, r);
      DropLength(Init(vars), x, Init(r));
    }
  }

  lemma SliceAligned(t: Trie, vars: seq<VarId>, x: VarId, v: Term)
    requires t.Valid() && t.depth == |vars|
    ensures SliceAt(t, PositionsOf(vars, x), v).Valid()
    ensures SliceAt(t, PositionsOf(vars, x), v).depth == |RemoveFrom(vars, x)|
  {
    forall r | r in t.rows ensures |DropAt(r, PositionsOf(vars, x))| == |RemoveFrom(vars, x)| {
      DropLength(vars, x, r);
    }
  }

  lemma SliceNonEmpty(t: Trie, poss: seq<nat>, v: Term)
    requires Present(t, poss, v) && poss != []
    ensures SliceAt(t, poss, v).rows != {}
  {
    var r :| r in t.rows && RowHas(r, poss, v);
    assert DropAt(r, poss) in SliceAt(t, poss, v).rows;
  }

  lemma {:induction false} CandidatesHave(ops: seq<Trie>, poss: seq<seq<nat>>, v: Term, i: nat)
    requires |ops| == |poss| && i < |ops| && poss[i] != [] && Present(ops[i], poss[i], v)
    ensures v in Candidates(ops, poss)
  {
    if i < |ops| - 1 {
      CandidatesHave(Init(ops), Init(poss), v, i);
    } else {
      var r :| r in ops[i].rows && RowHas(r, poss[i], v);
      assert poss[i][0] in poss[i];
    }
  }

  lemma {:induction false} RemoveAbsent(vars: seq<VarId>, x: VarId)
    requires x !in vars
    ensures RemoveFrom(vars, x) == vars && PositionsOf(vars, x) == []
    decreases |vars|
  {
    if vars != [] {
      RemoveAbsent(Init(vars), x);
    }
  }

  function OwnPositions(u: Vertex, x: VarId): seq<nat> {
    if u.Operand? then PositionsOf(u.vars, x) else []
  }

  /** vs' and ops' are vs and ops after a join step that resolves x to v; keep lists what stays. */
  ghost predicate JoinStep(vs: seq<Vertex>, ops: seq<Trie>, x: VarId, v: Term,
                           keep: seq<nat>, vs': seq<Vertex>, ops': seq<Trie>)
  {
    && |vs| == |ops| && |keep| == |vs'| == |ops'|
    && Indices(keep, |vs|) && Increasing(keep)
    && (forall j :: 0 <= j < |keep| ==> vs'[j] == VertexWithout(vs[keep[j]], x))
    && (forall j :: 0 <= j < |keep| ==> ops'[j] == SliceOrKeep(ops[keep[j]], OwnPositions(vs[keep[j]], x), v))
    && (forall j :: 0 <= j < |keep| ==> vs[keep[j]].FilterVertex? || RemoveFrom(vs[keep[j]].vars, x) != [])
    && (forall i :: 0 <= i < |vs| && i !in keep ==> vs[i].Operand? && RemoveFrom(vs[i].vars, x) == [])
    && (forall i :: 0 <= i < |vs| ==> Present(ops[i], OwnPositions(vs[i], x), v))
  }

  /** What the hash join yields for a key is a join step, whose graph is the one without the variable. */
  lemma MakeJoinStep(vs: seq<Vertex>, ops: seq<Trie>, x: VarId, v: Term)
    requires Aligned(vs, ops) && Live(vs, ops)
    requires PresentInAll(ops, VarPositions(vs, x), v)
    ensures JoinStep(vs, ops, x, v, Kept(vs, x), VerticesWithout(Pick(vs, Kept(vs, x)), x),
                     JoinSlices(ops, VarPositions(vs, x), v))
  {
    var poss, keep := VarPositions(vs, x), Kept(vs, x);
    KeptAgree(vs, ops, x);
    assert forall i :: 0 <= i < |vs| ==> poss[i] == OwnPositions(vs[i], x);
    var vs', all := Pick(vs, keep), AllSlices(ops, poss, v);
    forall j | 0 <= j < |keep|
      ensures VerticesWithout(vs', x)[j] == VertexWithout(vs[keep[j]], x)
      ensures Pick(all, keep)[j] == SliceOrKeep(ops[keep[j]], OwnPositions(vs[keep[j]], x), v)
      ensures vs[keep[j]].FilterVertex? || RemoveFrom(vs[keep[j]].vars, x) != []
    {
      assert keep[j] in keep;
    }
  }

  /** After a join step the operands fit the vertices of the remaining graph. */
  lemma JoinStepAligned(vs: seq<Vertex>, ops: seq<Trie>, x: VarId, v: Term,
                        keep: seq<nat>, vs': seq<Vertex>, ops': seq<Trie>)
    requires Aligned(vs, ops) && Live(vs, ops)
    requires JoinStep(vs, ops, x, v, keep, vs', ops')
    ensures Aligned(vs', ops') && Live(vs', ops')
  {
    forall i | 0 <= i < |keep|
      ensures AlignedAt(vs'[i], ops'[i])
      ensures vs'[i].Operand? ==> ops'[i].rows != {} && vs'[i].vars != []
    {
      SliceStep(vs[keep[i]], ops[keep[i]], x, v, OwnPositions(vs[keep[i]], x));
    }
  }

  lemma SliceStep(u: Vertex, t: Trie, x: VarId, v: Term, poss: seq<nat>)
    requires AlignedAt(u, t) && (u.Operand? ==> t.rows != {})
    requires poss == OwnPositions(u, x)
    requires Present(t, poss, v)
    ensures AlignedAt(VertexWithout(u, x), SliceOrKeep(t, poss, v))
    ensures u.Operand? ==> SliceOrKeep(t, poss, v).rows != {}
  {
    if u.Operand? {
      if x in u.vars {
        var p :| 0 <= p < |u.vars| && u.vars[p] == x;
        assert p in poss;
        SliceAligned(t, u.vars, x, v);
        SliceNonEmpty(t, poss, v);
      } else {
        RemoveAbsent(u.vars, x);
      }
    }
  }
}
