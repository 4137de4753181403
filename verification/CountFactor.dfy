/**
 When the factor that counting out multiplies by is right: the operands are
 read at the numbers of the counted components, and repeated variables are not
 taken into account.
 */
module CountFactor {
  import opened Reachability
  import opened Graphs
  import opened Tries
  import opened Semantics
  import opened Projection
  import opened Counting
  import opened LeafProof
  import opened DependencyGraph
  import opened CartesianProof
  import opened CountElimination

  /** The number of solutions of the operands that are counted out. */
  function RemovedSolutions(vs: seq<Vertex>, ops: seq<Trie>, removed: seq<nat>): nat
    requires |vs| == |ops| && Indices(removed, |vs|)
  {
    |NaiveJoin(Pick(vs, removed), Pick(ops, removed))|
  }

  /** Operands with distinct variables, none of them shared. */
  ghost predicate Separate(vs: seq<Vertex>, removed: seq<nat>) {
    && Indices(removed, |vs|)
    && (forall i :: 0 <= i < |removed| ==> vs[removed[i]].Operand? && Distinct(vs[removed[i]].vars))
    && (forall i, j, x :: 0 <= i < j < |removed| && x in vs[removed[i]].vars ==> x !in vs[removed[j]].vars)
  }

  /* ---------- the number of solutions of separate operands ---------- */

  lemma JoinCard(a: set<Binding>, b: set<Binding>, ka: set<VarId>, kb: set<VarId>)
    requires ka !! kb
    requires forall n :: n in a ==> n.Keys == ka
    requires forall n :: n in b ==> n.Keys == kb
    ensures |Join(a, b)| == |a| * |b|
  {
    hide Join;
    var f := (m: Binding) => (Restrict(m, ka), Restrict(m, kb));
    var g := (p: (Binding, Binding)) => p.0 + p.1;
    forall m | m in Join(a, b) ensures f(m) in Pairs(a, b) && g(f(m)) == m {
      JoinIff(a, b, ka, kb, m);
      assert Restrict(m, ka) + Restrict(m, kb) == m;
    }
    forall p | p in Pairs(a, b) ensures g(p) in Join(a, b) && f(g(p)) == p {
      assert Restrict(p.0 + p.1, ka) == p.0;
      assert Restrict(p.0 + p.1, kb) == p.1;
      JoinIff(a, b, ka, kb, p.0 + p.1);
    }
    BijectionCard(Join(a, b), Pairs(a, b), f, g);
    ProductCard(a, b);
  }

  /** An operand with distinct variables has one mapping for each row. */
  lemma BindingsCard(vars: seq<VarId>, t: Trie)
    requires t.Valid() && t.depth == |vars| && Distinct(vars)
    ensures |OperandBindings(vars, t)| == |t.rows|
  {
    hide RowOf, RowBinding, OperandBindings;
    var f := (m: Binding) => RowOrNone(vars, m);
    var g := (r: Row) => BindingOrNone(vars, r);
    forall m | m in OperandBindings(vars, t) ensures f(m) in t.rows && g(f(m)) == m {
      OperandBindingsIff(vars, t, m);
      BindingOfRow(vars, m);
    }
    forall r | r in t.rows ensures g(r) in OperandBindings(vars, t) && f(g(r)) == r {
      RowOfBinding(vars, r);
      OperandBindingsIff(vars, t, RowBinding(vars, r));
    }
    BijectionCard(OperandBindings(vars, t), t.rows, f, g);
  }

  lemma SeparateInit(vs: seq<Vertex>, removed: seq<nat>)
    requires Separate(vs, removed) && removed != []
    ensures Separate(vs, Init(removed))
    ensures DataVars(Pick(vs, Init(removed))) !! Elements(vs[Last(removed)].vars)
  {
    hide DataVars;
    var before := Pick(vs, Init(removed));
    forall x | x in DataVars(before) ensures x !in Elements(vs[Last(removed)].vars) {
      var i :| 0 <= i < |before| && before[i].Operand? && x in before[i].vars;
      assert x in vs[removed[i]].vars;
    }
  }

  lemma {:induction false} SeparateSolutions(vs: seq<Vertex>, ops: seq<Trie>, removed: seq<nat>)
    requires Aligned(vs, ops) && |vs| == |ops| && Indices(removed, |vs|) && Separate(vs, removed)
    ensures Indices(removed, |ops|) && RemovedSolutions(vs, ops, removed) == SizeProduct(ops, removed)
  {
    if removed != [] {
      var before := Init(removed);
      SeparateInit(vs, removed);
      SeparateSolutions(vs, ops, before);
      SeparateStep(vs, ops, removed);
    }
  }

  lemma SeparateStep(vs: seq<Vertex>, ops: seq<Trie>, removed: seq<nat>)
    requires Aligned(vs, ops) && |vs| == |ops| && Separate(vs, removed) && removed != [] && Indices(removed, |vs|)
    ensures RemovedSolutions(vs, ops, removed) == RemovedSolutions(vs, ops, Init(removed)) * |ops[Last(removed)].rows|
  {
    hide DataVars, Separate, Distinct, OperandBindings, NaiveJoin;
    var before, u := Init(removed), Last(removed);
    SeparateLast(vs, removed);
    SeparateInit(vs, removed);
    var va, oa := Pick(vs, before), Pick(ops, before);
    NaiveJoinLast(va, oa, vs[u], ops[u]);
    forall n | n in NaiveJoin(va, oa) ensures n.Keys == DataVars(va) {
      NaiveJoinKeys(va, oa, n);
    }
    forall n | n in OperandBindings(vs[u].vars, ops[u]) ensures n.Keys == Elements(vs[u].vars) {
      OperandBindingsIff(vs[u].vars, ops[u], n);
    }
    JoinCard(NaiveJoin(va, oa), OperandBindings(vs[u].vars, ops[u]), DataVars(va), Elements(vs[u].vars));
    assert AlignedAt(vs[u], ops[u]);
    BindingsCard(vs[u].vars, ops[u]);
  }

  lemma SeparateLast(vs: seq<Vertex>, removed: seq<nat>)
    requires Separate(vs, removed) && removed != []
    ensures vs[Last(removed)].Operand? && Distinct(vs[Last(removed)].vars)
  {
  }

  lemma NaiveJoinLast(va: seq<Vertex>, oa: seq<Trie>, v: Vertex, t: Trie)
    requires |va| == |oa| && v.Operand?
    ensures NaiveJoin(va + [v], oa + [t]) == Join(NaiveJoin(va, oa), OperandBindings(v.vars, t))
  {
    assert Init(va + [v]) == va && Init(oa + [t]) == oa;
  }

  /* ---------- operands that tell the readings apart ---------- */

  function Zeros(n: nat): (r: Row)
    ensures |r| == n && forall i :: 0 <= i < n ==> r[i] == 0
  {
    seq(n, _ => 0)
  }

  /** Every operand holds the row of zeros; the one at q holds one more row. */
  function OneMore(vs: seq<Vertex>, q: nat, extra: Row): (ops: seq<Trie>)
    requires q < |vs|
    ensures |ops| == |vs|
    ensures forall i :: 0 <= i < |vs| && vs[i].FilterVertex? ==> ops[i] == TRUE_SCALAR
    ensures forall i :: 0 <= i < |vs| && vs[i].Operand? && i != q ==> ops[i] == Trie(|vs[i].vars|, {Zeros(|vs[i].vars|)})
    ensures vs[q].Operand? ==> ops[q] == Trie(|vs[q].vars|, {Zeros(|vs[q].vars|), extra})
  {
    seq(|vs|, i requires 0 <= i < |vs| =>
      if vs[i].FilterVertex? then TRUE_SCALAR
      else Trie(|vs[i].vars|, if i == q then {Zeros(|vs[i].vars|), extra} else {Zeros(|vs[i].vars|)}))
  }

  ghost predicate OperandsHaveVars(vs: seq<Vertex>) {
    forall i :: 0 <= i < |vs| && vs[i].Operand? ==> vs[i].vars != []
  }

  lemma OneMoreFits(vs: seq<Vertex>, q: nat, extra: Row)
    requires q < |vs| && vs[q].Operand? && |extra| == |vs[q].vars| && OperandsHaveVars(vs)
    ensures Aligned(vs, OneMore(vs, q, extra)) && Live(vs, OneMore(vs, q, extra))
    ensures forall i :: 0 <= i < |vs| && i != q ==> |OneMore(vs, q, extra)[i].rows| == 1
    ensures extra != Zeros(|extra|) ==> |OneMore(vs, q, extra)[q].rows| == 2
  {
  }

  lemma {:induction false} AllOnes(ops: seq<Trie>, positions: seq<nat>)
    requires Indices(positions, |ops|) && forall i :: 0 <= i < |positions| ==> |ops[positions[i]].rows| == 1
    ensures SizeProduct(ops, positions) == 1
  {
    if positions != [] {
      AllOnes(ops, Init(positions));
    }
  }

  lemma {:induction false} SomeTwo(ops: seq<Trie>, positions: seq<nat>, k: nat)
    requires Indices(positions, |ops|) && forall i :: 0 <= i < |positions| ==> |ops[positions[i]].rows| > 0
    requires k < |positions| && |ops[positions[k]].rows| >= 2
    ensures SizeProduct(ops, positions) >= 2
  {
    var rest, size := SizeProduct(ops, Init(positions)), |ops[Last(positions)].rows|;
    if k < |positions| - 1 {
      SomeTwo(ops, Init(positions), k);
      assert rest * size >= rest * 1;
    } else {
      SizePositive(ops, Init(positions));
      assert rest * size >= 1 * size;
    }
  }

  function ZeroBinding(d: set<VarId>): Binding {
    map x | x in d :: 0
  }

  function OneBinding(d: set<VarId>, ones: seq<VarId>): Binding {
    map x | x in d :: if x in ones then 1 else 0
  }

  function Ones(n: nat): (r: Row)
    ensures |r| == n && forall i :: 0 <= i < n ==> r[i] == 1
  {
    seq(n, _ => 1)
  }

  lemma ConstantRow(vars: seq<VarId>, m: Binding, v: Term)
    requires forall x :: x in vars ==> x in m && m[x] == v
    ensures v == 0 ==> RowOf(vars, m) == Zeros(|vars|)
    ensures v == 1 ==> RowOf(vars, m) == Ones(|vars|)
  {
  }

  ghost predicate NotShared(vs: seq<Vertex>, removed: seq<nat>, q: nat)
    requires Indices(removed, |vs|) && q < |vs|
  {
    forall j, x :: 0 <= j < |removed| && removed[j] != q && x in vs[removed[j]].vars ==> x !in vs[q].vars
  }

  lemma TwoSolutionsAt(vs: seq<Vertex>, removed: seq<nat>, q: nat, m: Binding)
    requires Indices(removed, |vs|) && q in removed && q < |vs|
    requires forall i :: 0 <= i < |removed| ==> vs[removed[i]].Operand?
    requires NotShared(vs, removed, q)
    requires var d := DataVars(Pick(vs, removed)); m == ZeroBinding(d) || m == OneBinding(d, vs[q].vars)
    ensures m in NaiveJoin(Pick(vs, removed), Pick(OneMore(vs, q, Ones(|vs[q].vars|)), removed))
  {
    hide DataVars, NaiveJoin;
    var ops := OneMore(vs, q, Ones(|vs[q].vars|));
    var vk, ok := Pick(vs, removed), Pick(ops, removed);
    forall i: nat | i < |vk|
      ensures vk[i].Operand? ==> forall x :: x in vk[i].vars ==> x in m
      ensures FitsAt(vk[i], ok[i], m)
    {
      SatKeys(vk, i);
      if removed[i] != q {
        assert forall x :: x in vk[i].vars ==> x !in vs[q].vars;
      }
      ConstantFits(vk[i], ok[i], DataVars(vk), vs[q].vars, removed[i] == q, m);
    }
    assert m.Keys == DataVars(vk);
    NaiveJoinIff(vk, ok, m);
  }

  lemma ConstantFits(v: Vertex, t: Trie, d: set<VarId>, ones: seq<VarId>, own: bool, m: Binding)
    requires v.Operand? && forall x :: x in v.vars ==> x in d
    requires m == ZeroBinding(d) || m == OneBinding(d, ones)
    requires if own then v.vars == ones else forall x :: x in v.vars ==> x !in ones
    requires t.rows == if own then {Zeros(|v.vars|), Ones(|v.vars|)} else {Zeros(|v.vars|)}
    ensures forall x :: x in v.vars ==> x in m
    ensures FitsAt(v, t, m)
  {
    if own && m == OneBinding(d, ones) {
      ConstantRow(v.vars, m, 1);
    } else {
      ConstantRow(v.vars, m, 0);
    }
  }

  /** With two rows for an operand that is counted, there are two solutions. */
  lemma TwoSolutions(vs: seq<Vertex>, removed: seq<nat>, q: nat)
    requires Indices(removed, |vs|) && q in removed && q < |vs| && vs[q].vars != []
    requires forall i :: 0 <= i < |removed| ==> vs[removed[i]].Operand?
    requires NotShared(vs, removed, q)
    ensures RemovedSolutions(vs, OneMore(vs, q, Ones(|vs[q].vars|)), removed) >= 2
  {
    hide NaiveJoin, DataVars;
    var d := DataVars(Pick(vs, removed));
    var a, b := ZeroBinding(d), OneBinding(d, vs[q].vars);
    TwoSolutionsAt(vs, removed, q, a);
    TwoSolutionsAt(vs, removed, q, b);
    PickedVar(vs, removed, q, vs[q].vars[0]);
    assert a[vs[q].vars[0]] != b[vs[q].vars[0]];
    SubsetCard({a, b}, NaiveJoin(Pick(vs, removed), Pick(OneMore(vs, q, Ones(|vs[q].vars|)), removed)));
  }

  lemma OffDiagonalAt(vars: seq<VarId>, a: nat, b: nat, m: Binding)
    requires a < b < |vars| && vars[a] == vars[b] && forall x :: x in vars ==> x in m
    ensures RowOf(vars, m) != Zeros(|vars|)[b := 1]
  {
    assert RowOf(vars, m)[a] == RowOf(vars, m)[b];
  }

  /** A row that gives a repeated variable two values is no solution. */
  lemma OffDiagonalSolutions(vs: seq<Vertex>, removed: seq<nat>, q: nat, a: nat, b: nat)
    requires Indices(removed, |vs|) && q in removed && q < |vs|
    requires forall i :: 0 <= i < |removed| ==> vs[removed[i]].Operand?
    requires a < b < |vs[q].vars| && vs[q].vars[a] == vs[q].vars[b]
    ensures RemovedSolutions(vs, OneMore(vs, q, Zeros(|vs[q].vars|)[b := 1]), removed) <= 1
  {
    hide NaiveJoin, DataVars;
    var ops := OneMore(vs, q, Zeros(|vs[q].vars|)[b := 1]);
    var vk, ok := Pick(vs, removed), Pick(ops, removed);
    forall m | m in NaiveJoin(vk, ok) ensures m == ZeroBinding(DataVars(vk)) {
      OffDiagonalOnly(vs, removed, q, a, b, m);
    }
    SubsetCard(NaiveJoin(vk, ok), {ZeroBinding(DataVars(vk))});
  }

  lemma OffDiagonalOnly(vs: seq<Vertex>, removed: seq<nat>, q: nat, a: nat, b: nat, m: Binding)
    requires Indices(removed, |vs|) && q < |vs| && vs[q].Operand?
    requires forall i :: 0 <= i < |removed| ==> vs[removed[i]].Operand?
    requires a < b < |vs[q].vars| && vs[q].vars[a] == vs[q].vars[b]
    requires m in NaiveJoin(Pick(vs, removed), Pick(OneMore(vs, q, Zeros(|vs[q].vars|)[b := 1]), removed))
    ensures m == ZeroBinding(DataVars(Pick(vs, removed)))
  {
    hide NaiveJoin, DataVars, FitsAt;
    var ops := OneMore(vs, q, Zeros(|vs[q].vars|)[b := 1]);
    var vk, ok := Pick(vs, removed), Pick(ops, removed);
    NaiveJoinIff(vk, ok, m);
    forall x | x in DataVars(vk) ensures m[x] == 0 {
      var i :| 0 <= i < |vk| && vk[i].Operand? && x in vk[i].vars;
      SatKeys(vk, i);
      assert FitsAt(vk[i], ok[i], m);
      OffDiagonalZero(vk[i], ok[i], removed[i] == q, a, b, m, x);
    }
  }

  lemma OffDiagonalZero(v: Vertex, t: Trie, own: bool, a: nat, b: nat, m: Binding, x: VarId)
    requires v.Operand? && x in v.vars && forall y :: y in v.vars ==> y in m
    requires own ==> a < b < |v.vars| && v.vars[a] == v.vars[b]
    requires t.rows == if own then {Zeros(|v.vars|), Zeros(|v.vars|)[b := 1]} else {Zeros(|v.vars|)}
    requires FitsAt(v, t, m)
    ensures m[x] == 0
  {
    var p :| 0 <= p < |v.vars| && v.vars[p] == x;
    if own {
      OffDiagonalAt(v.vars, a, b, m);
    }
    assert RowOf(v.vars, m)[p] == m[x];
  }

  /* ---------- the factor as written ---------- */

  /** The factor as written is the number of solutions counted out, whatever the operands hold. */
  ghost predicate FactorRight(g: Graph, tracked: seq<VarId>)
    requires Indices(CountedOut(g, tracked), |g.vertices|) && Indices(CountedPositions(g, tracked), |g.vertices|)
  {
    forall ops: seq<Trie> :: Aligned(g.vertices, ops) && Live(g.vertices, ops) ==>
      |ops| == |g.vertices|
      && SizeProduct(ops, CountedPositions(g, tracked)) == RemovedSolutions(g.vertices, ops, CountedOut(g, tracked))
  }

  /** Every counted component has the number of its vertex, and its operand repeats no variable. */
  ghost predicate NumbersAreVertices(g: Graph, tracked: seq<VarId>)
    requires Indices(CountedOut(g, tracked), |g.vertices|)
  {
    && CountedPositions(g, tracked) == CountedOut(g, tracked)
    && forall i :: 0 <= i < |CountedOut(g, tracked)| ==> Distinct(g.vertices[CountedOut(g, tracked)[i]].vars)
  }

  lemma BothIndices(g: Graph, tracked: seq<VarId>)
    ensures Indices(CountedOut(g, tracked), |g.vertices|) && Indices(CountedPositions(g, tracked), |g.vertices|)
    ensures |CountedOut(g, tracked)| == |CountedPositions(g, tracked)|
  {
    SizedIndices(g, tracked, ByComponent);
    forall i | 0 <= i < |CountedOut(g, tracked)| ensures CountedOut(g, tracked)[i] < |g.vertices| {
      CountedAlone(g, tracked, i);
    }
  }

  lemma CountedSeparate(g: Graph, tracked: seq<VarId>)
    requires Plain(g) && Clique(g) && NoReadyFilter(g.vertices)
    requires Indices(CountedOut(g, tracked), |g.vertices|)
    requires forall i :: 0 <= i < |CountedOut(g, tracked)| ==> Distinct(g.vertices[CountedOut(g, tracked)[i]].vars)
    ensures Separate(g.vertices, CountedOut(g, tracked))
  {
    hide Plain, Clique, CountedOut, NoReadyFilter, Distinct;
    var removed := CountedOut(g, tracked);
    forall i | 0 <= i < |removed| ensures g.vertices[removed[i]].Operand? {
      CountedOperand(g, tracked, i);
    }
    forall i, j, x | 0 <= i < j < |removed| && x in g.vertices[removed[i]].vars ensures x !in g.vertices[removed[j]].vars {
      CountedDistinct(g, tracked, i, j);
      CountedShares(g, tracked, i, removed[j], x);
    }
  }

  /** A component's number is at most its first vertex. */
  lemma NumberBelow(g: Graph, tracked: seq<VarId>, i: nat)
    requires i < |CountedOut(g, tracked)| && |CountedOut(g, tracked)| == |CountedPositions(g, tracked)|
    ensures CountedPositions(g, tracked)[i] <= CountedOut(g, tracked)[i]
  {
    var es, n := CartesianArcs(g, Elements(Range(|g.vertices|))), |g.vertices|;
    var p := CountedPositions(g, tracked)[i];
    PositionShape(g.vertices, CartesianParts(g), tracked, i);
    var r := ComponentFirst(es, n, n, p);
    ComponentsFew(es, n, r);
    var u := CountedOut(g, tracked)[i];
    assert u in CartesianParts(g)[p];
    assert Connected(es, r, u);
  }

  /** If some number is not its vertex, some counted vertex is not read at all. */
  lemma SkippedVertex(g: Graph, tracked: seq<VarId>) returns (i: nat)
    requires Indices(CountedOut(g, tracked), |g.vertices|) && CountedPositions(g, tracked) != CountedOut(g, tracked)
    requires |CountedOut(g, tracked)| == |CountedPositions(g, tracked)|
    ensures i < |CountedOut(g, tracked)| && CountedOut(g, tracked)[i] !in CountedPositions(g, tracked)
  {
    hide CountedOut, CountedPositions;
    var us, ps := CountedOut(g, tracked), CountedPositions(g, tracked);
    var k :| 0 <= k < |us| && us[k] != ps[k];
    i := |us| - 1;
    while us[i] == ps[i]
      invariant k <= i < |us| && forall j :: i < j < |us| ==> us[j] == ps[j]
      decreases i
    {
      i := i - 1;
    }
    NumberBelow(g, tracked, i);
    forall j: nat | j < |ps| ensures ps[j] != us[i] {
      if j > i {
        CountedDistinct(g, tracked, i, j);
      }
    }
  }

  lemma CountedNotShared(g: Graph, tracked: seq<VarId>, i: nat)
    requires Plain(g) && Clique(g) && Indices(CountedOut(g, tracked), |g.vertices|) && i < |CountedOut(g, tracked)|
    ensures NotShared(g.vertices, CountedOut(g, tracked), CountedOut(g, tracked)[i])
  {
    hide Plain, Clique, CountedOut;
    var removed := CountedOut(g, tracked);
    forall j, x | 0 <= j < |removed| && removed[j] != removed[i] && x in g.vertices[removed[j]].vars
      ensures x !in g.vertices[removed[i]].vars
    {
      CountedShares(g, tracked, i, removed[j], x);
    }
  }

  lemma SkippedWrong(g: Graph, tracked: seq<VarId>)
    requires Plain(g) && Clique(g) && NoReadyFilter(g.vertices) && OperandsHaveVars(g.vertices)
    requires Indices(CountedOut(g, tracked), |g.vertices|) && Indices(CountedPositions(g, tracked), |g.vertices|)
    requires CountedPositions(g, tracked) != CountedOut(g, tracked)
    requires |CountedOut(g, tracked)| == |CountedPositions(g, tracked)|
    ensures !FactorRight(g, tracked)
  {
    hide Plain, Clique, CountedOut, CountedPositions, NoReadyFilter, SizeProduct, RemovedSolutions, Aligned, Live, NotShared;
    var removed := CountedOut(g, tracked);
    var i := SkippedVertex(g, tracked);
    var q := removed[i];
    forall j | 0 <= j < |removed| ensures g.vertices[removed[j]].Operand? {
      CountedOperand(g, tracked, j);
    }
    var ops := OneMore(g.vertices, q, Ones(|g.vertices[q].vars|));
    OneMoreFits(g.vertices, q, Ones(|g.vertices[q].vars|));
    AllOnes(ops, CountedPositions(g, tracked));
    CountedNotShared(g, tracked, i);
    TwoSolutions(g.vertices, removed, q);
  }

  lemma RepeatWrong(g: Graph, tracked: seq<VarId>, i: nat)
    requires Plain(g) && Clique(g) && NoReadyFilter(g.vertices) && OperandsHaveVars(g.vertices)
    requires Indices(CountedOut(g, tracked), |g.vertices|) && Indices(CountedPositions(g, tracked), |g.vertices|)
    requires CountedPositions(g, tracked) == CountedOut(g, tracked)
    requires i < |CountedOut(g, tracked)| && !Distinct(g.vertices[CountedOut(g, tracked)[i]].vars)
    ensures !FactorRight(g, tracked)
  {
    hide Plain, Clique, CountedOut, CountedPositions, NoReadyFilter, SizeProduct, RemovedSolutions, Live;
    var removed := CountedOut(g, tracked);
    var q := removed[i];
    forall j | 0 <= j < |removed| ensures g.vertices[removed[j]].Operand? {
      CountedOperand(g, tracked, j);
    }
    var vars := g.vertices[q].vars;
    var a, b :| 0 <= a < b < |vars| && vars[a] == vars[b];
    var extra := Zeros(|vars|)[b := 1];
    assert extra[b] != Zeros(|vars|)[b];
    OneMoreFits(g.vertices, q, extra);
    var ops := OneMore(g.vertices, q, extra);
    SomeTwo(ops, removed, i);
    OffDiagonalSolutions(g.vertices, removed, q, a, b);
  }

  /**
   The factor as written is right for all contents of the operands exactly when
   every counted component has the number of its vertex and no counted operand
   repeats a variable.
   */
  lemma FactorExactly(g: Graph, tracked: seq<VarId>)
    requires Plain(g) && Clique(g) && NoReadyFilter(g.vertices) && OperandsHaveVars(g.vertices)
    ensures Indices(CountedOut(g, tracked), |g.vertices|) && Indices(CountedPositions(g, tracked), |g.vertices|)
    ensures FactorRight(g, tracked) <==> NumbersAreVertices(g, tracked)
  {
    hide Plain, Clique, CountedOut, CountedPositions, NoReadyFilter, SizeProduct, RemovedSolutions, Aligned, Live, Distinct, OperandsHaveVars, FactorRight;
    BothIndices(g, tracked);
    if NumbersAreVertices(g, tracked) {
      CountedSeparate(g, tracked);
      FactorHolds(g, tracked);
    } else if CountedPositions(g, tracked) != CountedOut(g, tracked) {
      SkippedWrong(g, tracked);
    } else {
      var i :| 0 <= i < |CountedOut(g, tracked)| && !Distinct(g.vertices[CountedOut(g, tracked)[i]].vars);
      RepeatWrong(g, tracked, i);
    }
  }

  lemma FactorHolds(g: Graph, tracked: seq<VarId>)
    requires Indices(CountedOut(g, tracked), |g.vertices|) && Indices(CountedPositions(g, tracked), |g.vertices|)
    requires CountedPositions(g, tracked) == CountedOut(g, tracked) && Separate(g.vertices, CountedOut(g, tracked))
    ensures FactorRight(g, tracked)
  {
    hide CountedOut, CountedPositions, SizeProduct, RemovedSolutions, Separate;
    forall ops: seq<Trie> | Aligned(g.vertices, ops) && Live(g.vertices, ops)
      ensures |ops| == |g.vertices|
      ensures SizeProduct(ops, CountedPositions(g, tracked)) == RemovedSolutions(g.vertices, ops, CountedOut(g, tracked))
    {
      SeparateSolutions(g.vertices, ops, CountedOut(g, tracked));
    }
  }

  /* ---------- a graph on which it is wrong ---------- */

  /** Two patterns over variable 1 and one over variable 2. */
  function TwoAndOne(): Graph {
    Graph([Operand([1], []), Operand([1], []), Operand([2], [])],
          {Edge(0, 1, 1, false), Edge(1, 0, 1, false), Edge(0, 2, NO_VAR, false), Edge(2, 0, NO_VAR, false),
           Edge(1, 2, NO_VAR, false), Edge(2, 1, NO_VAR, false)})
  }

  lemma TwoAndOneAdj(u: nat, v: nat)
    ensures Adj(TwoAndOne(), u, v) <==> u < 3 && v < 3 && u != v
  {
    var es := TwoAndOne().edges;
    var x := if u + v == 1 then 1 else NO_VAR;
    if u < 3 && v < 3 && u != v {
      var e := Edge(u, v, x, false);
      assert e in es;
      assert (e.src, e.dst) in ArcsOf(es);
    }
  }

  lemma TwoAndOnePlain()
    ensures Plain(TwoAndOne()) && Clique(TwoAndOne()) && OperandsHaveVars(TwoAndOne().vertices)
    ensures NoReadyFilter(TwoAndOne().vertices)
  {
    var g := TwoAndOne();
    assert WellFormed(g) && Mandatory(g) && ProperVars(g.vertices);
    hide ArcsOf, Adj, TwoAndOne;
    forall u: nat, v: nat ensures Adj(g, u, v) <==> u < 3 && v < 3 && u != v { TwoAndOneAdj(u, v); }
    assert Cliques(g);
    TwoAndOneLabels();
    assert |g.vertices| == 3 by { TwoAndOneSize(); }
  }

  lemma TwoAndOneSize()
    ensures |TwoAndOne().vertices| == 3 && OperandsHaveVars(TwoAndOne().vertices) && NoReadyFilter(TwoAndOne().vertices)
  {
  }

  lemma TwoAndOneLabels()
    ensures LabelsExact(TwoAndOne())
  {
    var g := TwoAndOne();
    forall u: nat, v: nat, x: VarId | Adj(g, u, v) && SharedVar(g, u, v, x) ensures Edge(u, v, x, false) in g.edges {
      TwoAndOneAdj(u, v);
    }
  }

  lemma TwoAndOneArcs()
    ensures CartesianArcs(TwoAndOne(), Elements(Range(3))) == {(0, 1), (1, 0), (0, 0), (1, 1), (2, 2)}
  {
    hide CartesianArcs;
    var es := CartesianArcs(TwoAndOne(), Elements(Range(3)));
    forall e: (nat, nat) ensures e in es <==> e in {(0, 1), (1, 0), (0, 0), (1, 1), (2, 2)} {
      TwoAndOneArc(e.0, e.1);
    }
  }

  lemma TwoAndOneArc(a: nat, b: nat)
    ensures (a, b) in CartesianArcs(TwoAndOne(), Elements(Range(3))) <==> a < 3 && b < 3 && (a == b || a + b == 1)
  {
    hide Adj;
    var g, isc := TwoAndOne(), Elements(Range(3));
    TwoAndOneAdj(a, b);
    assert forall v: nat :: v in isc <==> v < 3;
    if a + b == 1 {
      var e := Edge(a, b, 1, false);
      assert e in g.edges && (e.src, e.dst) == (a, b) && e.varId != NO_VAR;
    }
  }

  lemma TwoAndOneComponents()
    ensures CartesianParts(TwoAndOne()) == [[0, 1], [2]]
  {
    hide CartesianArcs, TwoAndOne;
    TwoAndOneSize();
    TwoAndOneArcs();
    var es := CartesianArcs(TwoAndOne(), Elements(Range(3)));
    PairComponents(es);
  }

  lemma PairComponents(es: Arcs)
    requires es == {(0, 1), (1, 0), (0, 0), (1, 1), (2, 2)}
    ensures Components(es, 3) == [[0, 1], [2]]
  {
    hide Connected;
    forall v: nat ensures Connected(es, 2, v) <==> v == 2 { PairConnected(es, 2, v); }
    forall v: nat ensures Connected(es, 1, v) <==> v < 2 { PairConnected(es, 1, v); }
    forall v: nat ensures Connected(es, 0, v) <==> v < 2 { PairConnected(es, 0, v); }
    assert Connected(es, 1, 0) && !Connected(es, 2, 0) && !Connected(es, 2, 1);
    IncreasingUnique(ComponentOf(es, 3, 0), [0, 1]);
    IncreasingUnique(ComponentOf(es, 3, 2), [2]);
    assert ComponentsBelow(es, 3, 1) == [[0, 1]];
    assert ComponentsBelow(es, 3, 2) == [[0, 1]];
  }

  lemma PairConnected(es: Arcs, u: nat, v: nat)
    requires es == {(0, 1), (1, 0), (0, 0), (1, 1), (2, 2)} && u < 3
    ensures Connected(es, u, v) <==> if u == 2 then v == 2 else v < 2
  {
    var side: set<nat> := if u == 2 then {2} else {0, 1};
    if Connected(es, u, v) {
      ClosedReach(Undirected(es), side, u, v);
    }
    if v in side {
      ReachArc(Undirected(es), u, v);
    }
  }

  /** The pattern over variable 2 has two solutions, and the factor as written is one. */
  lemma FactorWrong()
    ensures var g, ops := TwoAndOne(), [Trie(1, {[0]}), Trie(1, {[0]}), Trie(1, {[0], [1]})];
            && Plain(g) && Clique(g) && Aligned(g.vertices, ops) && Live(g.vertices, ops)
            && CountedPositions(g, [1]) == [1] && CountedOut(g, [1]) == [2]
            && SizeProduct(ops, [1]) == 1 && RemovedSolutions(g.vertices, ops, [2]) == 2
  {
    hide CartesianParts, Plain, Clique, NaiveJoin;
    TwoAndOnePlain();
    TwoAndOneComponents();
    TwoAndOneCounted();
    TwoAndOneSolutions();
  }

  lemma TwoAndOneCounted()
    requires CartesianParts(TwoAndOne()) == [[0, 1], [2]]
    ensures CountedPositions(TwoAndOne(), [1]) == [1] && CountedOut(TwoAndOne(), [1]) == [2]
  {
    hide CartesianParts, IsCount, TwoAndOne;
    var vs := TwoAndOne().vertices;
    TwoAndOneCount();
    assert Init([[0, 1], [2]]) == [[0, 1]] && Init([[0, 1]]) == [];
    assert CountPositions(vs, [], [1]) == [];
    assert CountPositions(vs, [[0, 1]], [1]) == [];
    assert CountPositions(vs, [[0, 1], [2]], [1]) == [1];
    assert Init([1]) == [];
    assert FirstVertices([[0, 1], [2]], []) == [];
    assert FirstVertices([[0, 1], [2]], [1]) == [2];
  }

  lemma TwoAndOneCount()
    ensures IsCount(TwoAndOne().vertices, [2], [1]) && !IsCount(TwoAndOne().vertices, [0, 1], [1])
  {
    var vs := TwoAndOne().vertices;
    assert Pick(vs, [2]) == [vs[2]];
    SingleVars(vs[2]);
  }

  lemma TwoAndOneSolutions()
    ensures var vs, ops := TwoAndOne().vertices, [Trie(1, {[0]}), Trie(1, {[0]}), Trie(1, {[0], [1]})];
            && Aligned(vs, ops) && Live(vs, ops)
            && SizeProduct(ops, [1]) == 1 && RemovedSolutions(vs, ops, [2]) == 2
  {
    var vs, ops := TwoAndOne().vertices, [Trie(1, {[0]}), Trie(1, {[0]}), Trie(1, {[0], [1]})];
    TwoAndOneFits(vs, ops);
    hide NaiveJoin, TwoAndOne, Aligned, Live, Separate;
    SeparateSolutions(vs, ops, [2]);
    hide RemovedSolutions;
    OneSize(ops, 1);
    OneSize(ops, 2);
    TwoRows();
  }

  lemma OneSize(ops: seq<Trie>, p: nat)
    requires p < |ops|
    ensures SizeProduct(ops, [p]) == |ops[p].rows|
  {
    assert Init([p]) == [];
    assert SizeProduct(ops, []) == 1;
  }

  lemma TwoRows()
    ensures var one: set<Row> := {[0]}; |one| == 1
    ensures var two: set<Row> := {[0], [1]}; |two| == 2
  {
    assert [0] != [1] by { assert [0][0] != [1][0]; }
  }

  lemma TwoAndOneFits(vs: seq<Vertex>, ops: seq<Trie>)
    requires vs == TwoAndOne().vertices && ops == [Trie(1, {[0]}), Trie(1, {[0]}), Trie(1, {[0], [1]})]
    ensures |vs| == 3 && Aligned(vs, ops) && Live(vs, ops) && Separate(vs, [2])
  {
    hide Distinct;
    assert Distinct([1]) && Distinct([2]) by { LoneDistinct(1); LoneDistinct(2); }
  }

  lemma LoneDistinct(x: VarId)
    ensures Distinct([x])
  {
  }
}
