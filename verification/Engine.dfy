/**
 The evaluation of an operand dependency graph: one operator is chosen, takes
 one step, and hands smaller graphs to further operators. A generator is
 modelled by the sequence of the entries it yields.
 */
module Engine {
  import opened Reachability
  import opened Graphs
  import opened Tries
  import opened Semantics
  import opened Projection
  import opened JoinProof
  import opened ProductProof
  import opened LeafProof
  import opened DependencyGraph
  import opened EngineFacts
  import opened EngineSteps
  import opened CartesianProof
  import opened CountElimination
  import opened Entries
  import opened Odometer
  import opened CartesianResult
  import opened ProductSteps
  import opened ProductEmission
  import opened ProductResults
  import opened Counting

  datatype Operation = Join | LeftJoin | Resolve | Count | Cartesian | Union | Filter | FilterAlt | EntryGenerator

  /** What an operator may assume of its arguments. */
  ghost predicate Ready(g: Graph, ops: seq<Trie>, tracked: seq<VarId>, mode: CountIndex, key: Key) {
    && Evaluable(g, ops, tracked) && |g.vertices| == |ops| && |key| == |tracked|
    && (mode.ByComponent? ==> DataVars(g.vertices) <= Elements(tracked))
  }

  /* ---------- the choice of the operator ---------- */

  /** The variables of the operands in the independent strong component. */
  function NonOptionalVars(g: Graph, isc: seq<nat>): set<VarId>
    requires Indices(isc, |g.vertices|)
  {
    DataVars(Pick(g.vertices, isc))
  }

  ghost function IscSet(g: Graph): (s: set<nat>)
    ensures forall v: nat :: v in s <==> InIsc(g, v)
  {
    set v | v in Below(|g.vertices|) && InIsc(g, v)
  }

  /** Some filter of the independent strong component can be evaluated. */
  ghost predicate SomeReady(g: Graph) {
    exists p: nat :: InIsc(g, p) && ReadyFilter(g.vertices[p], DataVars(g.vertices))
  }

  /** A lone operand without a repeated variable is counted or resolved if its variables are all untracked or all tracked. */
  ghost function SingleChoice(v: Vertex, tracked: seq<VarId>): Operation {
    if v.FilterVertex? then Operation.Filter
    else if Distinct(v.vars) && Elements(v.vars) !! Elements(tracked) then Count
    else if Distinct(v.vars) && Elements(v.vars) <= Elements(tracked) then Resolve
    else Join
  }

  /** The one operator that is right for several vertices of one union component. */
  ghost predicate SeveralChoice(g: Graph, op: Operation) {
    if SomeReady(g) then op.Filter?
    else if |Components(CartesianArcs(g, IscSet(g)), |g.vertices|)| > 1 then op.Cartesian?
    else if forall v: nat :: v < |g.vertices| ==> InIsc(g, v) then op.Join?
    else if exists v: nat :: InIsc(g, v) && g.vertices[v].Operand? && g.vertices[v].vars != [] then op.LeftJoin?
    else op.FilterAlt?
  }

  /** The one operator that is right for a graph. */
  ghost predicate RightChoice(g: Graph, tracked: seq<VarId>, op: Operation) {
    if g.vertices == [] then op.EntryGenerator?
    else if |g.vertices| == 1 then op == SingleChoice(g.vertices[0], tracked)
    else if |UnionParts(g)| > 1 then op.Union?
    else SeveralChoice(g, op)
  }

  /** The choice for a single vertex. */
  method NextOpSingle(v: Vertex, tracked: seq<VarId>) returns (op: Operation)
    ensures op == SingleChoice(v, tracked)
  {
    if v.FilterVertex? {
      return Operation.Filter;
    }
    var vars := DataVars([v]);
    SingleVars(v);
    DistinctSize(v.vars);
    if |vars| == |v.vars| {
      AllDifferent(v.vars);
      if forall x :: x in vars ==> x !in tracked {
        return Count;
      }
      if forall x :: x in vars ==> x in tracked {
        return Resolve;
      }
    }
    return Join;
  }

  /** The choice among several vertices of one union component. */
  method NextOpSeveral(g: Graph) returns (op: Operation)
    requires WellFormed(g)
    ensures SeveralChoice(g, op)
    ensures op.Filter? || op.Cartesian? || op.FilterAlt? || op.LeftJoin? || op.Join?
    ensures op.Filter? <==> SomeReady(g)
    ensures op.Cartesian? ==> |Components(CartesianArcs(g, IscSet(g)), |g.vertices|)| > 1
    ensures op.LeftJoin? || op.FilterAlt? ==> exists v: nat :: v < |g.vertices| && !InIsc(g, v)
    ensures op.Join? ==> forall v: nat :: v < |g.vertices| ==> InIsc(g, v)
    ensures op.FilterAlt? ==> forall v: nat :: InIsc(g, v) && g.vertices[v].Operand? ==> g.vertices[v].vars == []
  {
    hide DataVars, IscSet;
    var isc := IscOperands(g);
    assert forall i :: 0 <= i < |isc| ==> isc[i] in isc;
    var filters := FiltersForEvaluation(g, isc);
    if filters != [] {
      assert filters[0] in filters;
      ReadyMeans(g.vertices[filters[0]], DataVars(g.vertices));
      return Operation.Filter;
    }
    forall p: nat | InIsc(g, p) ensures !ReadyFilter(g.vertices[p], DataVars(g.vertices)) {
      ReadyMeans(g.vertices[p], DataVars(g.vertices));
      assert p !in filters;
    }
    var cartesianParts := CartesianComponents(g, isc);
    assert Elements(isc) == IscSet(g);
    if |cartesianParts| > 1 {
      return Cartesian;
    }
    if |isc| < |g.vertices| {
      IscMisses(isc, |g.vertices|);
      if NonOptionalVars(g, isc) == {} {
        NoOptionalVars(g, isc);
        return FilterAlt;
      }
      SomeOptionalVar(g, isc);
      return LeftJoin;
    }
    IscFull(isc, |g.vertices|);
    return Join;
  }

  lemma NoOptionalVars(g: Graph, isc: seq<nat>)
    requires Indices(isc, |g.vertices|) && NonOptionalVars(g, isc) == {}
    ensures forall v: nat :: v in isc && g.vertices[v].Operand? ==> g.vertices[v].vars == []
  {
    forall v: nat | v in isc && g.vertices[v].Operand? ensures g.vertices[v].vars == [] {
      if g.vertices[v].vars != [] {
        PickedVar(g.vertices, isc, v, g.vertices[v].vars[0]);
      }
    }
  }

  lemma SomeOptionalVar(g: Graph, isc: seq<nat>)
    requires Indices(isc, |g.vertices|) && NonOptionalVars(g, isc) != {}
    ensures exists v: nat :: v in isc && v < |g.vertices| && g.vertices[v].Operand? && g.vertices[v].vars != []
  {
    var x :| x in NonOptionalVars(g, isc);
    var i :| 0 <= i < |isc| && Pick(g.vertices, isc)[i].Operand? && x in Pick(g.vertices, isc)[i].vars;
    assert isc[i] in isc;
  }

  lemma IscFull(isc: seq<nat>, n: nat)
    requires Increasing(isc) && Indices(isc, n) && |isc| >= n
    ensures forall v: nat :: v < n ==> v in isc
  {
    IncreasingShort(isc, n);
    IncreasingFull(isc, n);
  }

  lemma ReadyMeans(v: Vertex, data: set<VarId>)
    ensures ReadyFilter(v, data) <==> v.FilterVertex? && OnlyInFilters(v, data)
  {
    assert forall x :: x in v.vars <==> x in Elements(v.vars);
  }

  /** The operator for a graph. */
  method NextOp(g: Graph, tracked: seq<VarId>) returns (op: Operation)
    requires WellFormed(g)
    ensures RightChoice(g, tracked, op)
    ensures op.EntryGenerator? <==> g.vertices == []
    ensures op.Count? || op.Resolve? ==> |g.vertices| == 1 && g.vertices[0].Operand? && Distinct(g.vertices[0].vars)
    ensures op.Count? ==> Elements(g.vertices[0].vars) !! Elements(tracked)
    ensures op.Resolve? ==> Elements(g.vertices[0].vars) <= Elements(tracked)
    ensures op.Union? <==> |g.vertices| > 1 && |UnionParts(g)| > 1
    ensures |g.vertices| == 1 ==> (op.Filter? <==> g.vertices[0].FilterVertex?)
    ensures |g.vertices| > 1 && !op.Union? ==> (op.Filter? <==> SomeReady(g))
    ensures op.Cartesian? ==> |g.vertices| > 1 && |Components(CartesianArcs(g, IscSet(g)), |g.vertices|)| > 1
    ensures op.LeftJoin? || op.FilterAlt? ==> exists v: nat :: v < |g.vertices| && !InIsc(g, v)
    ensures |g.vertices| > 1 && op.Join? ==> forall v: nat :: v < |g.vertices| ==> InIsc(g, v)
    ensures op.FilterAlt? ==> forall v: nat :: InIsc(g, v) && g.vertices[v].Operand? ==> g.vertices[v].vars == []
    ensures |g.vertices| > 1 ==> !op.Count? && !op.Resolve?
  {
    hide SomeReady, IscSet, SeveralChoice;
    if |g.vertices| == 0 {
      return EntryGenerator;
    }
    if |g.vertices| == 1 {
      op := NextOpSingle(g.vertices[0], tracked);
      return;
    }
    var unionParts := UnionComponents(g);
    if |unionParts| > 1 {
      return Union;
    }
    op := NextOpSeveral(g);
  }

  lemma IscMisses(isc: seq<nat>, n: nat)
    requires Increasing(isc) && |isc| < n
    ensures exists v: nat :: v < n && v !in isc
  {
    if forall v: nat :: v < n ==> v in isc {
      SubsetCard(Below(n), Elements(isc));
      BelowCard(n);
      ElementsCard(isc);
    }
  }

  lemma {:induction false} BelowCard(n: nat)
    ensures |Below(n)| == n
  {
    if n > 0 {
      BelowCard(n - 1);
    }
  }

  lemma {:induction false} ElementsCard<T>(s: seq<T>)
    ensures |Elements(s)| <= |s|
  {
    if s != [] {
      ElementsCard(Init(s));
      assert Elements(s) == Elements(Init(s)) + {Last(s)};
    }
  }

  /** As many different variables as positions: no variable repeats. */
  lemma {:induction false} AllDifferent(s: seq<VarId>)
    requires |Elements(s)| == |s|
    ensures Distinct(s)
  {
    if s != [] {
      assert Elements(s) == Elements(Init(s)) + {Last(s)};
      ElementsCard(Init(s));
      assert Last(s) !in Elements(Init(s));
      AllDifferent(Init(s));
      forall i, j | 0 <= i < j < |s| ensures s[i] != s[j] {
        if j == |s| - 1 {
          assert Init(s)[i] in Elements(Init(s));
        } else {
          assert Init(s)[i] != Init(s)[j];
        }
      }
    }
  }

  lemma {:induction false} DistinctSize(s: seq<VarId>)
    ensures Distinct(s) ==> |Elements(s)| == |s|
    decreases |s|
  {
    if s != [] {
      DistinctSize(Init(s));
      assert Elements(s) == Elements(Init(s)) + {Last(s)};
    }
  }

  /* ---------- plain graphs never reach the optional operators ---------- */

  lemma CliqueIsc(g: Graph)
    requires Clique(g) && WellFormed(g)
    ensures forall v: nat :: v < |g.vertices| ==> InIsc(g, v)
    ensures IscSet(g) == Elements(Range(|g.vertices|))
  {
    forall v: nat | v < |g.vertices| ensures InIsc(g, v) {
      forall w: nat | Reach(ArcsOf(g.edges), w, v) ensures Reach(ArcsOf(g.edges), v, w) {
        if w >= |g.vertices| {
          WellFormedArcs(g);
          ClosedReach(ArcsOf(g.edges), Below(w + 1) - Below(|g.vertices|), w, v);
        } else if v == w {
          ReachRefl(ArcsOf(g.edges), v);
        } else {
          assert Adj(g, v, w);
          ReachArc(ArcsOf(g.edges), v, w);
        }
      }
    }
  }

  lemma PlainWellFormed(g: Graph)
    requires Plain(g)
    ensures WellFormed(g)
  {
  }

  lemma SmallClique(g: Graph)
    requires Plain(g) && (|g.vertices| <= 1 || |UnionParts(g)| <= 1)
    ensures Clique(g)
  {
    if |g.vertices| > 1 {
      SinglePartClique(g);
    }
  }

  lemma NoneReady(g: Graph)
    requires Clique(g) && WellFormed(g) && !SomeReady(g)
    ensures NoReadyFilter(g.vertices)
  {
    CliqueIsc(g);
    forall i: nat | i < |g.vertices| ensures !ReadyFilter(g.vertices[i], DataVars(g.vertices)) {
      assert InIsc(g, i);
    }
  }

  lemma SingleReady(v: Vertex)
    ensures v.FilterVertex? ==> ReadyFilter(v, DataVars([v]))
  {
    assert Init([v]) == [];
  }

  /** Without a ready filter some operand still has a variable. */
  lemma SomeVariable(g: Graph, ops: seq<Trie>)
    requires Live(g.vertices, ops) && NoReadyFilter(g.vertices) && g.vertices != []
    ensures DataVars(g.vertices) != {}
  {
    var v := g.vertices[0];
    if v.Operand? {
      assert v.vars[0] in DataVars(g.vertices);
    } else {
      assert !ReadyFilter(v, DataVars(g.vertices));
    }
  }

  /* ---------- leaves ---------- */

  /** Any variable that still has an operand may be resolved next. */
  method GetMinCardLabel(g: Graph) returns (x: VarId)
    requires DataVars(g.vertices) != {}
    ensures x in DataVars(g.vertices)
  {
    x :| x in DataVars(g.vertices);
  }

  /** The entry after all variables of one operand are written from a row. */
  method WriteRow(vars: seq<VarId>, row: Row, tracked: seq<VarId>, entry: Entry, ghost c: Key)
    requires |row| == |vars| && Distinct(tracked) && |entry.key| == |tracked| == |c|
    requires Elements(vars) <= Elements(tracked)
    requires AgreesOutside(tracked, c, entry.key, Elements(vars))
    modifies entry
    ensures entry.key == KeyOf(tracked, c, RowBinding(vars, row)) && entry.value == old(entry.value)
  {
    for i := 0 to |vars|
      invariant |entry.key| == |tracked| && entry.value == old(entry.value)
      invariant forall p :: 0 <= p < |tracked| ==>
                  entry.key[p] == if tracked[p] in RowBinding(vars[..i], row[..i])
                                  then Some(RowBinding(vars[..i], row[..i])[tracked[p]]) else old(entry.key)[p]
    {
      assert Init(vars[..i + 1]) == vars[..i] && Init(row[..i + 1]) == row[..i];
      assert vars[i] in Elements(vars);
      var pos := IndexIn(tracked, vars[i]);
      entry.SetPart(pos, Some(row[i]));
      forall p | 0 <= p < |tracked| && tracked[p] == vars[i] ensures p == pos {
        DistinctIndex(tracked, p);
      }
    }
    assert vars[..|vars|] == vars && row[..|vars|] == row;
  }

  /** The rows already written out. */
  ghost predicate RowsSoFar(v: Vertex, t: Trie, tracked: seq<VarId>, c: Key, done: set<Row>, ys: seq<CountedEntry>) {
    && |c| == |tracked| && Proper(ys, |tracked|)
    && forall k: Key :: |k| == |tracked| ==> Total(ys, k) == |RowsFor(v, t, tracked, c, k) * done|
  }

  lemma RowStepAt(v: Vertex, t: Trie, tracked: seq<VarId>, c: Key, done: set<Row>, row: Row, k: Key)
    requires row in t.rows && row !in done && |row| == |v.vars| && |c| == |tracked|
    ensures |RowsFor(v, t, tracked, c, k) * (done + {row})|
         == |RowsFor(v, t, tracked, c, k) * done| + (if KeyOf(tracked, c, RowBinding(v.vars, row)) == k then 1 else 0)
  {
    hide KeyOf, RowBinding;
    var rows := RowsFor(v, t, tracked, c, k);
    if row in rows {
      assert rows * (done + {row}) == rows * done + {row};
    } else {
      assert rows * (done + {row}) == rows * done;
    }
  }

  lemma RowStep(v: Vertex, t: Trie, tracked: seq<VarId>, c: Key, done: set<Row>, ys: seq<CountedEntry>, row: Row)
    requires RowsSoFar(v, t, tracked, c, done, ys)
    requires row in t.rows && row !in done && |row| == |v.vars|
    ensures RowsSoFar(v, t, tracked, c, done + {row}, ys + [CountedEntry(KeyOf(tracked, c, RowBinding(v.vars, row)), 1)])
  {
    hide KeyOf, RowBinding, RowsFor, Total;
    var y := CountedEntry(KeyOf(tracked, c, RowBinding(v.vars, row)), 1);
    ProperAppend(ys, [y], |tracked|);
    forall k: Key | |k| == |tracked|
      ensures Total(ys + [y], k) == |RowsFor(v, t, tracked, c, k) * (done + {row})|
    {
      TotalSnoc(ys, y, k);
      RowStepAt(v, t, tracked, c, done, row, k);
    }
  }

  lemma RowsAll(g: Graph, ops: seq<Trie>, tracked: seq<VarId>, c: Key, ys: seq<CountedEntry>)
    requires |g.vertices| == |ops| == 1 && g.vertices[0].Operand? && Distinct(g.vertices[0].vars)
    requires AlignedAt(g.vertices[0], ops[0]) && Clique(g) && |c| == |tracked|
    requires RowsSoFar(g.vertices[0], ops[0], tracked, c, ops[0].rows, ys)
    ensures Yielded(g, ops, tracked, c, ys)
  {
    hide GraphCount, Matching, Clique, Total, RowBinding;
    assert g.vertices == [g.vertices[0]] && ops == [ops[0]];
    forall k: Key | |k| == |tracked| ensures Total(ys, k) == GraphCount(g, ops, tracked, c, k) {
      CliqueCount(g, ops, tracked, c, k);
      SingleMatching(g.vertices[0], ops[0], tracked, c, k);
      assert RowsFor(g.vertices[0], ops[0], tracked, c, k) * ops[0].rows == RowsFor(g.vertices[0], ops[0], tracked, c, k);
    }
  }

  /** Writes out every row once. */
  method EnumerateRows(v: Vertex, t: Trie, tracked: seq<VarId>, entry: Entry) returns (ys: seq<CountedEntry>)
    requires t.Valid() && t.depth == |v.vars| && Distinct(tracked) && |entry.key| == |tracked|
    requires Elements(v.vars) <= Elements(tracked)
    modifies entry
    ensures RowsSoFar(v, t, tracked, old(entry.key), t.rows, ys)
    ensures AgreesOutside(tracked, old(entry.key), entry.key, Elements(v.vars))
  {
    hide RowsSoFar, KeyOf, RowBinding, Distinct;
    ghost var c := entry.key;
    ys := [];
    var rest := t.rows;
    RowsStart(v, t, tracked, c);
    while rest != {}
      invariant rest <= t.rows && |entry.key| == |tracked|
      invariant AgreesOutside(tracked, c, entry.key, Elements(v.vars))
      invariant RowsSoFar(v, t, tracked, c, t.rows - rest, ys)
      decreases rest
    {
      var row :| row in rest;
      WriteRow(v.vars, row, tracked, entry, c);
      entry.SetValue(1);
      RowStep(v, t, tracked, c, t.rows - rest, ys, row);
      assert t.rows - (rest - {row}) == (t.rows - rest) + {row};
      ys := ys + [entry.Snapshot()];
      rest := rest - {row};
      KeyOfAgrees(v.vars, row, tracked, c);
    }
    assert t.rows - rest == t.rows;
  }

  /** Enumerates the rows of the one operand that is left. */
  method ResolveOperator(g: Graph, ops: seq<Trie>, tracked: seq<VarId>, entry: Entry) returns (ys: seq<CountedEntry>)
    requires Evaluable(g, ops, tracked) && |g.vertices| == |ops| == 1 && |entry.key| == |tracked|
    requires g.vertices[0].Operand? && Distinct(g.vertices[0].vars)
    requires Elements(g.vertices[0].vars) <= Elements(tracked)
    modifies entry
    ensures Yielded(g, ops, tracked, Cleared(tracked, old(entry.key), DataVars(g.vertices)), ys)
    ensures AgreesOutside(tracked, old(entry.key), entry.key, DataVars(g.vertices))
  {
    hide Plain, FiltersOk, RepeatsTracked, Live, DataVars, RowsSoFar, Yielded;
    var v := g.vertices[0];
    assert g.vertices == [v];
    SingleVars(v);
    AlignedHere(g.vertices, ops, 0);
    ClearUsedEntryPoss(entry, tracked, DataVars(g.vertices));
    ghost var c := entry.key;
    ys := EnumerateRows(v, ops[0], tracked, entry);
    SingleClique(g);
    RowsAll(g, ops, tracked, c, ys);
  }

  lemma SingleClique(g: Graph)
    requires |g.vertices| <= 1
    ensures Clique(g)
  {
  }

  lemma RowsStart(v: Vertex, t: Trie, tracked: seq<VarId>, c: Key)
    requires |c| == |tracked|
    ensures RowsSoFar(v, t, tracked, c, t.rows - t.rows, [])
  {
    assert t.rows - t.rows == {};
    forall k: Key | |k| == |tracked| ensures RowsFor(v, t, tracked, c, k) * {} == {} {
    }
  }

  lemma KeyOfAgrees(vars: seq<VarId>, row: Row, tracked: seq<VarId>, c: Key)
    requires |row| == |vars| && |c| == |tracked|
    ensures AgreesOutside(tracked, c, KeyOf(tracked, c, RowBinding(vars, row)), Elements(vars))
  {
    hide RowBinding;
  }

  /* ---------- the operators ---------- */

  /** Evaluates one operator of a graph that still has a tracked variable, and yields its entries. */
  method GetSubOperator(g: Graph, ops: seq<Trie>, tracked: seq<VarId>, mode: CountIndex, entry: Entry)
    returns (ys: seq<CountedEntry>)
    requires Ready(g, ops, tracked, mode, entry.key) && !AllTrackedVarsDone(g.vertices, tracked)
    modifies entry
    ensures Yielded(g, ops, tracked, Cleared(tracked, old(entry.key), DataVars(g.vertices)), ys)
    ensures AgreesOutside(tracked, old(entry.key), entry.key, DataVars(g.vertices))
    ensures DataVars(g.vertices) <= Elements(tracked) ==> AllOnes(ys)
    decreases Measure(g), 1
  {
    hide Evaluable, Clique, SomeReady, NoReadyFilter, Yielded, DataVars, AgreesOutside, IscSet, InIsc, RightChoice, AllOnes;
    EvaluablePlain(g, ops, tracked);
    PlainWellFormed(g);
    var op := NextOp(g, tracked);
    if op.Union? {
      ys := UnionOperator(g, ops, tracked, mode, entry);
      return;
    }
    SmallClique(g);
    OperatorFacts(g, ops, tracked, op);
    match op {
      case Join => ys := JoinOperator(g, ops, tracked, mode, entry);
      case Resolve => ys := ResolveOperator(g, ops, tracked, entry);
      case Cartesian => ys := CartesianOperator(g, ops, tracked, mode, entry);
      case Filter => ys := FilterOperator(g, ops, tracked, mode, entry);
      case EntryGenerator => assert false;
      case Count => assert false;
      case LeftJoin => assert false;
      case FilterAlt => assert false;
    }
    if DataVars(g.vertices) <= Elements(tracked) {
      CliqueOnes(g, ops, tracked, Cleared(tracked, old(entry.key), DataVars(g.vertices)), ys);
    }
  }

  /** Resolves one variable, value by value. */
  method JoinOperator(g: Graph, ops: seq<Trie>, tracked: seq<VarId>, mode: CountIndex, entry: Entry)
    returns (ys: seq<CountedEntry>)
    requires Ready(g, ops, tracked, mode, entry.key) && Clique(g) && DataVars(g.vertices) != {}
    modifies entry
    ensures Yielded(g, ops, tracked, Cleared(tracked, old(entry.key), DataVars(g.vertices)), ys)
    ensures AgreesOutside(tracked, old(entry.key), entry.key, DataVars(g.vertices))
    decreases Measure(g), 0
  {
    hide Evaluable, Clique, Yielded, DataVars, AgreesOutside, JoinedSoFar, AllTrackedVarsDone, JoinKeys, JoinSlices, VarPositions, JoinStep, RemoveVar, Kept, Measure, Distinct, Cleared, Elements, Aligned, Live;
    ClearUsedEntryPoss(entry, tracked, DataVars(g.vertices));
    ghost var c := entry.key;
    ClearedAgrees(tracked, old(entry.key), DataVars(g.vertices));
    var evalVar := GetMinCardLabel(g);
    var sub := RemoveVarId(g, evalVar);
    var subDone := AllTrackedVarsDone(sub.vertices, tracked);
    var poss := VarPositions(g.vertices, evalVar);
    var rest := JoinKeys(ops, poss);
    ghost var keys := rest;
    ys := [];
    JoinedStart(g, ops, tracked, c, evalVar);
    assert keys - rest == {};
    while rest != {}
      invariant rest <= keys
      invariant |entry.key| == |tracked| && AgreesOutside(tracked, c, entry.key, DataVars(g.vertices))
      invariant JoinedSoFar(g, ops, tracked, c, evalVar, keys - rest, ys)
      decreases rest
    {
      var v :| v in rest;
      var subOps := JoinSlices(ops, poss, v);
      var zs := JoinValue(g, ops, tracked, mode, entry, evalVar, v, sub, subDone, subOps, c);
      JoinFacts(g, ops, tracked, evalVar, v, sub, subOps);
      JoinedStep(g, ops, tracked, c, evalVar, keys - rest, v, sub, subOps, ys, zs);
      DoneStep(keys, rest, v);
      ys := ys + zs;
      rest := rest - {v};
    }
    assert keys - rest == keys;
    JoinedAll(g, ops, tracked, c, evalVar, ys);
    AgreesThrough(tracked, old(entry.key), c, entry.key, DataVars(g.vertices), DataVars(g.vertices));
  }

  lemma DoneStep<T>(keys: set<T>, rest: set<T>, v: T)
    requires rest <= keys && v in rest
    ensures keys - (rest - {v}) == (keys - rest) + {v} && v !in keys - rest
  {
  }

  lemma ClearedAgrees(tracked: seq<VarId>, key: Key, d: set<VarId>)
    requires |key| == |tracked|
    ensures var c := Cleared(tracked, key, d);
            AgreesOutside(tracked, key, c, d) && AgreesOutside(tracked, c, c, d) && Cleared(tracked, c, d) == c
  {
  }

  /** The entries for one value of the joined variable. */
  method JoinValue(g: Graph, ops: seq<Trie>, tracked: seq<VarId>, mode: CountIndex, entry: Entry,
                   evalVar: VarId, v: Term, sub: Graph, subDone: bool, subOps: seq<Trie>, ghost c: Key)
    returns (zs: seq<CountedEntry>)
    requires Ready(g, ops, tracked, mode, entry.key) && Clique(g)
    requires evalVar in DataVars(g.vertices) && sub == RemoveVar(g, evalVar)
    requires subDone == AllTrackedVarsDone(sub.vertices, tracked)
    requires v in JoinKeys(ops, VarPositions(g.vertices, evalVar))
    requires subOps == JoinSlices(ops, VarPositions(g.vertices, evalVar), v)
    requires |c| == |tracked| && c == Cleared(tracked, c, DataVars(g.vertices))
    requires AgreesOutside(tracked, c, entry.key, DataVars(g.vertices))
    modifies entry
    ensures Yielded(sub, subOps, tracked, Assigned(tracked, c, evalVar, v), zs)
    ensures |entry.key| == |tracked| && AgreesOutside(tracked, c, entry.key, DataVars(g.vertices))
    decreases Measure(g), 0, 0
  {
    hide Evaluable, Clique, Yielded, DataVars, JoinKeys, JoinSlices, VarPositions, JoinStep, RemoveVar, Kept, Measure, Distinct, AllTrackedVarsDone, Cleared, Assigned;
    JoinFacts(g, ops, tracked, evalVar, v, sub, subOps);
    EvaluableFacts(g, ops, tracked);
    hide AgreesOutside, Elements, Ready;
    ghost var key := entry.key;
    if evalVar in tracked {
      entry.SetPart(IndexIn(tracked, evalVar), Some(v));
    }
    PartAssigned(tracked, c, key, entry.key, DataVars(g.vertices), evalVar, v);
    ghost var before := entry.key;
    SubReady(g, ops, tracked, mode, key, sub, subOps, entry.key);
    zs := SubEntries(sub, subOps, tracked, mode, entry, subDone);
    AgreesThrough(tracked, c, before, entry.key, DataVars(g.vertices), DataVars(sub.vertices));
  }

  lemma SubReady(g: Graph, ops: seq<Trie>, tracked: seq<VarId>, mode: CountIndex, key: Key,
                 sub: Graph, subOps: seq<Trie>, subKey: Key)
    requires Ready(g, ops, tracked, mode, key) && Evaluable(sub, subOps, tracked) && |sub.vertices| == |subOps|
    requires |subKey| == |key| && DataVars(sub.vertices) <= DataVars(g.vertices)
    ensures Ready(sub, subOps, tracked, mode, subKey)
  {
    hide Evaluable, DataVars;
  }

  /** The entry with the joined variable written. */
  lemma PartAssigned(tracked: seq<VarId>, c: Key, key: Key, written: Key, data: set<VarId>, x: VarId, v: Term)
    requires Distinct(tracked) && x in data && |c| == |tracked| && c == Cleared(tracked, c, data)
    requires AgreesOutside(tracked, c, key, data)
    requires |key| == |tracked| && written == if x in tracked then key[IndexIn(tracked, x) := Some(v)] else key
    ensures AgreesOutside(tracked, c, written, data)
    ensures Cleared(tracked, written, data - {x}) == Assigned(tracked, c, x, v)
  {
    hide Cleared, Assigned, Distinct;
    ClearedAssigned(tracked, c, written, data, x, v);
  }

  lemma AgreesThrough(tracked: seq<VarId>, a: Key, b: Key, k: Key, d: set<VarId>, e: set<VarId>)
    requires AgreesOutside(tracked, a, b, d) && AgreesOutside(tracked, b, k, e) && e <= d
    ensures AgreesOutside(tracked, a, k, d)
  {
  }

  /** The entries of a nested evaluation; without tracked variables, one entry with their number if there are any. */
  method SubEntries(g: Graph, ops: seq<Trie>, tracked: seq<VarId>, mode: CountIndex, entry: Entry, done: bool)
    returns (zs: seq<CountedEntry>)
    requires Ready(g, ops, tracked, mode, entry.key) && Clique(g) && done == AllTrackedVarsDone(g.vertices, tracked)
    modifies entry
    ensures Yielded(g, ops, tracked, Cleared(tracked, old(entry.key), DataVars(g.vertices)), zs)
    ensures AgreesOutside(tracked, old(entry.key), entry.key, DataVars(g.vertices))
    decreases Measure(g), 2
  {
    hide Evaluable, Clique, Yielded, DataVars, Measure, GraphCount, Cleared, AllTrackedVarsDone;
    if done {
      GetSubCount(g, ops, tracked, entry);
      DoneCleared(tracked, entry.key, g.vertices);
      CountYields(g, ops, tracked, entry.key, entry.value);
      zs := if entry.value == 0 then [] else [entry.Snapshot()];
    } else {
      zs := GetSubOperator(g, ops, tracked, mode, entry);
    }
  }

  /** What a join key leaves to evaluate: a join step to a smaller evaluable clique. */
  lemma JoinFacts(g: Graph, ops: seq<Trie>, tracked: seq<VarId>, x: VarId, v: Term, sub: Graph, subOps: seq<Trie>)
    requires Evaluable(g, ops, tracked) && Clique(g) && |g.vertices| == |ops|
    requires x in DataVars(g.vertices) && sub == RemoveVar(g, x)
    requires v in JoinKeys(ops, VarPositions(g.vertices, x)) && subOps == JoinSlices(ops, VarPositions(g.vertices, x), v)
    ensures |sub.vertices| == |subOps|
    ensures JoinStep(g.vertices, ops, x, v, Kept(g.vertices, x), sub.vertices, subOps)
    ensures Evaluable(sub, subOps, tracked) && Clique(sub)
    ensures DataVars(sub.vertices) == DataVars(g.vertices) - {x}
    ensures Measure(sub) < Measure(g)
    ensures AllTrackedVarsDone(g.vertices, tracked) ==> AllTrackedVarsDone(sub.vertices, tracked)
  {
    hide Clique, Plain, FiltersOk, RepeatsTracked, DataVars, JoinKeys, JoinSlices, VarPositions, JoinStep, RemoveVar, Kept, Measure, Distinct;
    JoinKeysPresent(ops, VarPositions(g.vertices, x), v);
    JoinStepOf(g, ops, tracked, x, v);
    EvaluableJoin(g, ops, tracked, x, v, sub, subOps);
  }

  lemma JoinKeysPresent(ops: seq<Trie>, poss: seq<seq<nat>>, v: Term)
    requires |ops| == |poss| && v in JoinKeys(ops, poss)
    ensures PresentInAll(ops, poss, v)
  {
  }

  lemma EvaluablePlain(g: Graph, ops: seq<Trie>, tracked: seq<VarId>)
    requires Evaluable(g, ops, tracked)
    ensures Plain(g)
  {
  }

  /** Of a graph of mutually dependent vertices, the operator that is chosen fits what is left of it. */
  lemma OperatorFacts(g: Graph, ops: seq<Trie>, tracked: seq<VarId>, op: Operation)
    requires Evaluable(g, ops, tracked) && Clique(g) && WellFormed(g)
    requires op.EntryGenerator? <==> g.vertices == []
    requires op.Count? || op.Resolve? ==> |g.vertices| == 1 && g.vertices[0].Operand?
    requires |g.vertices| == 1 ==> (op.Filter? <==> g.vertices[0].FilterVertex?)
    requires |g.vertices| > 1 ==> (op.Filter? <==> SomeReady(g))
    requires op.Cartesian? ==> |g.vertices| > 1 && |Components(CartesianArcs(g, IscSet(g)), |g.vertices|)| > 1
    requires op.LeftJoin? || op.FilterAlt? ==> exists v: nat :: v < |g.vertices| && !InIsc(g, v)
    ensures !op.LeftJoin? && !op.FilterAlt?
    ensures op.Join? ==> DataVars(g.vertices) != {}
    ensures op.Cartesian? ==> |CartesianParts(g)| > 1
    ensures op.Cartesian? || op.Join? ==> NoReadyFilter(g.vertices)
    ensures op.EntryGenerator? ==> DataVars(g.vertices) == {}
    ensures op.Count? || op.Resolve? ==> DataVars(g.vertices) == Elements(g.vertices[0].vars)
    ensures op.Filter? ==> |g.vertices| > 0 && exists p: nat :: p < |g.vertices| && ReadyFilter(g.vertices[p], DataVars(g.vertices))
  {
    hide Plain, Clique, FiltersOk, RepeatsTracked, Aligned, Live, DataVars, CartesianArcs, IscSet, InIsc, NoReadyFilter, SomeReady;
    CliqueIsc(g);
    CartesianPartsAre(g);
    if op.Cartesian? || op.Join? {
      if |g.vertices| > 1 {
        NoneReady(g);
      } else {
        SingleNotReady(g);
      }
      if op.Join? {
        SomeVariable(g, ops);
      }
    }
    if op.Count? || op.Resolve? {
      assert g.vertices == [g.vertices[0]];
      SingleVars(g.vertices[0]);
    }
    if op.Filter? {
      FilterChosen(g);
    }
    if g.vertices == [] {
      NoVars(g);
    }
  }

  lemma NoVars(g: Graph)
    requires g.vertices == []
    ensures DataVars(g.vertices) == {}
  {
  }

  lemma CartesianPartsAre(g: Graph)
    requires IscSet(g) == Elements(Range(|g.vertices|))
    ensures CartesianParts(g) == Components(CartesianArcs(g, IscSet(g)), |g.vertices|)
  {
  }

  lemma SingleNotReady(g: Graph)
    requires |g.vertices| == 1 && g.vertices[0].Operand?
    ensures NoReadyFilter(g.vertices)
  {
    hide DataVars;
  }

  lemma FilterChosen(g: Graph)
    requires |g.vertices| == 1 ==> g.vertices[0].FilterVertex?
    requires |g.vertices| > 1 ==> SomeReady(g)
    requires g.vertices != []
    ensures exists p: nat :: p < |g.vertices| && ReadyFilter(g.vertices[p], DataVars(g.vertices))
  {
    if |g.vertices| == 1 {
      assert g.vertices == [g.vertices[0]];
      SingleReady(g.vertices[0]);
      assert ReadyFilter(g.vertices[0], DataVars(g.vertices));
    }
  }

  /** The positions of the ready filters, and whether all of them hold for the entry. */
  method EvaluateFilters(g: Graph, tracked: seq<VarId>, key: Key) returns (filters: seq<nat>, result: bool)
    requires WellFormed(g) && Clique(g) && |key| == |tracked|
    ensures forall p: nat :: p in filters <==> p < |g.vertices| && ReadyFilter(g.vertices[p], DataVars(g.vertices))
    ensures AllReady(g.vertices, filters)
    ensures result <==> forall p :: p in filters ==> Holds(g.vertices[p].filter, tracked, key)
  {
    hide DataVars, Clique, Holds;
    var isc := IscOperands(g);
    CliqueIsc(g);
    filters := FiltersForEvaluation(g, isc);
    forall p: nat ensures p in filters <==> p < |g.vertices| && ReadyFilter(g.vertices[p], DataVars(g.vertices)) {
      if p < |g.vertices| {
        ReadyMeans(g.vertices[p], DataVars(g.vertices));
      }
    }
    result := true;
    var i := 0;
    while i < |filters|
      invariant 0 <= i <= |filters| && AllReady(g.vertices, filters[..i])
      invariant result <==> forall p :: p in filters[..i] ==> Holds(g.vertices[p].filter, tracked, key)
    {
      assert filters[i] in filters;
      result := Holds(g.vertices[filters[i]].filter, tracked, key);
      assert filters[..i + 1] == filters[..i] + [filters[i]];
      if !result {
        assert filters[i] in filters && !Holds(g.vertices[filters[i]].filter, tracked, key);
        return;
      }
      i := i + 1;
    }
    assert filters[..|filters|] == filters;
  }

  /** Drops the ready filters if they hold, and yields nothing otherwise. */
  method FilterOperator(g: Graph, ops: seq<Trie>, tracked: seq<VarId>, mode: CountIndex, entry: Entry)
    returns (ys: seq<CountedEntry>)
    requires Ready(g, ops, tracked, mode, entry.key) && Clique(g) && !AllTrackedVarsDone(g.vertices, tracked)
    requires exists p: nat :: p < |g.vertices| && ReadyFilter(g.vertices[p], DataVars(g.vertices))
    modifies entry
    ensures Yielded(g, ops, tracked, Cleared(tracked, old(entry.key), DataVars(g.vertices)), ys)
    ensures AgreesOutside(tracked, old(entry.key), entry.key, DataVars(g.vertices))
    decreases Measure(g), 0
  {
    hide Clique, Plain, Aligned, Live, FiltersOk, RepeatsTracked, Yielded, DataVars, Measure, Distinct, Complement, Holds, Pick;
    ghost var key := entry.key;
    PlainWellFormed(g);
    var filters, result := EvaluateFilters(g, tracked, entry.key);
    FiltersRemoved(g, ops, tracked, filters);
    if result {
      var sub, originalPositions := RemoveVertices(g, filters);
      ys := GetSubOperator(sub, Pick(ops, originalPositions), tracked, mode, entry);
    } else {
      ys := [];
    }
    FilteredYield(g, ops, tracked, key, filters, result, ys);
  }

  /** Removing the ready filters leaves an evaluable, smaller graph with the same operands' variables. */
  lemma FiltersRemoved(g: Graph, ops: seq<Trie>, tracked: seq<VarId>, filters: seq<nat>)
    requires Evaluable(g, ops, tracked) && Clique(g) && |g.vertices| == |ops|
    requires forall p: nat :: p in filters <==> p < |g.vertices| && ReadyFilter(g.vertices[p], DataVars(g.vertices))
    requires exists p: nat :: p < |g.vertices| && ReadyFilter(g.vertices[p], DataVars(g.vertices))
    ensures AllReady(g.vertices, filters)
    ensures var keep := Complement(|g.vertices|, filters);
            && Evaluable(Induced(g, keep), Pick(ops, keep), tracked) && Clique(Induced(g, keep))
            && DataVars(Pick(g.vertices, keep)) == DataVars(g.vertices)
            && Measure(Induced(g, keep)) < Measure(g)
  {
    hide Clique, Plain, Aligned, Live, FiltersOk, RepeatsTracked, DataVars, Measure, Distinct, Complement, Pick;
    var keep := Complement(|g.vertices|, filters);
    EvaluableInduced(g, ops, tracked, keep);
    InducedOfClique(g, keep);
    AllReadyFilters(g.vertices, filters);
    RemovedFiltersVars(g.vertices, filters);
    var p: nat :| p < |g.vertices| && ReadyFilter(g.vertices[p], DataVars(g.vertices));
    assert p in filters;
    assert filters[0] in filters;
    ComplementSmaller(|g.vertices|, filters);
    PickSmaller(g, keep);
  }

  /* ---------- cartesian products ---------- */

  lemma CartesianPart(g: Graph, ops: seq<Trie>, tracked: seq<VarId>, part: seq<nat>)
    requires Evaluable(g, ops, tracked) && Clique(g) && part in CartesianParts(g) && |CartesianParts(g)| > 1
    ensures Indices(part, |g.vertices|) && |g.vertices| == |ops|
    ensures Evaluable(Induced(g, part), Pick(ops, part), tracked) && Clique(Induced(g, part))
    ensures DataVars(Pick(g.vertices, part)) <= DataVars(g.vertices)
    ensures Measure(Induced(g, part)) < Measure(g)
  {
    hide Clique, Plain, Aligned, Live, FiltersOk, RepeatsTracked, DataVars, Measure, Distinct, Pick;
    CartesianPartShape(g, part);
    EvaluableInduced(g, ops, tracked, part);
    InducedOfClique(g, part);
    PartSmaller(CartesianArcs(g, Elements(Range(|g.vertices|))), |g.vertices|, part);
    PickSmaller(g, part);
  }

  /** One materialized component, evaluated on a copy of the entry. */
  method GetSubResult(g: Graph, ops: seq<Trie>, tracked: seq<VarId>, mode: CountIndex, key: Key, part: seq<nat>)
    returns (m: SubResult)
    requires Ready(g, ops, tracked, mode, key) && Clique(g) && part in CartesianParts(g) && |CartesianParts(g)| > 1
    requires key == Cleared(tracked, key, DataVars(g.vertices))
    ensures Indices(part, |g.vertices|) && Materialized(Induced(g, part), Pick(ops, part), tracked, key, m)
    decreases Measure(g), 0, 1
  {
    hide Evaluable, Clique, Yielded, DataVars, Measure, Pick, CartesianParts, Materialized, SumsTo, Cleared;
    CartesianPart(g, ops, tracked, part);
    var subEntry := new Entry(key, 1);
    var zs := ComponentEntries(g, ops, tracked, mode, subEntry, part);
    YieldedProper(Induced(g, part), Pick(ops, part), tracked, key, zs);
    m := Collect(zs, |tracked|);
    CollectedPart(Induced(g, part), Pick(ops, part), tracked, key, zs, m);
  }

  /** Materializes the components but the iterated one; none, if one of them has no solution. */
  method GetSubResults(g: Graph, ops: seq<Trie>, tracked: seq<VarId>, mode: CountIndex, key: Key,
                       parts: seq<seq<nat>>, iterated: nat)
    returns (maps: seq<SubResult>)
    requires Ready(g, ops, tracked, mode, key) && Clique(g)
    requires parts == CartesianParts(g) && |parts| > 1 && iterated < |parts|
    requires key == Cleared(tracked, key, DataVars(g.vertices))
    ensures maps != [] ==> AllMaterialized(g, ops, tracked, key, iterated, maps)
    ensures maps == [] ==> Yielded(g, ops, tracked, key, [])
    decreases Measure(g), 0, 2
  {
    hide Evaluable, Clique, Yielded, DataVars, Measure, Pick, CartesianParts, Materialized, Cleared;
    maps := [];
    for i := 0 to |parts|
      invariant |maps| == if i <= iterated then i else i - 1
      invariant forall j :: 0 <= j < |maps| ==> Indices(AllBut(parts, iterated)[j], |g.vertices|) && maps[j] != map[]
      invariant forall j :: 0 <= j < |maps| ==>
                  Materialized(Induced(g, AllBut(parts, iterated)[j]), Pick(ops, AllBut(parts, iterated)[j]), tracked, key, maps[j])
    {
      if i != iterated {
        assert parts[i] in parts;
        var m := GetSubResult(g, ops, tracked, mode, key, parts[i]);
        if m == map[] {
          CartesianPart(g, ops, tracked, parts[i]);
          NonePart(Induced(g, parts[i]), Pick(ops, parts[i]), tracked, key);
          EvaluableFacts(g, ops, tracked);
          ProductEmpty(g, ops, tracked, key, i);
          return [];
        }
        maps := maps + [m];
      }
    }
  }

  lemma EvaluableFacts(g: Graph, ops: seq<Trie>, tracked: seq<VarId>)
    requires Evaluable(g, ops, tracked)
    ensures Plain(g) && FiltersOk(g.vertices, tracked) && |g.vertices| == |ops| && Distinct(tracked)
    ensures Live(g.vertices, ops) && Aligned(g.vertices, ops)
  {
  }

  /** The positions of the entry that each component writes. */
  method ComponentPositions(vs: seq<Vertex>, parts: seq<seq<nat>>, tracked: seq<VarId>) returns (poss: seq<seq<nat>>)
    requires forall i :: 0 <= i < |parts| ==> Indices(parts[i], |vs|)
    ensures poss == PartPositions(vs, parts, tracked)
  {
    poss := [];
    for i := 0 to |parts|
      invariant |poss| == i
      invariant forall j :: 0 <= j < i ==> poss[j] == TrackedPositions(tracked, DataVars(Pick(vs, parts[j])))
    {
      poss := poss + [TrackedPositions(tracked, DataVars(Pick(vs, parts[i])))];
    }
  }

  /** Scales the entries of what is left by the counted operands. */
  method ScaleEntries(zs: seq<CountedEntry>, factor: nat, ghost width: nat) returns (ys: seq<CountedEntry>)
    requires Proper(zs, width) && factor > 0
    ensures Proper(ys, width) && forall k :: Total(ys, k) == Total(zs, k) * factor
  {
    hide Total;
    ys := [];
    forall k ensures Total([], k) == 0 { EmptyTotal(k); }
    for i := 0 to |zs|
      invariant Proper(ys, width) && forall k :: Total(ys, k) == Total(zs[..i], k) * factor
    {
      ScaleStep(zs[..i], ys, zs[i], factor);
      assert zs[..i + 1] == zs[..i] + [zs[i]];
      ys := ys + [CountedEntry(zs[i].key, zs[i].value * factor)];
    }
    assert zs[..|zs|] == zs;
  }

  lemma ScaleStep(zs: seq<CountedEntry>, ys: seq<CountedEntry>, z: CountedEntry, factor: nat)
    requires z.value > 0 && factor > 0 && forall k :: Total(ys, k) == Total(zs, k) * factor
    ensures z.value * factor > 0
    ensures forall k :: Total(ys + [CountedEntry(z.key, z.value * factor)], k) == Total(zs + [z], k) * factor
  {
    hide Total;
    CountElimination.ProductPositive(z.value, factor);
    forall k ensures Total(ys + [CountedEntry(z.key, z.value * factor)], k) == Total(zs + [z], k) * factor {
      TotalSnoc(ys, CountedEntry(z.key, z.value * factor), k);
      TotalSnoc(zs, z, k);
      DistributeOver(factor, Total(zs, k), z.value);
    }
  }

  /** The product of the components of a clique, key by key. */
  method CartesianOperator(g: Graph, ops: seq<Trie>, tracked: seq<VarId>, mode: CountIndex, entry: Entry)
    returns (ys: seq<CountedEntry>)
    requires Ready(g, ops, tracked, mode, entry.key) && Clique(g) && NoReadyFilter(g.vertices)
    requires |CartesianParts(g)| > 1 && !AllTrackedVarsDone(g.vertices, tracked)
    modifies entry
    ensures Yielded(g, ops, tracked, Cleared(tracked, old(entry.key), DataVars(g.vertices)), ys)
    ensures AgreesOutside(tracked, old(entry.key), entry.key, DataVars(g.vertices))
    decreases Measure(g), 0, 4
  {
    hide Evaluable, Clique, Yielded, DataVars, Measure, Pick, CartesianParts, CountedOut, NoReadyFilter, Complement, SizeProduct, AllTrackedVarsDone;
    EvaluableFacts(g, ops, tracked);
    PlainWellFormed(g);
    ghost var c := Cleared(tracked, entry.key, DataVars(g.vertices));
    var found, sub, subOps, countsResult := EliminateCounts(g, ops, tracked, mode);
    if found {
      CountedRemoved(g, ops, tracked, mode, entry.key);
      var zs := GetSubOperator(sub, subOps, tracked, mode, entry);
      YieldedProper(sub, subOps, tracked, c, zs);
      ys := ScaleEntries(zs, countsResult, |tracked|);
      CountedYields(g, ops, tracked, c, zs, ys);
      return;
    }
    ys := CombineComponents(g, ops, tracked, mode, entry);
  }

  /** Materializes all components but one, and combines each entry of that one with all their tuples. */
  method CombineComponents(g: Graph, ops: seq<Trie>, tracked: seq<VarId>, mode: CountIndex, entry: Entry)
    returns (ys: seq<CountedEntry>)
    requires Ready(g, ops, tracked, mode, entry.key) && Clique(g) && |CartesianParts(g)| > 1
    modifies entry
    ensures Yielded(g, ops, tracked, Cleared(tracked, old(entry.key), DataVars(g.vertices)), ys)
    ensures AgreesOutside(tracked, old(entry.key), entry.key, DataVars(g.vertices))
    decreases Measure(g), 0, 3
  {
    hide Evaluable, Clique, Yielded, DataVars, Measure, Pick, CartesianParts, PartResults, AllMaterialized, PartPositions, ProductShape, KeepsElsewhere, EmittedFor, VectorOf;
    EvaluableFacts(g, ops, tracked);
    PlainWellFormed(g);
    ClearUsedEntryPoss(entry, tracked, DataVars(g.vertices));
    ghost var c := entry.key;
    var parts := CartesianComponents(g, Range(|g.vertices|));
    PartsAre(g);
    forall i | 0 <= i < |parts| ensures Indices(parts[i], |g.vertices|) && Clique(Induced(g, parts[i])) {
      assert parts[i] in parts;
      CartesianPart(g, ops, tracked, parts[i]);
    }
    var resultPoss := ComponentPositions(g.vertices, parts, tracked);
    var iterated: nat :| iterated < |parts|;
    var maps := GetSubResults(g, ops, tracked, mode, entry.key, parts, iterated);
    if maps == [] {
      return [];
    }
    MaterializedLength(g, ops, tracked, c, iterated, maps);
    PositionsLength(g.vertices, parts, tracked);
    var calculated := new FullCartesianResult(maps, entry, iterated, resultPoss);
    var subEntry := new Entry(entry.key, 1);
    CartesianPart(g, ops, tracked, parts[iterated]);
    var zs := ComponentEntries(g, ops, tracked, mode, subEntry, parts[iterated]);
    YieldedProper(Induced(g, parts[iterated]), Pick(ops, parts[iterated]), tracked, c, zs);
    PartResultsOf(g, ops, tracked, c, iterated, maps, calculated.subResults, zs, |tracked|);
    ProductShapeOf(g, ops, tracked, c, iterated, calculated.subResults, zs);
    KeepsSelf(c, resultPoss[iterated], calculated.resultPoss);
    ys := EmitProducts(calculated, resultPoss[iterated], zs, entry, c);
    ProductYields(g, ops, tracked, c, iterated, calculated.subResults, zs, ys);
    KeepsLength(c, entry.key, resultPoss[iterated], calculated.resultPoss);
    ElsewhereIsOutside(g, tracked, iterated, c, entry.key);
  }

  lemma MaterializedLength(g: Graph, ops: seq<Trie>, tracked: seq<VarId>, c: Key, iter: nat, maps: seq<SubResult>)
    requires AllMaterialized(g, ops, tracked, c, iter, maps)
    ensures |maps| + 1 == |CartesianParts(g)|
  {
  }

  lemma PositionsLength(vs: seq<Vertex>, parts: seq<seq<nat>>, tracked: seq<VarId>)
    requires forall i :: 0 <= i < |parts| ==> Indices(parts[i], |vs|)
    ensures |PartPositions(vs, parts, tracked)| == |parts|
  {
  }

  lemma KeepsSelf(c: Key, iterPoss: seq<nat>, poss: seq<seq<nat>>)
    ensures KeepsElsewhere(c, c, iterPoss, poss)
  {
  }

  lemma KeepsLength(c: Key, k: Key, iterPoss: seq<nat>, poss: seq<seq<nat>>)
    requires KeepsElsewhere(c, k, iterPoss, poss)
    ensures |k| == |c|
  {
  }

  /** What is left after counting out can be evaluated: it keeps the tracked variables, and the entry sees the same. */
  lemma CountedRemoved(g: Graph, ops: seq<Trie>, tracked: seq<VarId>, mode: CountIndex, key: Key)
    requires Ready(g, ops, tracked, mode, key) && Clique(g) && NoReadyFilter(g.vertices)
    requires !AllTrackedVarsDone(g.vertices, tracked) && CountedOut(g, tracked) != []
    ensures mode.ByOperand?
    ensures Indices(CountedOut(g, tracked), |ops|) && SizeProduct(ops, CountedOut(g, tracked)) > 0
    ensures var keep := Complement(|g.vertices|, CountedOut(g, tracked));
            && Ready(Induced(g, keep), Pick(ops, keep), tracked, mode, key)
            && !AllTrackedVarsDone(Pick(g.vertices, keep), tracked)
            && Measure(Induced(g, keep)) < Measure(g)
            && DataVars(Pick(g.vertices, keep)) <= DataVars(g.vertices)
            && Cleared(tracked, key, DataVars(Pick(g.vertices, keep))) == Cleared(tracked, key, DataVars(g.vertices))
  {
    hide Clique, Plain, Aligned, Live, FiltersOk, RepeatsTracked, DataVars, Measure, Distinct, Pick, Complement, CountedOut, NoReadyFilter, SizeProduct, Countable;
    var removed := CountedOut(g, tracked);
    var keep := Complement(|g.vertices|, removed);
    if mode.ByComponent? {
      NothingCounted(g, ops, tracked);
    }
    CountedCountable(g, ops, tracked);
    CountedPositive(g, ops, tracked);
    EvaluableInduced(g, ops, tracked, keep);
    CountedAlone(g, tracked, 0);
    ComplementSmaller(|g.vertices|, removed);
    PickSmaller(g, keep);
    TrackedKept(g.vertices, ops, tracked, removed);
  }

  /** Counted operands have no tracked variable. */
  lemma TrackedKept(vs: seq<Vertex>, ops: seq<Trie>, tracked: seq<VarId>, removed: seq<nat>)
    requires Countable(vs, ops, tracked, removed)
    ensures forall x :: x in tracked && x in DataVars(vs) ==> x in DataVars(Pick(vs, Complement(|vs|, removed)))
  {
    hide DataVars, Pick, Complement, Countable;
    forall x | x in tracked && x in DataVars(vs) ensures x in DataVars(Pick(vs, Complement(|vs|, removed))) {
      var i :| 0 <= i < |vs| && vs[i].Operand? && x in vs[i].vars;
      RemovedVars(vs, ops, tracked, removed, x, i);
    }
  }

  /** The scaled entries of what is left are those of the clique. */
  lemma CountedYields(g: Graph, ops: seq<Trie>, tracked: seq<VarId>, c: Key, zs: seq<CountedEntry>, ys: seq<CountedEntry>)
    requires Evaluable(g, ops, tracked) && Clique(g) && NoReadyFilter(g.vertices) && |g.vertices| == |ops|
    requires Indices(CountedOut(g, tracked), |g.vertices|) && |c| == |tracked|
    requires var keep := Complement(|g.vertices|, CountedOut(g, tracked));
             Yielded(Induced(g, keep), Pick(ops, keep), tracked, c, zs)
    requires Proper(ys, |tracked|)
    requires forall k :: Total(ys, k) == Total(zs, k) * SizeProduct(ops, CountedOut(g, tracked))
    ensures Yielded(g, ops, tracked, c, ys)
  {
    hide Evaluable, Clique, NoReadyFilter, CountedOut, Complement, SizeProduct, Total, GraphCount, Matching, Pick;
    var keep := Complement(|g.vertices|, CountedOut(g, tracked));
    InducedOfClique(g, keep);
    forall k: Key | |k| == |tracked| ensures Total(ys, k) == GraphCount(g, ops, tracked, c, k) {
      EliminateExact(g, ops, tracked, c, k);
      CliqueCount(g, ops, tracked, c, k);
      CliqueCount(Induced(g, keep), Pick(ops, keep), tracked, c, k);
    }
  }

  /** Evaluates the union components one after the other, with the entry cleared between them. */
  method UnionOperator(g: Graph, ops: seq<Trie>, tracked: seq<VarId>, mode: CountIndex, entry: Entry)
    returns (ys: seq<CountedEntry>)
    requires Ready(g, ops, tracked, mode, entry.key) && |g.vertices| > 1 && |UnionParts(g)| > 1
    modifies entry
    ensures Yielded(g, ops, tracked, Cleared(tracked, old(entry.key), DataVars(g.vertices)), ys)
    ensures AgreesOutside(tracked, old(entry.key), entry.key, DataVars(g.vertices))
    ensures DataVars(g.vertices) <= Elements(tracked) ==> AllOnes(ys)
    decreases Measure(g), 0
  {
    hide Evaluable, Clique, Yielded, DataVars, Measure, UnitedSoFar, UnionParts, Pick, GraphCount, PartsOf, BagCount;
    EvaluablePlain(g, ops, tracked);
    PlainWellFormed(g);
    ClearUsedEntryPoss(entry, tracked, DataVars(g.vertices));
    ghost var c := entry.key;
    var parts := UnionComponents(g);
    ys := [];
    UnitedStart(g, ops, tracked, c);
    for i := 0 to |parts|
      invariant entry.key == c
      invariant UnitedSoFar(g, ops, tracked, c, parts[..i], ys)
      invariant DataVars(g.vertices) <= Elements(tracked) ==> AllOnes(ys)
    {
      var part := parts[i];
      assert part in parts;
      UnionPart(g, ops, tracked, part);
      var zs := ComponentEntries(g, ops, tracked, mode, entry, part);
      ClearUsedEntryPoss(entry, tracked, DataVars(Pick(g.vertices, part)));
      ClearedBack(tracked, c, DataVars(g.vertices), DataVars(Pick(g.vertices, part)));
      UnitedStep(g, ops, tracked, c, parts[..i], part, ys, zs);
      if DataVars(g.vertices) <= Elements(tracked) {
        CliqueOnes(Induced(g, part), Pick(ops, part), tracked, c, zs);
      }
      assert parts[..i + 1] == parts[..i] + [part];
      ys := ys + zs;
    }
    assert parts[..|parts|] == parts;
    UnitedAll(g, ops, tracked, c, ys);
  }

  /** The entries of one union component. */
  method ComponentEntries(g: Graph, ops: seq<Trie>, tracked: seq<VarId>, mode: CountIndex, entry: Entry, part: seq<nat>)
    returns (zs: seq<CountedEntry>)
    requires Ready(g, ops, tracked, mode, entry.key) && Indices(part, |g.vertices|)
    requires Evaluable(Induced(g, part), Pick(ops, part), tracked) && Clique(Induced(g, part))
    requires Measure(Induced(g, part)) < Measure(g) && DataVars(Pick(g.vertices, part)) <= DataVars(g.vertices)
    requires entry.key == Cleared(tracked, entry.key, DataVars(g.vertices))
    modifies entry
    ensures Yielded(Induced(g, part), Pick(ops, part), tracked, old(entry.key), zs)
    ensures AgreesOutside(tracked, old(entry.key), entry.key, DataVars(Pick(g.vertices, part)))
    decreases Measure(g), 0, 0
  {
    hide Evaluable, Clique, Yielded, DataVars, Measure, Pick, GraphCount;
    var sub, subOps := Induced(g, part), Pick(ops, part);
    assert sub.vertices == Pick(g.vertices, part);
    ClearedTwice(tracked, entry.key, DataVars(g.vertices), DataVars(sub.vertices));
    zs := SubEntries(sub, subOps, tracked, mode, entry, AllTrackedVarsDone(sub.vertices, tracked));
  }

  lemma ClearedTwice(tracked: seq<VarId>, c: Key, d: set<VarId>, e: set<VarId>)
    requires |c| == |tracked| && c == Cleared(tracked, c, d) && e <= d
    ensures Cleared(tracked, c, e) == c
  {
    assert forall i :: 0 <= i < |c| && tracked[i] in d ==> c[i] == Cleared(tracked, c, d)[i];
  }

  lemma ClearedBack(tracked: seq<VarId>, c: Key, d: set<VarId>, e: set<VarId>)
    requires |c| == |tracked| && c == Cleared(tracked, c, d) && e <= d
    ensures forall key: Key :: AgreesOutside(tracked, c, key, e) ==> Cleared(tracked, key, e) == c
  {
    assert forall i :: 0 <= i < |c| && tracked[i] in d ==> c[i] == Cleared(tracked, c, d)[i];
  }

  lemma UnionPart(g: Graph, ops: seq<Trie>, tracked: seq<VarId>, part: seq<nat>)
    requires Evaluable(g, ops, tracked) && part in UnionParts(g) && |UnionParts(g)| > 1
    ensures Indices(part, |g.vertices|) && |g.vertices| == |ops|
    ensures Evaluable(Induced(g, part), Pick(ops, part), tracked) && Clique(Induced(g, part))
    ensures DataVars(Pick(g.vertices, part)) <= DataVars(g.vertices)
    ensures Measure(Induced(g, part)) < Measure(g)
  {
    hide Clique, Plain, Aligned, Live, FiltersOk, RepeatsTracked, DataVars, Measure, Distinct, Pick;
    PartClique(g, part);
    EvaluableInduced(g, ops, tracked, part);
    PartSmaller(ArcsOf(g.edges), |g.vertices|, part);
    PickSmaller(g, part);
  }

  lemma UnitedStart(g: Graph, ops: seq<Trie>, tracked: seq<VarId>, c: Key)
    requires |g.vertices| == |ops| && |c| == |tracked|
    ensures UnitedSoFar(g, ops, tracked, c, [], [])
  {
  }

  lemma UnitedAll(g: Graph, ops: seq<Trie>, tracked: seq<VarId>, c: Key, ys: seq<CountedEntry>)
    requires UnitedSoFar(g, ops, tracked, c, UnionParts(g), ys) && g.vertices != []
    ensures Yielded(g, ops, tracked, c, ys)
  {
    hide BagCount;
  }

  /* ---------- counting ---------- */

  /** Evaluates one operator of a graph without tracked variables: the entry's value becomes the number of solutions. */
  method GetSubCount(g: Graph, ops: seq<Trie>, tracked: seq<VarId>, entry: Entry)
    requires Evaluable(g, ops, tracked) && |g.vertices| == |ops| && |entry.key| == |tracked|
    requires AllTrackedVarsDone(g.vertices, tracked)
    modifies entry
    ensures entry.key == old(entry.key)
    ensures entry.value == GraphCount(g, ops, tracked, entry.key, entry.key)
    decreases Measure(g), 1
  {
    hide Evaluable, Clique, SomeReady, NoReadyFilter, DataVars, IscSet, InIsc, GraphCount, RightChoice;
    EvaluablePlain(g, ops, tracked);
    PlainWellFormed(g);
    var op := NextOp(g, tracked);
    if op.Union? {
      UnionCount(g, ops, tracked, entry);
      return;
    }
    SmallClique(g);
    OperatorFacts(g, ops, tracked, op);
    EvaluableFacts(g, ops, tracked);
    match op {
      case Join => JoinCount(g, ops, tracked, entry);
      case Count => CountOperator(g, ops, tracked, entry);
      case Cartesian => CartesianCountOperator(g, ops, tracked, entry);
      case Filter => FilterCount(g, ops, tracked, entry);
      case EntryGenerator => EntryGeneratorOperator(g, ops, tracked, entry);
      case Resolve =>
        ResolveNotScheduled(g, ops, tracked);
        assert false;
      case LeftJoin => assert false;
      case FilterAlt => assert false;
    }
  }

  /** An operand with a variable is never resolved once no tracked variable is left. */
  lemma ResolveNotScheduled(g: Graph, ops: seq<Trie>, tracked: seq<VarId>)
    requires Evaluable(g, ops, tracked) && |g.vertices| == 1 && g.vertices[0].Operand?
    requires AllTrackedVarsDone(g.vertices, tracked)
    ensures !(Elements(g.vertices[0].vars) <= Elements(tracked))
  {
    var x := g.vertices[0].vars[0];
    assert x in Elements(g.vertices[0].vars) && x in DataVars(g.vertices);
  }

  method EntryGeneratorOperator(g: Graph, ops: seq<Trie>, tracked: seq<VarId>, entry: Entry)
    requires g.vertices == [] && ops == [] && |entry.key| == |tracked|
    modifies entry
    ensures entry.key == old(entry.key)
    ensures entry.value == GraphCount(g, ops, tracked, entry.key, entry.key)
  {
    EmptyMatching(tracked, entry.key);
    SingleClique(g);
    CliqueCount(g, ops, tracked, entry.key, entry.key);
    entry.SetValue(1);
  }

  /** Counts the one operand that is left. */
  method CountOperator(g: Graph, ops: seq<Trie>, tracked: seq<VarId>, entry: Entry)
    requires |g.vertices| == |ops| == 1 && |entry.key| == |tracked| && Aligned(g.vertices, ops)
    requires g.vertices[0].Operand? && Distinct(g.vertices[0].vars)
    requires Elements(g.vertices[0].vars) !! Elements(tracked)
    modifies entry
    ensures entry.key == old(entry.key)
    ensures entry.value == GraphCount(g, ops, tracked, entry.key, entry.key)
  {
    hide GraphCount, Matching;
    assert g.vertices == [g.vertices[0]] && ops == [ops[0]];
    AlignedHere(g.vertices, ops, 0);
    CountMatching(g.vertices[0], ops[0], tracked, entry.key);
    SingleClique(g);
    CliqueCount(g, ops, tracked, entry.key, entry.key);
    entry.SetValue(|ops[0].rows|);
  }

  method JoinCount(g: Graph, ops: seq<Trie>, tracked: seq<VarId>, entry: Entry)
    requires Evaluable(g, ops, tracked) && |g.vertices| == |ops| && |entry.key| == |tracked|
    requires AllTrackedVarsDone(g.vertices, tracked) && Clique(g) && DataVars(g.vertices) != {}
    modifies entry
    ensures entry.key == old(entry.key)
    ensures entry.value == GraphCount(g, ops, tracked, entry.key, entry.key)
    decreases Measure(g), 0
  {
    hide *;
    ghost var c := entry.key;
    DoneCleared(tracked, entry.key, g.vertices);
    ClearUsedEntryPoss(entry, tracked, DataVars(g.vertices));
    var evalVar := GetMinCardLabel(g);
    UntrackedVar(g, tracked, evalVar);
    var sub := RemoveVarId(g, evalVar);
    var poss := VarPositions(g.vertices, evalVar);
    var rest := JoinKeys(ops, poss);
    ghost var keys := rest;
    var value := 0;
    NothingResolved(Matching(g.vertices, ops, tracked, c, c), evalVar);
    assert keys - rest == {};
    while rest != {}
      invariant rest <= keys && entry.key == c
      invariant value == |ResolvedIn(Matching(g.vertices, ops, tracked, c, c), evalVar, keys - rest)|
      decreases rest
    {
      var v :| v in rest;
      var subOps := JoinSlices(ops, poss, v);
      JoinFacts(g, ops, tracked, evalVar, v, sub, subOps);
      GetSubCount(sub, subOps, tracked, entry);
      CountedStep(g, ops, tracked, c, evalVar, keys - rest, v, sub, subOps);
      DoneStep(keys, rest, v);
      value := value + entry.value;
      rest := rest - {v};
    }
    assert keys - rest == keys;
    CountedAll(g, ops, tracked, c, evalVar);
    entry.SetValue(value);
  }

  method CartesianCountOperator(g: Graph, ops: seq<Trie>, tracked: seq<VarId>, entry: Entry)
    requires Evaluable(g, ops, tracked) && |g.vertices| == |ops| && |entry.key| == |tracked|
    requires AllTrackedVarsDone(g.vertices, tracked) && Clique(g) && |CartesianParts(g)| > 1
    modifies entry
    ensures entry.key == old(entry.key)
    ensures entry.value == GraphCount(g, ops, tracked, entry.key, entry.key)
    decreases Measure(g), 0, 3
  {
    hide Evaluable, Clique, Yielded, DataVars, Measure, Pick, CartesianParts, PartResults, AllMaterialized, PartPositions, ProductShape, VectorOf, Weight, GraphCount, Shown, OneEach, AllTrackedVarsDone;
    EvaluableFacts(g, ops, tracked);
    PlainWellFormed(g);
    DoneCleared(tracked, entry.key, g.vertices);
    ClearUsedEntryPoss(entry, tracked, DataVars(g.vertices));
    ghost var c := entry.key;
    var parts := CartesianComponents(g, Range(|g.vertices|));
    PartsAre(g);
    forall i | 0 <= i < |parts|
      ensures Indices(parts[i], |g.vertices|) && Clique(Induced(g, parts[i])) && AllTrackedVarsDone(Pick(g.vertices, parts[i]), tracked)
    {
      assert parts[i] in parts;
      CartesianPart(g, ops, tracked, parts[i]);
      PartDone(g.vertices, parts[i], tracked);
    }
    var resultPoss := ComponentPositions(g.vertices, parts, tracked);
    var iterated: nat :| iterated < |parts|;
    var maps := GetSubResults(g, ops, tracked, ByOperand, entry.key, parts, iterated);
    if maps == [] {
      YieldedAt(g, ops, tracked, c, [], c);
      entry.SetValue(0);
      return;
    }
    MaterializedLength(g, ops, tracked, c, iterated, maps);
    PositionsLength(g.vertices, parts, tracked);
    var calculated := new FullCartesianResult(maps, entry, iterated, resultPoss);
    CountedSubs(g, ops, tracked, c, iterated, maps, calculated.subResults, |tracked|);
    var subEntry := new Entry(entry.key, 1);
    CartesianPart(g, ops, tracked, parts[iterated]);
    GetSubCount(Induced(g, parts[iterated]), Pick(ops, parts[iterated]), tracked, subEntry);
    ghost var zs := if subEntry.value == 0 then [] else [CountedEntry(c, subEntry.value)];
    CountYields(Induced(g, parts[iterated]), Pick(ops, parts[iterated]), tracked, c, subEntry.value);
    PartResultsOf(g, ops, tracked, c, iterated, maps, calculated.subResults, zs, |tracked|);
    ProductShapeOf(g, ops, tracked, c, iterated, calculated.subResults, zs);
    ShapeOf(calculated.subResults, calculated.resultPoss, resultPoss[iterated], |tracked|);
    calculated.Restart();
    ShownSame(c, calculated.subResults, calculated.resultPoss, calculated.iterPoss, |calculated.subResults|);
    ProductCounts(g, ops, tracked, c, iterated, calculated.subResults, calculated.iterPoss, subEntry.value);
    var otherSubsValue := calculated.Deref();
    entry.SetValue(subEntry.value * otherSubsValue);
  }

  lemma DoneCleared(tracked: seq<VarId>, c: Key, vs: seq<Vertex>)
    requires |c| == |tracked| && AllTrackedVarsDone(vs, tracked)
    ensures Cleared(tracked, c, DataVars(vs)) == c
  {
    ClearedDone(tracked, c, DataVars(vs));
  }

  lemma PartDone(vs: seq<Vertex>, part: seq<nat>, tracked: seq<VarId>)
    requires Indices(part, |vs|) && AllTrackedVarsDone(vs, tracked)
    ensures AllTrackedVarsDone(Pick(vs, part), tracked)
  {
    PartWithin(vs, part);
  }

  lemma NothingResolved(s: set<Binding>, x: VarId)
    ensures |ResolvedIn(s, x, {})| == 0
  {
    assert ResolvedIn(s, x, {}) == {};
  }

  lemma UntrackedVar(g: Graph, tracked: seq<VarId>, x: VarId)
    requires AllTrackedVarsDone(g.vertices, tracked) && x in DataVars(g.vertices)
    ensures x !in tracked
  {
    assert x in tracked ==> x in Elements(tracked);
  }

  method FilterCount(g: Graph, ops: seq<Trie>, tracked: seq<VarId>, entry: Entry)
    requires Evaluable(g, ops, tracked) && |g.vertices| == |ops| && |entry.key| == |tracked|
    requires AllTrackedVarsDone(g.vertices, tracked) && Clique(g)
    requires exists p: nat :: p < |g.vertices| && ReadyFilter(g.vertices[p], DataVars(g.vertices))
    modifies entry
    ensures entry.key == old(entry.key)
    ensures entry.value == GraphCount(g, ops, tracked, entry.key, entry.key)
    decreases Measure(g), 0
  {
    hide Clique, Plain, Aligned, Live, FiltersOk, RepeatsTracked, DataVars, Measure, Distinct, Complement, Holds, Pick, GraphCount;
    PlainWellFormed(g);
    var filters, result := EvaluateFilters(g, tracked, entry.key);
    FiltersRemoved(g, ops, tracked, filters);
    FilteredCount(g, ops, tracked, entry.key, filters, result);
    if !result {
      entry.SetValue(0);
      return;
    }
    var sub, originalPositions := RemoveVertices(g, filters);
    GetSubCount(sub, Pick(ops, originalPositions), tracked, entry);
  }

  method UnionCount(g: Graph, ops: seq<Trie>, tracked: seq<VarId>, entry: Entry)
    requires Evaluable(g, ops, tracked) && |g.vertices| == |ops| && |entry.key| == |tracked|
    requires AllTrackedVarsDone(g.vertices, tracked) && |g.vertices| > 1 && |UnionParts(g)| > 1
    modifies entry
    ensures entry.key == old(entry.key)
    ensures entry.value == GraphCount(g, ops, tracked, entry.key, entry.key)
    decreases Measure(g), 0
  {
    hide Evaluable, Clique, DataVars, Measure, UnionParts, Pick, BagCount, Matching;
    EvaluablePlain(g, ops, tracked);
    PlainWellFormed(g);
    ghost var c := entry.key;
    ClearedDone(tracked, entry.key, DataVars(g.vertices));
    ClearUsedEntryPoss(entry, tracked, DataVars(g.vertices));
    var parts := UnionComponents(g);
    var value := 0;
    BagNone(g.vertices, ops, tracked, c);
    for i := 0 to |parts|
      invariant entry.key == c
      invariant forall p :: p in parts[..i] ==> Indices(p, |g.vertices|)
      invariant value == BagCount(g.vertices, ops, parts[..i], tracked, c, c)
    {
      hide GraphCount;
      var part := parts[i];
      assert part in parts;
      UnionPart(g, ops, tracked, part);
      GetSubCount(Induced(g, part), Pick(ops, part), tracked, entry);
      CountedUnionStep(g, ops, tracked, c, parts[..i], part);
      assert parts[..i + 1] == parts[..i] + [part];
      value := value + entry.value;
    }
    assert parts[..|parts|] == parts;
    entry.SetValue(value);
  }

  lemma BagNone(vs: seq<Vertex>, ops: seq<Trie>, tracked: seq<VarId>, c: Key)
    requires |vs| == |ops| && |c| == |tracked|
    ensures BagCount(vs, ops, [], tracked, c, c) == 0
  {
  }
}
