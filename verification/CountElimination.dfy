/**
 Counting out operands without tracked variables before a cartesian product is
 formed: when the number of their solutions is the product of their sizes, and
 exactly when the factor as written is this number.
 */
module CountElimination {
  import opened Reachability
  import opened Graphs
  import opened Tries
  import opened Projection
  import opened JoinProof
  import opened ProductProof
  import opened LeafProof
  import opened DependencyGraph
  import opened EngineFacts
  import opened CartesianProof

  /** Which operand's size is taken for a counted component: that of its vertex, or the one at the component's number. */
  datatype CountIndex = ByOperand | ByComponent

  function SizeProduct(ops: seq<Trie>, positions: seq<nat>): nat
    requires Indices(positions, |ops|)
  {
    if positions == [] then 1 else SizeProduct(ops, Init(positions)) * |ops[Last(positions)].rows|
  }

  function Singles(positions: seq<nat>): (r: seq<seq<nat>>)
    ensures |r| == |positions| && forall i :: 0 <= i < |r| ==> r[i] == [positions[i]]
  {
    seq(|positions|, i requires 0 <= i < |positions| => [positions[i]])
  }

  /** Operands that can be counted out: no tracked variable, no repeated variable, nothing shared. */
  ghost predicate Countable(vs: seq<Vertex>, ops: seq<Trie>, tracked: seq<VarId>, removed: seq<nat>) {
    && Aligned(vs, ops) && Indices(removed, |vs|)
    && forall i :: 0 <= i < |removed| ==>
         vs[removed[i]].Operand? && Distinct(vs[removed[i]].vars)
         && Elements(vs[removed[i]].vars) !! Elements(tracked)
  }

  lemma SingleCount(vs: seq<Vertex>, ops: seq<Trie>, tracked: seq<VarId>, removed: seq<nat>, i: nat, c: Key, k: Key)
    requires Countable(vs, ops, tracked, removed) && i < |removed| && |c| == |tracked| == |k|
    ensures |vs| == |ops| && PartCount(vs, ops, [removed[i]], tracked, c, k) == |ops[removed[i]].rows|
  {
    var u := removed[i];
    assert Pick(vs, [u]) == [vs[u]] && Pick(ops, [u]) == [ops[u]];
    SingleVars(vs[u]);
    assert forall j :: 0 <= j < |tracked| ==> tracked[j] in Elements(tracked);
    assert PartKey(tracked, c, k, Elements(vs[u].vars)) == c;
    assert AlignedAt(vs[u], ops[u]);
    CountMatching(vs[u], ops[u], tracked, c);
  }

  lemma PartsSnoc(vs: seq<Vertex>, ops: seq<Trie>, parts: seq<seq<nat>>, p: seq<nat>, tracked: seq<VarId>, c: Key, k: Key)
    requires |vs| == |ops| && |c| == |tracked| == |k|
    requires Indices(p, |vs|) && forall i :: 0 <= i < |parts| ==> Indices(parts[i], |vs|)
    ensures forall i :: 0 <= i < |parts + [p]| ==> Indices((parts + [p])[i], |vs|)
    ensures PartsProduct(vs, ops, parts + [p], tracked, c, k)
         == PartsProduct(vs, ops, parts, tracked, c, k) * PartCount(vs, ops, p, tracked, c, k)
  {
    assert Init(parts + [p]) == parts;
  }

  lemma Reassociate(p: nat, s: nat, l: nat)
    ensures (p * s) * l == p * (s * l)
  {
  }

  lemma SinglesIndices(n: nat, keep: seq<nat>, removed: seq<nat>)
    requires Indices(keep, n) && Indices(removed, n)
    ensures var parts := [keep] + Singles(removed);
            forall i :: 0 <= i < |parts| ==> Indices(parts[i], n)
    ensures removed != [] ==>
              Indices(Init(removed), n) && [keep] + Singles(removed) == ([keep] + Singles(Init(removed))) + [[Last(removed)]]
  {
  }

  lemma {:induction false} SinglesCount(vs: seq<Vertex>, ops: seq<Trie>, tracked: seq<VarId>,
                                        keep: seq<nat>, removed: seq<nat>, c: Key, k: Key)
    requires Countable(vs, ops, tracked, removed) && |c| == |tracked| == |k| && Indices(keep, |vs|)
    requires |vs| == |ops| && Indices(removed, |ops|)
    requires forall i :: 0 <= i < |[keep] + Singles(removed)| ==> Indices(([keep] + Singles(removed))[i], |vs|)
    ensures PartsProduct(vs, ops, [keep] + Singles(removed), tracked, c, k)
         == PartCount(vs, ops, keep, tracked, c, k) * SizeProduct(ops, removed)
  {
    hide PartCount, PartsProduct, Singles;
    SinglesIndices(|vs|, keep, removed);
    if removed == [] {
      assert [keep] + Singles(removed) == [] + [keep];
      PartsSnoc(vs, ops, [], keep, tracked, c, k);
      PartsEmpty(vs, ops, tracked, c, k);
    } else {
      var before := Init(removed);
      SinglesIndices(|vs|, keep, before);
      SinglesCount(vs, ops, tracked, keep, before, c, k);
      SingleCount(vs, ops, tracked, removed, |removed| - 1, c, k);
      PartsSnoc(vs, ops, [keep] + Singles(before), [Last(removed)], tracked, c, k);
      Reassociate(PartCount(vs, ops, keep, tracked, c, k), SizeProduct(ops, before), |ops[Last(removed)].rows|);
    }
  }

  lemma PartsEmpty(vs: seq<Vertex>, ops: seq<Trie>, tracked: seq<VarId>, c: Key, k: Key)
    requires |vs| == |ops| && |c| == |tracked| == |k|
    ensures PartsProduct(vs, ops, [], tracked, c, k) == 1
  {
  }

  /** What is kept and each removed vertex share no variable with the rest. */
  ghost predicate AllApart(vs: seq<Vertex>, keep: seq<nat>, removed: seq<nat>) {
    PartsFit(vs, [keep] + Singles(removed))
  }

  lemma RemovedVars(vs: seq<Vertex>, ops: seq<Trie>, tracked: seq<VarId>, removed: seq<nat>, x: VarId, i: nat)
    requires Countable(vs, ops, tracked, removed) && i < |vs| && vs[i].Operand? && x in vs[i].vars
    requires x in tracked
    ensures x in DataVars(Pick(vs, Complement(|vs|, removed)))
  {
    hide Complement, Pick, DataVars;
    TrackedNotRemoved(vs, ops, tracked, removed, x, i);
    PickedVar(vs, Complement(|vs|, removed), i, x);
  }

  lemma TrackedNotRemoved(vs: seq<Vertex>, ops: seq<Trie>, tracked: seq<VarId>, removed: seq<nat>, x: VarId, i: nat)
    requires Countable(vs, ops, tracked, removed) && i < |vs| && x in vs[i].vars && x in tracked
    ensures i !in removed
  {
    assert x in Elements(vs[i].vars) && x in Elements(tracked);
  }

  lemma TrackedStay(vs: seq<Vertex>, ops: seq<Trie>, tracked: seq<VarId>, removed: seq<nat>, c: Key, k: Key)
    requires Countable(vs, ops, tracked, removed) && |c| == |tracked| == |k|
    ensures AgreesOutside(tracked, c, k, DataVars(Pick(vs, Complement(|vs|, removed))))
       <==> AgreesOutside(tracked, c, k, DataVars(vs))
  {
    hide DataVars, Complement, Pick, Countable;
    assert Countable(vs, ops, tracked, removed);
    var keep := Complement(|vs|, removed);
    PickDataVars(vs, keep, Range(|vs|));
    PickAll(vs);
    forall x | x in tracked && x in DataVars(vs) ensures x in DataVars(Pick(vs, keep)) {
      var i :| 0 <= i < |vs| && vs[i].Operand? && x in vs[i].vars;
      RemovedVars(vs, ops, tracked, removed, x, i);
    }
  }

  lemma FlatHas(parts: seq<seq<nat>>, j: nat, v: nat)
    requires j < |parts| && v in parts[j]
    ensures v in Flat(parts)
  {
    assert parts[j] in parts;
  }

  lemma KeptOrRemoved(vs: seq<Vertex>, removed: seq<nat>)
    requires Indices(removed, |vs|)
    ensures SameMembers(Flat([Complement(|vs|, removed)] + Singles(removed)), Range(|vs|))
  {
    hide Flat, Complement, Range;
    var keep := Complement(|vs|, removed);
    var parts := [keep] + Singles(removed);
    forall v | v in Range(|vs|) ensures v in Flat(parts) {
      if v in removed {
        var j :| 0 <= j < |removed| && removed[j] == v;
        FlatHas(parts, j + 1, v);
      } else {
        FlatHas(parts, 0, v);
      }
    }
    forall v | v in Flat(parts) ensures v in Range(|vs|) {
      var p :| p in parts && v in p;
      var j :| 0 <= j < |parts| && parts[j] == p;
      if j > 0 {
        assert p == [removed[j - 1]];
      }
    }
  }

  /** Counting out multiplies: the solutions that project to k, without the counted operands, times their sizes. */
  lemma CountOut(vs: seq<Vertex>, ops: seq<Trie>, tracked: seq<VarId>, removed: seq<nat>, c: Key, k: Key)
    requires Countable(vs, ops, tracked, removed) && |c| == |tracked| == |k| && |vs| == |ops|
    requires FiltersOk(vs, tracked) && AllApart(vs, Complement(|vs|, removed), removed)
    ensures |Matching(vs, ops, tracked, c, k)|
         == |Matching(Pick(vs, Complement(|vs|, removed)), Pick(ops, Complement(|vs|, removed)), tracked, c, k)|
            * SizeProduct(ops, removed)
  {
    var keep := Complement(|vs|, removed);
    var parts := [keep] + Singles(removed);
    hide *;
    CountableIndices(vs, ops, tracked, removed);
    TrackedStay(vs, ops, tracked, removed, c, k);
    if AgreesOutside(tracked, c, k, DataVars(vs)) {
      AllApartFit(vs, keep, removed);
      PartsMultiply(vs, ops, parts, tracked, c, k);
      KeptOrRemoved(vs, removed);
      SinglesIndices(|vs|, keep, removed);
      WholePart(vs, ops, Flat(parts), tracked, c, k);
      SinglesCount(vs, ops, tracked, keep, removed, c, k);
      PartWhole(vs, ops, keep, tracked, c, k);
    } else {
      MatchingOutside(vs, ops, tracked, c, k);
      MatchingOutside(Pick(vs, keep), Pick(ops, keep), tracked, c, k);
    }
  }

  lemma PartWhole(vs: seq<Vertex>, ops: seq<Trie>, keep: seq<nat>, tracked: seq<VarId>, c: Key, k: Key)
    requires |vs| == |ops| && Indices(keep, |vs|) && |c| == |tracked| == |k|
    requires AgreesOutside(tracked, c, k, DataVars(Pick(vs, keep)))
    ensures PartCount(vs, ops, keep, tracked, c, k) == |Matching(Pick(vs, keep), Pick(ops, keep), tracked, c, k)|
  {
    PartKeyWhole(tracked, c, k, DataVars(Pick(vs, keep)));
  }

  lemma CountableIndices(vs: seq<Vertex>, ops: seq<Trie>, tracked: seq<VarId>, removed: seq<nat>)
    requires Countable(vs, ops, tracked, removed)
    ensures Indices(removed, |vs|) && |vs| == |ops|
  {
  }

  lemma AllApartFit(vs: seq<Vertex>, keep: seq<nat>, removed: seq<nat>)
    requires AllApart(vs, keep, removed)
    ensures PartsFit(vs, [keep] + Singles(removed))
  {
  }

  /* ---------- the components that are counted out ---------- */

  ghost predicate NoReadyFilter(vs: seq<Vertex>) {
    forall i :: 0 <= i < |vs| ==> !ReadyFilter(vs[i], DataVars(vs))
  }

  predicate IsCount(vs: seq<Vertex>, part: seq<nat>, tracked: seq<VarId>) {
    |part| == 1 && Indices(part, |vs|) && AllTrackedVarsDone(Pick(vs, part), tracked)
  }

  /** The numbers of the components that consist of one vertex without tracked variables. */
  function CountPositions(vs: seq<Vertex>, parts: seq<seq<nat>>, tracked: seq<VarId>): (positions: seq<nat>)
    ensures forall i: nat :: i in positions <==> i < |parts| && IsCount(vs, parts[i], tracked)
    ensures Increasing(positions) && Indices(positions, |parts|)
  {
    if parts == [] then []
    else
      var before := CountPositions(vs, Init(parts), tracked);
      if IsCount(vs, Last(parts), tracked) then KeptAppend(before, |parts| - 1); before + [|parts| - 1] else before
  }

  /** The vertices of these components. */
  function FirstVertices(parts: seq<seq<nat>>, positions: seq<nat>): (r: seq<nat>)
    requires forall i :: 0 <= i < |positions| ==> positions[i] < |parts| && parts[positions[i]] != []
    ensures |r| == |positions| && forall i :: 0 <= i < |r| ==> r[i] == parts[positions[i]][0]
  {
    if positions == [] then [] else FirstVertices(parts, Init(positions)) + [parts[Last(positions)][0]]
  }

  lemma PositionShape(vs: seq<Vertex>, parts: seq<seq<nat>>, tracked: seq<VarId>, i: nat)
    requires i < |CountPositions(vs, parts, tracked)|
    ensures var p := CountPositions(vs, parts, tracked)[i];
            p < |parts| && IsCount(vs, parts[p], tracked) && parts[p] == [parts[p][0]]
  {
    var positions := CountPositions(vs, parts, tracked);
    assert positions[i] in positions;
  }

  /** The vertices counted out of a clique. */
  ghost function CountedOut(g: Graph, tracked: seq<VarId>): (removed: seq<nat>)
  {
    var positions := CountPositions(g.vertices, CartesianParts(g), tracked);
    assert forall i :: 0 <= i < |positions| ==> positions[i] in positions;
    FirstVertices(CartesianParts(g), positions)
  }

  /** Each counted vertex is a cartesian component of its own. */
  lemma CountedAlone(g: Graph, tracked: seq<VarId>, i: nat)
    requires i < |CountedOut(g, tracked)|
    ensures CountedOut(g, tracked)[i] < |g.vertices|
    ensures [CountedOut(g, tracked)[i]] in CartesianParts(g)
    ensures DataVars([g.vertices[CountedOut(g, tracked)[i]]]) !! Elements(tracked)
  {
    PositionShape(g.vertices, CartesianParts(g), tracked, i);
    var p := CountPositions(g.vertices, CartesianParts(g), tracked)[i];
    var u := CartesianParts(g)[p][0];
    assert Pick(g.vertices, [u]) == [g.vertices[u]];
  }

  lemma CountedDistinct(g: Graph, tracked: seq<VarId>, i: nat, j: nat)
    requires i < j < |CountedOut(g, tracked)|
    ensures CountedOut(g, tracked)[i] != CountedOut(g, tracked)[j]
  {
    PositionShape(g.vertices, CartesianParts(g), tracked, i);
    PositionShape(g.vertices, CartesianParts(g), tracked, j);
    var positions := CountPositions(g.vertices, CartesianParts(g), tracked);
    ComponentsDisjoint(CartesianArcs(g, Elements(Range(|g.vertices|))), |g.vertices|, positions[i], positions[j],
                       CountedOut(g, tracked)[i]);
  }

  lemma CountedOperand(g: Graph, tracked: seq<VarId>, i: nat)
    requires Plain(g) && Clique(g) && NoReadyFilter(g.vertices) && i < |CountedOut(g, tracked)|
    ensures CountedOut(g, tracked)[i] < |g.vertices| && g.vertices[CountedOut(g, tracked)[i]].Operand?
  {
    hide Plain, Clique, CountedOut, CartesianParts;
    CountedAlone(g, tracked, i);
    var u := CountedOut(g, tracked)[i];
    assert !ReadyFilter(g.vertices[u], DataVars(g.vertices));
    if g.vertices[u].FilterVertex? {
      var x :| x in g.vertices[u].vars && x in DataVars(g.vertices);
      var w :| 0 <= w < |g.vertices| && g.vertices[w].Operand? && x in g.vertices[w].vars;
      PartsAre(g);
      CartesianApart(g, [u], u, w, x);
    }
  }

  lemma PartsAre(g: Graph)
    ensures CartesianParts(g) == Components(CartesianArcs(g, Elements(Range(|g.vertices|))), |g.vertices|)
  {
  }

  lemma CountedCountable(g: Graph, ops: seq<Trie>, tracked: seq<VarId>)
    requires Evaluable(g, ops, tracked) && Clique(g) && NoReadyFilter(g.vertices)
    ensures Countable(g.vertices, ops, tracked, CountedOut(g, tracked))
  {
    hide Plain, Clique, CountedOut, CartesianParts, RepeatsTracked, NoReadyFilter;
    var removed := CountedOut(g, tracked);
    forall i | 0 <= i < |removed|
      ensures removed[i] < |g.vertices| && g.vertices[removed[i]].Operand? && Distinct(g.vertices[removed[i]].vars)
      ensures Elements(g.vertices[removed[i]].vars) !! Elements(tracked)
    {
      CountedOperand(g, tracked, i);
      CountedAlone(g, tracked, i);
      SingleVars(g.vertices[removed[i]]);
      DistinctWhenUntracked(g.vertices, tracked, removed[i]);
    }
  }

  /** A vertex that shares a variable with a counted vertex is that vertex. */
  lemma CountedShares(g: Graph, tracked: seq<VarId>, i: nat, w: nat, x: VarId)
    requires Plain(g) && Clique(g) && i < |CountedOut(g, tracked)| && w < |g.vertices|
    ensures CountedOut(g, tracked)[i] < |g.vertices|
    ensures x in g.vertices[CountedOut(g, tracked)[i]].vars && x in g.vertices[w].vars ==> w == CountedOut(g, tracked)[i]
  {
    hide Plain, Clique, CountedOut, CartesianParts;
    CountedAlone(g, tracked, i);
    PartsAre(g);
    var u := CountedOut(g, tracked)[i];
    if x in g.vertices[u].vars && x in g.vertices[w].vars {
      CartesianApart(g, [u], u, w, x);
    }
  }

  lemma CountedApart(g: Graph, tracked: seq<VarId>)
    requires Plain(g) && Clique(g)
    ensures Indices(CountedOut(g, tracked), |g.vertices|)
    ensures AllApart(g.vertices, Complement(|g.vertices|, CountedOut(g, tracked)), CountedOut(g, tracked))
  {
    hide Plain, Clique, CountedOut, CartesianParts, Complement;
    var vs, removed := g.vertices, CountedOut(g, tracked);
    var keep := Complement(|vs|, removed);
    forall i | 0 <= i < |removed| ensures removed[i] < |vs| {
      CountedAlone(g, tracked, i);
    }
    SinglesIndices(|vs|, keep, removed);
    var parts := [keep] + Singles(removed);
    forall i, j | 0 <= i < |parts| && 0 <= j < |parts| && i != j ensures ApartLists(vs, parts[i], parts[j]) {
      forall u, w, x | u in parts[i] && w in parts[j] && x in vs[u].vars ensures x !in vs[w].vars {
        if i > 0 {
          CountedShares(g, tracked, i - 1, w, x);
          if j > 0 {
            CountedDistinct(g, tracked, if i < j then i - 1 else j - 1, if i < j then j - 1 else i - 1);
          }
        } else {
          CountedShares(g, tracked, j - 1, u, x);
        }
      }
    }
  }

  /* ---------- the elimination ---------- */

  lemma {:induction false} ComponentsFew(es: Arcs, n: nat, m: nat)
    ensures |ComponentsBelow(es, n, m)| <= m
  {
    if m > 0 {
      ComponentsFew(es, n, m - 1);
    }
  }

  /** The numbers of the counted components of a clique. */
  ghost function CountedPositions(g: Graph, tracked: seq<VarId>): (positions: seq<nat>)
    ensures Increasing(positions) && Indices(positions, |CartesianParts(g)|)
  {
    CountPositions(g.vertices, CartesianParts(g), tracked)
  }

  /** The positions whose operands' sizes are multiplied. */
  ghost function SizedPositions(g: Graph, tracked: seq<VarId>, mode: CountIndex): seq<nat> {
    if mode.ByOperand? then CountedOut(g, tracked) else CountedPositions(g, tracked)
  }

  lemma SizedIndices(g: Graph, tracked: seq<VarId>, mode: CountIndex)
    ensures Indices(SizedPositions(g, tracked, mode), |g.vertices|)
    ensures |SizedPositions(g, tracked, mode)| == |CountedOut(g, tracked)| == |CountedPositions(g, tracked)|
    ensures forall i :: 0 <= i < |CountedPositions(g, tracked)| ==>
              CountedPositions(g, tracked)[i] < |CartesianParts(g)| && CartesianParts(g)[CountedPositions(g, tracked)[i]] != []
              && CountedOut(g, tracked)[i] == CartesianParts(g)[CountedPositions(g, tracked)[i]][0]
  {
    ComponentsFew(CartesianArcs(g, Elements(Range(|g.vertices|))), |g.vertices|, |g.vertices|);
    forall i | 0 <= i < |CountedOut(g, tracked)| ensures CountedOut(g, tracked)[i] < |g.vertices| {
      CountedAlone(g, tracked, i);
    }
    forall i | 0 <= i < |CountedPositions(g, tracked)|
      ensures CountedPositions(g, tracked)[i] < |CartesianParts(g)| && CartesianParts(g)[CountedPositions(g, tracked)[i]] != []
    {
      PositionShape(g.vertices, CartesianParts(g), tracked, i);
    }
  }

  /** Finds the counted components: their numbers, in increasing order. */
  method FindCounts(vs: seq<Vertex>, parts: seq<seq<nat>>, tracked: seq<VarId>) returns (positions: seq<nat>)
    requires forall i :: 0 <= i < |parts| ==> Indices(parts[i], |vs|)
    ensures positions == CountPositions(vs, parts, tracked)
  {
    positions := [];
    for i := 0 to |parts|
      invariant positions == CountPositions(vs, parts[..i], tracked)
    {
      assert Init(parts[..i + 1]) == parts[..i];
      if |parts[i]| == 1 && AllTrackedVarsDone(Pick(vs, parts[i]), tracked) {
        positions := positions + [i];
      }
    }
    assert parts[..|parts|] == parts;
  }

  lemma SizeSnoc(ops: seq<Trie>, positions: seq<nat>, p: nat)
    requires Indices(positions, |ops|) && p < |ops|
    ensures Indices(positions + [p], |ops|)
    ensures SizeProduct(ops, positions + [p]) == SizeProduct(ops, positions) * |ops[p].rows|
  {
    assert Init(positions + [p]) == positions;
  }

  /**
   Counts out the untracked components of one vertex: the graph and operands
   without them, and the product of the sizes of the operands that the reading
   of the operand index selects.
   */
  method EliminateCounts(g: Graph, ops: seq<Trie>, tracked: seq<VarId>, mode: CountIndex)
    returns (found: bool, sub: Graph, subOps: seq<Trie>, countsResult: nat)
    requires WellFormed(g) && |g.vertices| == |ops|
    ensures found <==> CountedOut(g, tracked) != []
    ensures found ==> sub == Induced(g, Complement(|g.vertices|, CountedOut(g, tracked)))
    ensures found ==> subOps == Pick(ops, Complement(|g.vertices|, CountedOut(g, tracked)))
    ensures Indices(SizedPositions(g, tracked, mode), |ops|)
    ensures found ==> countsResult == SizeProduct(ops, SizedPositions(g, tracked, mode))
  {
    hide CountedOut, CountedPositions, CartesianParts, CountPositions, SizeProduct, Complement, Pick;
    sub, subOps, countsResult := g, ops, 1;
    SizedIndices(g, tracked, mode);
    var isc := Range(|g.vertices|);
    var parts := CartesianComponents(g, isc);
    PartsAre(g);
    forall i | 0 <= i < |parts| ensures Indices(parts[i], |g.vertices|) { CartesianPartShape(g, parts[i]); }
    var positions := FindCounts(g.vertices, parts, tracked);
    CountedPositionsAre(g, tracked);
    found := positions != [];
    if !found {
      return;
    }
    var toRemove: seq<nat> := [];
    ghost var sized := SizedPositions(g, tracked, mode);
    SizeNone(ops);
    for i := 0 to |positions|
      invariant toRemove == CountedOut(g, tracked)[..i]
      invariant countsResult == SizeProduct(ops, sized[..i])
    {
      var operandPos := parts[positions[i]][0];
      var index := if mode.ByOperand? then operandPos else positions[i];
      assert index == sized[i];
      assert sized[..i + 1] == sized[..i] + [sized[i]];
      assert CountedOut(g, tracked)[..i + 1] == CountedOut(g, tracked)[..i] + [operandPos];
      SizeSnoc(ops, sized[..i], index);
      countsResult := countsResult * |ops[index].rows|;
      toRemove := toRemove + [operandPos];
    }
    assert sized[..|positions|] == sized && CountedOut(g, tracked)[..|positions|] == CountedOut(g, tracked);
    var originalPositions;
    sub, originalPositions := RemoveVertices(g, toRemove);
    subOps := Pick(ops, originalPositions);
  }

  lemma CountedPositionsAre(g: Graph, tracked: seq<VarId>)
    ensures CountedPositions(g, tracked) == CountPositions(g.vertices, CartesianParts(g), tracked)
  {
  }

  lemma SizeNone(ops: seq<Trie>)
    ensures SizeProduct(ops, []) == 1
  {
  }

  /** With every variable tracked there is nothing to count out. */
  lemma NothingCounted(g: Graph, ops: seq<Trie>, tracked: seq<VarId>)
    requires Evaluable(g, ops, tracked) && Clique(g) && NoReadyFilter(g.vertices)
    requires DataVars(g.vertices) <= Elements(tracked)
    ensures CountedOut(g, tracked) == []
  {
    hide Plain, Clique, CountedOut, CartesianParts, RepeatsTracked, NoReadyFilter, Aligned, FiltersOk;
    if CountedOut(g, tracked) != [] {
      CountedOperand(g, tracked, 0);
      CountedAlone(g, tracked, 0);
      SingleVars(g.vertices[CountedOut(g, tracked)[0]]);
      OwnVar(g.vertices, ops, CountedOut(g, tracked)[0]);
    }
  }

  lemma OwnVar(vs: seq<Vertex>, ops: seq<Trie>, i: nat)
    requires Live(vs, ops) && i < |vs| && vs[i].Operand?
    ensures exists x :: x in Elements(vs[i].vars) && x in DataVars(vs)
  {
    assert vs[i].vars[0] in Elements(vs[i].vars) && vs[i].vars[0] in DataVars(vs);
  }

  /** Counting out, with the sizes of the counted operands themselves, multiplies the solutions of the rest. */
  lemma EliminateExact(g: Graph, ops: seq<Trie>, tracked: seq<VarId>, c: Key, k: Key)
    requires Evaluable(g, ops, tracked) && Clique(g) && NoReadyFilter(g.vertices)
    requires |c| == |tracked| == |k| && |g.vertices| == |ops|
    requires Indices(CountedOut(g, tracked), |g.vertices|)
    ensures var keep := Complement(|g.vertices|, CountedOut(g, tracked));
            (|Matching(g.vertices, ops, tracked, c, k)|
             == |Matching(Pick(g.vertices, keep), Pick(ops, keep), tracked, c, k)| * SizeProduct(ops, CountedOut(g, tracked)))
  {
    hide Plain, Clique, CountedOut, CartesianParts, RepeatsTracked, NoReadyFilter, Aligned, Live, FiltersOk, Matching, Pick, Complement, SizeProduct, Countable, AllApart;
    CountedCountable(g, ops, tracked);
    CountedApart(g, tracked);
    CountOut(g.vertices, ops, tracked, CountedOut(g, tracked), c, k);
  }

  lemma ProductPositive(a: nat, b: nat)
    requires a > 0 && b > 0
    ensures a * b > 0
  {
  }

  lemma {:induction false} SizePositive(ops: seq<Trie>, positions: seq<nat>)
    requires Indices(positions, |ops|) && forall i :: 0 <= i < |positions| ==> |ops[positions[i]].rows| > 0
    ensures SizeProduct(ops, positions) > 0
  {
    if positions != [] {
      SizePositive(ops, Init(positions));
      ProductPositive(SizeProduct(ops, Init(positions)), |ops[Last(positions)].rows|);
    }
  }

  lemma CountedPositive(g: Graph, ops: seq<Trie>, tracked: seq<VarId>)
    requires Live(g.vertices, ops) && Countable(g.vertices, ops, tracked, CountedOut(g, tracked))
    ensures Indices(CountedOut(g, tracked), |ops|) && SizeProduct(ops, CountedOut(g, tracked)) > 0
  {
    hide CountedOut, SizeProduct;
    SizePositive(ops, CountedOut(g, tracked));
  }
}
