/**
 Group patterns joined and evaluated: the entries that come out count the join
 of the bags of both groups.
 */
module JoinQuery {
  import opened Reachability
  import opened Graphs
  import opened Tries
  import opened Semantics
  import opened Projection
  import opened Counting
  import opened EngineFacts
  import opened EngineSteps
  import opened CountElimination
  import opened Selections
  import opened Preparation
  import opened GraphUnions
  import opened SourceComponents
  import opened BranchBags
  import opened BranchLives
  import opened UnionNormalForm
  import opened Evaluation

  lemma SlicesPick(store: set<Row>, vs: seq<Vertex>, p: seq<nat>)
    requires Indices(p, |vs|)
    ensures Pick(SlicesOf(store, vs), p) == SlicesOf(store, Pick(vs, p))
  {
  }

  /** The branches are the vertices of the parts. */
  ghost predicate BranchesOf(g: Graph, parts: seq<seq<nat>>, branches: seq<seq<Vertex>>) {
    && |branches| == |parts| && (forall p :: p in parts ==> Indices(p, |g.vertices|))
    && forall i :: 0 <= i < |parts| ==> Indices(parts[i], |g.vertices|) && branches[i] == Pick(g.vertices, parts[i])
  }

  lemma BranchesAre(g: Graph)
    ensures BranchesOf(g, UnionParts(g), Branches(g))
  {
    hide UnionParts;
    forall i | 0 <= i < |UnionParts(g)| ensures Indices(UnionParts(g)[i], |g.vertices|) && UnionParts(g)[i] in UnionParts(g) {
      PartShape(g, UnionParts(g)[i]);
    }
  }

  lemma BranchesInit(g: Graph, parts: seq<seq<nat>>, branches: seq<seq<Vertex>>)
    requires BranchesOf(g, parts, branches) && parts != []
    ensures |branches| == |parts| && BranchesOf(g, Init(parts), Init(branches))
    ensures Indices(Last(parts), |g.vertices|) && Last(branches) == Pick(g.vertices, Last(parts))
    ensures parts == Init(parts) + [Last(parts)] && branches == Init(branches) + [Last(branches)]
  {
    InInit(parts);
    assert forall i :: 0 <= i < |parts| - 1 ==> Init(parts)[i] == parts[i] && Init(branches)[i] == branches[i];
  }

  lemma BranchesIndices(g: Graph, parts: seq<seq<nat>>, branches: seq<seq<Vertex>>)
    requires BranchesOf(g, parts, branches)
    ensures |branches| == |parts| && forall p :: p in parts ==> Indices(p, |g.vertices|)
  {
  }

  /* ---------- counts are sizes of bags ---------- */

  /** Solutions that project to k. */
  ghost function HasKey(tracked: seq<VarId>, k: Key): Binding -> bool {
    (m: Binding) => KeyOf(tracked, UnboundKey(|tracked|), m) == k
  }

  lemma NothingBound(tracked: seq<VarId>)
    ensures AsBinding(tracked, UnboundKey(|tracked|)) == map[]
  {
  }

  lemma BranchCount(store: set<Row>, vs: seq<Vertex>, tracked: seq<VarId>, k: Key)
    ensures |Matching(vs, SlicesOf(store, vs), tracked, UnboundKey(|tracked|), k)|
         == SizeWhere(multiset(BranchSols(store, vs)), HasKey(tracked, k))
  {
    hide Sols, SizeWhere;
    NothingBound(tracked);
    SizeOfSet(BranchSols(store, vs), HasKey(tracked, k));
    assert Matching(vs, SlicesOf(store, vs), tracked, UnboundKey(|tracked|), k) == Where(BranchSols(store, vs), HasKey(tracked, k));
  }

  lemma {:induction false} PartsCount(store: set<Row>, g: Graph, parts: seq<seq<nat>>, branches: seq<seq<Vertex>>, tracked: seq<VarId>, k: Key)
    requires BranchesOf(g, parts, branches)
    ensures forall p :: p in parts ==> Indices(p, |g.vertices|)
    ensures BagCount(g.vertices, SlicesOf(store, g.vertices), parts, tracked, UnboundKey(|tracked|), k)
         == SizeWhere(BranchBag(store, branches), HasKey(tracked, k))
    decreases |parts|
  {
    hide *;
    BranchesIndices(g, parts, branches);
    var ops, c := SlicesOf(store, g.vertices), UnboundKey(|tracked|);
    if parts == [] {
      NoParts(g.vertices, ops, tracked, c, k);
      NoBag(store);
      JoinNone(multiset{}, HasKey(tracked, k));
    } else {
      BranchesInit(g, parts, branches);
      BranchesIndices(g, Init(parts), Init(branches));
      PartsCount(store, g, Init(parts), Init(branches), tracked, k);
      BranchCount(store, Last(branches), tracked, k);
      SlicesPick(store, g.vertices, Last(parts));
      BagSnoc(g.vertices, ops, Init(parts), Last(parts), tracked, c, k);
      BranchBagLast(store, Init(branches), Last(branches));
      SizeUnion(BranchBag(store, Init(branches)), multiset(BranchSols(store, Last(branches))), HasKey(tracked, k));
    }
  }

  /** What is counted for a key is what the bag of the graph holds for it. */
  lemma GraphBagCount(store: set<Row>, g: Graph, tracked: seq<VarId>, k: Key)
    requires |k| == |tracked|
    ensures GraphCount(g, SlicesOf(store, g.vertices), tracked, UnboundKey(|tracked|), k)
         == SizeWhere(GraphBag(store, g), HasKey(tracked, k))
  {
    hide BagCount, SizeWhere, BranchBag, UnionParts, Branches;
    if g.vertices == [] {
      EmptyCount(g, SlicesOf(store, g.vertices), tracked, UnboundKey(|tracked|), k);
      EmptySize(HasKey(tracked, k));
      assert KeyOf(tracked, UnboundKey(|tracked|), map[]) == UnboundKey(|tracked|);
    } else {
      BranchesAre(g);
      PartsCount(store, g, UnionParts(g), Branches(g), tracked, k);
    }
  }

  lemma EmptySize(ok: Binding -> bool)
    ensures SizeWhere(multiset{map[]}, ok) == if ok(map[]) then 1 else 0
  {
    var s: set<Binding> := {map[]};
    SizeOfSet(s, ok);
    assert multiset(s) == multiset{map[]};
    assert Where(s, ok) == if ok(map[]) then s else {};
  }

  /* ---------- the graph of a join can be evaluated ---------- */

  /** A pattern with a variable for each open part, or a filter that reads tracked variables. */
  ghost predicate QueryVertex(v: Vertex, tracked: seq<VarId>) {
    match v
    case Operand(vars, slice) => |vars| == Free(slice) && forall x :: x !in tracked ==> multiset(vars)[x] <= 1
    case FilterVertex(vars, filter) => filter.vars == Elements(vars) && filter.vars <= Elements(tracked)
  }

  ghost predicate QueryVertices(vs: seq<Vertex>, tracked: seq<VarId>) {
    forall i :: 0 <= i < |vs| ==> QueryVertex(vs[i], tracked)
  }

  ghost predicate AllOf(vs: seq<Vertex>, ok: Vertex -> bool) {
    forall i :: 0 <= i < |vs| ==> ok(vs[i])
  }

  ghost predicate AllOfEach(branches: seq<seq<Vertex>>, ok: Vertex -> bool) {
    forall b :: b in branches ==> AllOf(b, ok)
  }

  lemma BranchVertices(g: Graph, ok: Vertex -> bool)
    ensures AllOf(g.vertices, ok) <==> AllOfEach(Branches(g), ok)
  {
    hide UnionParts;
    if AllOf(g.vertices, ok) {
      forall b | b in Branches(g) ensures AllOf(b, ok) {
        var j :| 0 <= j < |Branches(g)| && Branches(g)[j] == b;
      }
    }
    if AllOfEach(Branches(g), ok) {
      forall i: nat | i < |g.vertices| ensures ok(g.vertices[i]) {
        InBranch(g, ok, i);
      }
    }
  }

  lemma InBranch(g: Graph, ok: Vertex -> bool, i: nat)
    requires i < |g.vertices| && AllOfEach(Branches(g), ok)
    ensures ok(g.vertices[i])
  {
    var p := ComponentsCover(ArcsOf(g.edges), |g.vertices|, i);
    var j :| 0 <= j < |UnionParts(g)| && UnionParts(g)[j] == p;
    assert Branches(g)[j] in Branches(g);
    var k :| 0 <= k < |p| && p[k] == i;
    assert Branches(g)[j][k] == g.vertices[i];
  }

  lemma PairingsVertices(a: seq<seq<Vertex>>, b: seq<seq<Vertex>>, ok: Vertex -> bool)
    requires AllOfEach(a, ok) && AllOfEach(b, ok)
    ensures AllOfEach(Pairings(a, b), ok)
  {
    hide Pairings;
    forall x | x in Pairings(a, b) ensures AllOf(x, ok) {
      PairingsMember(a, b, x);
    }
  }

  /** The join has no other vertices than those of both sides. */
  lemma JoinedVertices(first: Graph, second: Graph, r: Graph, ok: Vertex -> bool)
    requires Branches(r) == JoinedBranches(first, second)
    requires AllOf(first.vertices, ok) && AllOf(second.vertices, ok)
    ensures AllOf(r.vertices, ok)
  {
    hide AllOf, AllOfEach, Branches, Pairings;
    BranchVertices(first, ok);
    BranchVertices(second, ok);
    BranchVertices(r, ok);
    PairingsVertices(Branches(first), Branches(second), ok);
  }

  lemma JoinedQuery(first: Graph, second: Graph, r: Graph, tracked: seq<VarId>)
    requires Branches(r) == JoinedBranches(first, second)
    requires QueryVertices(first.vertices, tracked) && QueryVertices(second.vertices, tracked)
    ensures QueryVertices(r.vertices, tracked)
  {
    hide Branches, Pairings, QueryVertex;
    JoinedVertices(first, second, r, (v: Vertex) => QueryVertex(v, tracked));
  }

  lemma JoinedVars(first: Graph, second: Graph, r: Graph)
    requires Branches(r) == JoinedBranches(first, second)
    ensures DataVars(r.vertices) <= DataVars(first.vertices) + DataVars(second.vertices)
  {
    hide Branches, Pairings;
    var all := DataVars(first.vertices) + DataVars(second.vertices);
    var ok := (v: Vertex) => v.Operand? ==> Elements(v.vars) <= all;
    JoinedVertices(first, second, r, ok);
    forall x | x in DataVars(r.vertices) ensures x in all {
      var i :| 0 <= i < |r.vertices| && r.vertices[i].Operand? && x in r.vertices[i].vars;
      assert ok(r.vertices[i]);
    }
  }

  lemma VerticesQuery(store: set<Row>, g: Graph, tracked: seq<VarId>)
    requires Plain(g) && Distinct(tracked) && QueryVertices(g.vertices, tracked)
    ensures PatternsFit(g.vertices) && Query(g, SlicesOf(store, g.vertices), tracked)
  {
    hide Plain, DataVars;
    forall i | 0 <= i < |g.vertices| ensures QueryVertex(g.vertices[i], tracked) {
    }
    forall i | 0 <= i < |g.vertices| ensures AlignedAt(g.vertices[i], SlicesOf(store, g.vertices)[i]) {
    }
  }

  lemma SameSlices(g: Graph, store: set<Row>, ops: seq<Trie>)
    requires |ops| == |g.vertices|
    requires forall i :: 0 <= i < |g.vertices| ==>
               ops[i] == if g.vertices[i].FilterVertex? then TRUE_SCALAR else SliceOf(store, g.vertices[i].slice)
    ensures ops == SlicesOf(store, g.vertices)
  {
  }

  /* ---------- harmless branches ---------- */

  lemma PartsDiffer(g: Graph, i: nat, j: nat)
    requires i < |UnionParts(g)| && j < |UnionParts(g)| && UnionParts(g)[i] == UnionParts(g)[j]
    ensures i == j
  {
    hide Components, ArcsOf;
    var p := UnionParts(g)[i];
    assert p in UnionParts(g);
    PartShape(g, p);
    assert p[0] in p;
    if i != j {
      ComponentsDisjoint(ArcsOf(g.edges), |g.vertices|, i, j, p[0]);
    }
  }

  lemma PartBranch(store: set<Row>, g: Graph, p: seq<nat>)
    requires Indices(p, |g.vertices|)
    ensures OnlyScalars(g.vertices, p) <==> ScalarBranch(Pick(g.vertices, p))
    ensures Alive(SlicesOf(store, g.vertices), p) <==> LiveBranch(store, Pick(g.vertices, p))
  {
    hide SliceOf;
    SlicesPick(store, g.vertices, p);
  }

  lemma HarmlessPair(store: set<Row>, g: Graph, i: nat, j: nat)
    requires i < |UnionParts(g)| && j < |UnionParts(g)| && |Branches(g)| == |UnionParts(g)|
    ensures BothAlive(g, SlicesOf(store, g.vertices), UnionParts(g)[i], UnionParts(g)[j]) <==>
            Harming(store, Branches(g)[i], Branches(g)[j])
  {
    hide Components, ArcsOf, Pick, ScalarBranch, LiveBranch, OnlyScalars, Alive;
    PartBranch(store, g, UnionParts(g)[i]);
    PartBranch(store, g, UnionParts(g)[j]);
  }

  /** Scalars are harmless in a graph exactly when they are in its branches. */
  lemma HarmlessIs(store: set<Row>, g: Graph)
    ensures ScalarsHarmless(g, SlicesOf(store, g.vertices)) <==> BranchesHarmless(store, Branches(g))
  {
    BranchCounts(g);
    hide Branches, UnionParts, SlicesOf, BothAlive, Harming;
    var parts, ops := UnionParts(g), SlicesOf(store, g.vertices);
    if ScalarsHarmless(g, ops) {
      forall i: nat, j: nat | i < |Branches(g)| && j < |Branches(g)| && Harming(store, Branches(g)[i], Branches(g)[j])
        ensures i == j
      {
        HarmlessPair(store, g, i, j);
        assert parts[i] in parts && parts[j] in parts;
        PartsDiffer(g, i, j);
      }
    }
    if BranchesHarmless(store, Branches(g)) {
      forall p, q | p in parts && q in parts && BothAlive(g, ops, p, q) ensures p == q {
        var i: nat :| i < |parts| && parts[i] == p;
        var j: nat :| j < |parts| && parts[j] == q;
        HarmlessPair(store, g, i, j);
      }
    }
  }

  /* ---------- numbers of live parts ---------- */

  lemma PartsAlive(store: set<Row>, g: Graph, i: nat)
    requires i < |UnionParts(g)| && |Branches(g)| == |UnionParts(g)|
    ensures UnionParts(g)[i] in AliveParts(g, SlicesOf(store, g.vertices)) <==> LiveBranch(store, Branches(g)[i])
    ensures UnionParts(g)[i] in ScalarParts(g, SlicesOf(store, g.vertices)) <==>
            ScalarBranch(Branches(g)[i]) && LiveBranch(store, Branches(g)[i])
  {
    hide Components, ArcsOf, Pick, ScalarBranch, LiveBranch, OnlyScalars, Alive;
    PartBranch(store, g, UnionParts(g)[i]);
  }

  lemma PlacesOf(parts: seq<seq<nat>>, s: set<seq<nat>>, has: nat -> bool)
    requires NoneTwice(parts) && (forall p :: p in s ==> p in parts)
    requires forall i: nat :: i < |parts| ==> (parts[i] in s <==> has(i))
    ensures |s| == |Places(|parts|, has)|
  {
    var to: nat -> seq<nat> := (i: nat) => if i < |parts| then parts[i] else [];
    var from: seq<nat> -> nat := (p: seq<nat>) => if p in parts then PlaceIn(parts, p) else 0;
    var t := Places(|parts|, has);
    forall i | i in t ensures to(i) in s && from(to(i)) == i {
      assert parts[i] in parts;
    }
    forall p | p in s ensures from(p) in t && to(from(p)) == p {
      assert p in parts;
    }
    BijectionCard<nat, seq<nat>>(t, s, to, from);
  }

  function PlaceIn(parts: seq<seq<nat>>, p: seq<nat>): (i: nat)
    requires p in parts
    ensures i < |parts| && parts[i] == p
  {
    if Last(parts) == p then |parts| - 1 else PlaceIn(Init(parts), p)
  }

  /** As many live parts as live branches, all of them and those without variables. */
  lemma PartNumbers(store: set<Row>, g: Graph)
    ensures |AliveParts(g, SlicesOf(store, g.vertices))| == LiveNumber(store, Branches(g))
    ensures |ScalarParts(g, SlicesOf(store, g.vertices))| == ScalarNumber(store, Branches(g))
    ensures ScalarParts(g, SlicesOf(store, g.vertices)) == {} <==> ScalarNumber(store, Branches(g)) == 0
  {
    BranchCounts(g);
    var parts, ops, branches := UnionParts(g), SlicesOf(store, g.vertices), Branches(g);
    PartsWithinUnion(g, ops);
    hide Branches, UnionParts, SlicesOf, AliveParts, ScalarParts, Places, LiveBranch, ScalarBranch, LiveNumber, ScalarNumber;
    forall i: nat, j: nat | i < j < |parts| ensures parts[i] != parts[j] {
      if parts[i] == parts[j] {
        PartsDiffer(g, i, j);
      }
    }
    forall i: nat | i < |parts|
      ensures parts[i] in AliveParts(g, ops) <==> IsLive(store, branches)(i)
      ensures parts[i] in ScalarParts(g, ops) <==> IsScalar(store, branches)(i)
    {
      PartsAlive(store, g, i);
    }
    PlacesOf(parts, AliveParts(g, ops), IsLive(store, branches));
    PlacesOf(parts, ScalarParts(g, ops), IsScalar(store, branches));
    PlacesNumber(store, branches);
  }

  lemma PartsWithinUnion(g: Graph, ops: seq<Trie>)
    ensures forall p :: p in AliveParts(g, ops) ==> p in UnionParts(g)
    ensures forall p :: p in ScalarParts(g, ops) ==> p in UnionParts(g)
  {
    hide UnionParts;
  }

  /* ---------- joined and evaluated ---------- */

  /** What the groups of a join are like. */
  ghost predicate JoinGroups(first: Graph, second: Graph, tracked: seq<VarId>) {
    && Plain(first) && Plain(second) && Distinct(tracked)
    && QueryVertices(first.vertices, tracked) && QueryVertices(second.vertices, tracked)
  }

  /** The values yielded for each key count the pairs of solutions of both groups that are compatible and project to it. */
  ghost predicate JoinCounted(store: set<Row>, first: Graph, second: Graph, tracked: seq<VarId>, ys: seq<CountedEntry>) {
    forall k: Key :: |k| == |tracked| ==>
      Total(ys, k) == JoinSize(GraphBag(store, first), GraphBag(store, second), HasKey(tracked, k))
  }

  /** The values yielded for each key count the mappings of the bag that project to it. */
  ghost predicate BagCounted(bag: multiset<Binding>, tracked: seq<VarId>, ys: seq<CountedEntry>) {
    forall k: Key :: |k| == |tracked| ==> Total(ys, k) == SizeWhere(bag, HasKey(tracked, k))
  }

  /**
   The join of two groups, built and evaluated: each key gets the solutions of
   the pairs of branches, but for the unbound key, which lacks one for each live
   branch of patterns without variables if there is another live branch, and has
   one if there are only such. They are the join of both bags unless a filter
   escapes to the other side.
   */
  method EvaluateJoin(first: Graph, second: Graph, store: set<Row>, tracked: seq<VarId>, mode: CountIndex)
    returns (ys: seq<CountedEntry>)
    requires JoinGroups(first, second, tracked) && TotalLength(JoinedBranches(first, second)) < 0x100
    requires mode.ByComponent? ==> DataVars(first.vertices) + DataVars(second.vertices) <= Elements(tracked)
    ensures var scalars := ScalarNumber(store, JoinedBranches(first, second));
            forall k: Key :: |k| == |tracked| && (k != UnboundKey(|tracked|) || scalars == 0) ==>
              Total(ys, k) == SizeWhere(JoinedBag(store, first, second), HasKey(tracked, k))
    ensures var c, branches := UnboundKey(|tracked|), JoinedBranches(first, second);
            ScalarNumber(store, branches) > 0 ==>
              Total(ys, c) == if ScalarNumber(store, branches) == LiveNumber(store, branches) then 1
                              else SizeWhere(JoinedBag(store, first, second), HasKey(tracked, c)) - ScalarNumber(store, branches)
    ensures BagCounted(JoinedBag(store, first, second), tracked, ys) <==> BranchesHarmless(store, JoinedBranches(first, second))
    ensures AllScoped(Branches(first), Branches(second)) ==>
              (JoinCounted(store, first, second, tracked, ys) <==> BranchesHarmless(store, JoinedBranches(first, second)))
  {
    hide *;
    GroupsPlain(first, second, tracked);
    PlainRooted(first);
    PlainRooted(second);
    var r := CombineAndMerge(first, second);
    JoinedQuery(first, second, r, tracked);
    VerticesQuery(store, r, tracked);
    BranchesHold(r);
    JoinedVars(first, second, r);
    var ops := GenerateQueryOperands(r, store);
    SameSlices(r, store, ops);
    ys := Evaluate(r, ops, tracked, mode);
    GraphTotals(store, r, tracked, ys);
    HarmlessIs(store, r);
    JoinsAs(first, second, r);
    BagYields(store, r, tracked, ys);
    if AllScoped(Branches(first), Branches(second)) {
      JoinedTotals(store, first, second, r, tracked, ys);
    }
  }

  /** What is yielded, in terms of bag and branches. */
  lemma BagYields(store: set<Row>, r: Graph, tracked: seq<VarId>, ys: seq<CountedEntry>)
    requires var ops, c := SlicesOf(store, r.vertices), UnboundKey(|tracked|);
             && (forall k: Key :: |k| == |tracked| && (k != c || ScalarParts(r, ops) == {}) ==> Total(ys, k) == GraphCount(r, ops, tracked, c, k))
             && (ScalarParts(r, ops) != {} ==>
                   Total(ys, c) == if |ScalarParts(r, ops)| == |AliveParts(r, ops)| then 1
                                   else GraphCount(r, ops, tracked, c, c) - |ScalarParts(r, ops)|)
    ensures forall k: Key :: |k| == |tracked| && (k != UnboundKey(|tracked|) || ScalarNumber(store, Branches(r)) == 0) ==>
              Total(ys, k) == SizeWhere(GraphBag(store, r), HasKey(tracked, k))
    ensures var c := UnboundKey(|tracked|);
            ScalarNumber(store, Branches(r)) > 0 ==>
              Total(ys, c) == if ScalarNumber(store, Branches(r)) == LiveNumber(store, Branches(r)) then 1
                              else SizeWhere(GraphBag(store, r), HasKey(tracked, c)) - ScalarNumber(store, Branches(r))
  {
    hide Total, SizeWhere, GraphCount, SlicesOf, GraphBag, HasKey, ScalarParts, AliveParts, Branches, ScalarNumber, LiveNumber;
    PartNumbers(store, r);
    forall k: Key | |k| == |tracked|
      ensures GraphCount(r, SlicesOf(store, r.vertices), tracked, UnboundKey(|tracked|), k)
           == SizeWhere(GraphBag(store, r), HasKey(tracked, k))
    {
      GraphBagCount(store, r, tracked, k);
    }
  }

  lemma GroupsPlain(first: Graph, second: Graph, tracked: seq<VarId>)
    requires JoinGroups(first, second, tracked)
    ensures Plain(first) && Plain(second) && Distinct(tracked)
    ensures QueryVertices(first.vertices, tracked) && QueryVertices(second.vertices, tracked)
  {
  }

  lemma GraphTotals(store: set<Row>, r: Graph, tracked: seq<VarId>, ys: seq<CountedEntry>)
    ensures BagCounted(GraphBag(store, r), tracked, ys) <==>
            forall k: Key :: |k| == |tracked| ==>
              Total(ys, k) == GraphCount(r, SlicesOf(store, r.vertices), tracked, UnboundKey(|tracked|), k)
  {
    hide Total, SizeWhere, GraphCount, SlicesOf, GraphBag, HasKey;
    forall k: Key | |k| == |tracked|
      ensures GraphCount(r, SlicesOf(store, r.vertices), tracked, UnboundKey(|tracked|), k)
           == SizeWhere(GraphBag(store, r), HasKey(tracked, k))
    {
      GraphBagCount(store, r, tracked, k);
    }
  }

  lemma JoinedTotals(store: set<Row>, first: Graph, second: Graph, r: Graph, tracked: seq<VarId>, ys: seq<CountedEntry>)
    requires Branches(r) == JoinedBranches(first, second) && AllScoped(Branches(first), Branches(second))
    requires r.vertices == [] <==> first.vertices == [] && second.vertices == []
    ensures JoinCounted(store, first, second, tracked, ys) <==> BagCounted(GraphBag(store, r), tracked, ys)
  {
    hide Total, JoinSize, SizeWhere, GraphBag, AllScoped, JoinedBranches, HasKey;
    forall k: Key | |k| == |tracked|
      ensures SizeWhere(GraphBag(store, r), HasKey(tracked, k))
           == JoinSize(GraphBag(store, first), GraphBag(store, second), HasKey(tracked, k))
    {
      CombinedSize(store, first, second, r, HasKey(tracked, k));
    }
  }
}
