/**
 The bag meaning of property paths, and what joining two graphs at a fresh
 variable means.
 */
module PathMeaning {
  import opened Graphs
  import opened Tries
  import opened Semantics
  import opened Counting
  import opened ProductProof
  import opened Preparation
  import opened BranchBags

  /** A subject or object of a pattern. */
  datatype Node = Const(term: Term) | Var(id: VarId)

  datatype Path = Path(alternatives: seq<PathSequence>)
  datatype PathSequence = PathSequence(elements: seq<PathElt>)
  datatype PathElt = PathElt(inverse: bool, primary: PathPrimary, modified: bool)
  datatype PathPrimary = Iri(term: Term) | NegatedPropertySet | Group(path: Path)

  /* ---------- counting by value ---------- */

  /** The mappings of s that give z the value v. */
  ghost function WithValue(s: set<Binding>, z: VarId, v: Term): set<Binding> {
    set m | m in s && z in m && m[z] == v
  }

  ghost function ValueSizes(s: set<Binding>, z: VarId): Term -> nat {
    (v: Term) => |WithValue(s, z, v)|
  }

  /** Mappings counted by the value they give z. */
  lemma {:induction false} CountByValue(s: set<Binding>, z: VarId, values: set<Term>)
    requires forall m :: m in s ==> z in m && m[z] in values
    ensures |s| == SumOver(values, ValueSizes(s, z))
    decreases values
  {
    if values == {} {
      assert s == {};
    } else {
      hide SumOver;
      var v :| v in values;
      var rest := s - WithValue(s, z, v);
      CountByValue(rest, z, values - {v});
      forall w | w in values - {v} ensures ValueSizes(s, z)(w) == ValueSizes(rest, z)(w) {
        assert WithValue(s, z, w) == WithValue(rest, z, w);
      }
      SumOverSame(values - {v}, ValueSizes(s, z), ValueSizes(rest, z));
      SumOverSplit(values, v, ValueSizes(s, z));
      SplitCard(s, WithValue(s, z, v), rest);
    }
  }

  /* ---------- the meaning of paths ---------- */

  function Terms(store: set<Row>): set<Term> {
    set r, i | r in store && 0 <= i < |r| :: r[i]
  }

  /** How often a path connects s to o. */
  ghost function PathCount(store: set<Row>, p: Path, s: Term, o: Term): nat
    decreases p, |p.alternatives| + 1
  {
    AlternativesCount(store, p, |p.alternatives|, s, o)
  }

  /** Alternatives add up. */
  ghost function AlternativesCount(store: set<Row>, p: Path, n: nat, s: Term, o: Term): nat
    requires n <= |p.alternatives|
    decreases p, n
  {
    if n == 0 then 0
    else AlternativesCount(store, p, n - 1, s, o)
         + SequenceCount(store, p.alternatives[n - 1], |p.alternatives[n - 1].elements|, s, o)
  }

  /** A sequence joins at every intermediate term. */
  ghost function SequenceCount(store: set<Row>, q: PathSequence, n: nat, s: Term, o: Term): nat
    requires n <= |q.elements|
    decreases q, n
  {
    if n == 0 then 0
    else if n == 1 then EltCount(store, q.elements[0], s, o)
    else SumOver(Terms(store), (v: Term) => Times(SequenceCount(store, q, n - 1, s, v), EltCount(store, q.elements[n - 1], v, o)))
  }

  ghost function EltCount(store: set<Row>, e: PathElt, s: Term, o: Term): nat
    decreases e, 0
  {
    if e.inverse then PrimaryCount(store, e.primary, o, s) else PrimaryCount(store, e.primary, s, o)
  }

  ghost function PrimaryCount(store: set<Row>, p: PathPrimary, s: Term, o: Term): nat
    decreases p, 0
  {
    match p
    case Iri(t) => if [s, t, o] in store then 1 else 0
    case NegatedPropertySet => 0
    case Group(path) => PathCount(store, path, s, o)
  }

  /* ---------- laws of the meaning ---------- */

  function Parenthesized(p: Path): PathElt {
    PathElt(false, Group(p), false)
  }

  function IriPath(t: Term): Path {
    Path([PathSequence([PathElt(false, Iri(t), false)])])
  }

  function InversePath(p: Path): Path {
    Path([PathSequence([PathElt(true, Group(p), false)])])
  }

  function SequencePath(p: Path, q: Path): Path {
    Path([PathSequence([Parenthesized(p), Parenthesized(q)])])
  }

  function AlternativePath(p: Path, q: Path): Path {
    Path([PathSequence([Parenthesized(p)]), PathSequence([Parenthesized(q)])])
  }

  lemma {:induction false} AlternativesPrefix(store: set<Row>, p: Path, q: Path, n: nat, s: Term, o: Term)
    requires n <= |p.alternatives| && n <= |q.alternatives| && p.alternatives[..n] == q.alternatives[..n]
    ensures AlternativesCount(store, p, n, s, o) == AlternativesCount(store, q, n, s, o)
    decreases n
  {
    hide SequenceCount;
    if n > 0 {
      assert p.alternatives[n - 1] == p.alternatives[..n][n - 1] && q.alternatives[n - 1] == q.alternatives[..n][n - 1];
      assert p.alternatives[..n - 1] == p.alternatives[..n][..n - 1] && q.alternatives[..n - 1] == q.alternatives[..n][..n - 1];
      AlternativesPrefix(store, p, q, n - 1, s, o);
    }
  }

  lemma {:induction false} SequencePrefix(store: set<Row>, p: PathSequence, q: PathSequence, n: nat, s: Term, o: Term)
    requires n <= |p.elements| && n <= |q.elements| && p.elements[..n] == q.elements[..n]
    ensures SequenceCount(store, p, n, s, o) == SequenceCount(store, q, n, s, o)
    decreases n
  {
    hide EltCount, Terms, SumOver;
    if n > 0 {
      assert p.elements[n - 1] == p.elements[..n][n - 1] && q.elements[n - 1] == q.elements[..n][n - 1];
      assert p.elements[..n - 1] == p.elements[..n][..n - 1] && q.elements[..n - 1] == q.elements[..n][..n - 1];
      if n > 1 {
        var f := (v: Term) => Times(SequenceCount(store, p, n - 1, s, v), EltCount(store, p.elements[n - 1], v, o));
        var g := (v: Term) => Times(SequenceCount(store, q, n - 1, s, v), EltCount(store, q.elements[n - 1], v, o));
        forall v: Term ensures f(v) == g(v) {
          SequencePrefix(store, p, q, n - 1, s, v);
        }
        SumOverSame(Terms(store), f, g);
      }
    }
  }

  /** The counts of alternatives add up, however they are listed. */
  lemma {:induction false} AlternativesAdd(store: set<Row>, a: seq<PathSequence>, b: seq<PathSequence>, s: Term, o: Term)
    ensures PathCount(store, Path(a + b), s, o) == PathCount(store, Path(a), s, o) + PathCount(store, Path(b), s, o)
    decreases |b|
  {
    hide SequenceCount;
    if b == [] {
      assert a + b == a;
    } else {
      AlternativesAdd(store, a, Init(b), s, o);
      var p, n := Path(a + b), |a + b|;
      assert p.alternatives[..n - 1] == a + Init(b) && b[..|b| - 1] == Init(b);
      AlternativesPrefix(store, p, Path(a + Init(b)), n - 1, s, o);
      AlternativesPrefix(store, Path(b), Path(Init(b)), |b| - 1, s, o);
      assert p.alternatives[n - 1] == b[|b| - 1];
    }
  }

  /** A sequence that goes on with one more element joins with it at every term. */
  lemma SequenceJoins(store: set<Row>, es: seq<PathElt>, e: PathElt, s: Term, o: Term)
    requires es != []
    ensures PathCount(store, Path([PathSequence(es + [e])]), s, o)
         == SumOver(Terms(store), (v: Term) => Times(PathCount(store, Path([PathSequence(es)]), s, v), EltCount(store, e, v, o)))
  {
    hide EltCount, Terms, SumOver;
    var q, n := PathSequence(es + [e]), |es|;
    LoneSequence(store, q, s, o);
    var f := (v: Term) => Times(SequenceCount(store, q, n, s, v), EltCount(store, q.elements[n], v, o));
    var g := (v: Term) => Times(PathCount(store, Path([PathSequence(es)]), s, v), EltCount(store, e, v, o));
    forall v: Term ensures f(v) == g(v) {
      assert q.elements[..n] == es == PathSequence(es).elements[..n];
      SequencePrefix(store, q, PathSequence(es), n, s, v);
      LoneSequence(store, PathSequence(es), s, v);
    }
    SumOverSame(Terms(store), f, g);
    assert SequenceCount(store, q, n + 1, s, o) == SumOver(Terms(store), f);
  }

  lemma LoneSequence(store: set<Row>, q: PathSequence, s: Term, o: Term)
    ensures PathCount(store, Path([q]), s, o) == SequenceCount(store, q, |q.elements|, s, o)
  {
    hide SequenceCount;
    assert AlternativesCount(store, Path([q]), 0, s, o) == 0;
  }

  lemma LoneElement(store: set<Row>, e: PathElt, s: Term, o: Term)
    ensures PathCount(store, Path([PathSequence([e])]), s, o) == EltCount(store, e, s, o)
  {
    hide EltCount;
    LoneSequence(store, PathSequence([e]), s, o);
  }

  /** One element: an IRI by the triples of the store, a path in parentheses by itself, and an inverse by the exchanged ends. */
  lemma ElementCounts(store: set<Row>, t: Term, p: Path, e: PathElt, s: Term, o: Term)
    ensures PathCount(store, Path([PathSequence([e])]), s, o) == EltCount(store, e, s, o)
    ensures EltCount(store, e.(inverse := true), s, o) == EltCount(store, e.(inverse := false), o, s)
    ensures PathCount(store, IriPath(t), s, o) == if [s, t, o] in store then 1 else 0
    ensures EltCount(store, Parenthesized(p), s, o) == PathCount(store, p, s, o)
    ensures PathCount(store, InversePath(p), s, o) == PathCount(store, p, o, s)
  {
    LoneElement(store, e, s, o);
    LoneElement(store, PathElt(false, Iri(t), false), s, o);
    LoneElement(store, PathElt(true, Group(p), false), s, o);
    hide PathCount;
  }

  /** Alternatives add up and sequences join at every term, with multiplicity. */
  lemma PathLaws(store: set<Row>, p: Path, q: Path, s: Term, o: Term)
    ensures PathCount(store, AlternativePath(p, q), s, o) == PathCount(store, p, s, o) + PathCount(store, q, s, o)
    ensures PathCount(store, SequencePath(p, q), s, o)
         == SumOver(Terms(store), (v: Term) => Times(PathCount(store, p, s, v), PathCount(store, q, v, o)))
  {
    assert AlternativePath(p, q).alternatives == [PathSequence([Parenthesized(p)])] + [PathSequence([Parenthesized(q)])];
    assert [Parenthesized(p), Parenthesized(q)] == [Parenthesized(p)] + [Parenthesized(q)];
    hide PathCount, EltCount, Terms, SumOver, Parenthesized;
    AlternativesAdd(store, [PathSequence([Parenthesized(p)])], [PathSequence([Parenthesized(q)])], s, o);
    ElementCounts(store, 0, p, Parenthesized(p), s, o);
    ElementCounts(store, 0, q, Parenthesized(q), s, o);
    SequenceJoins(store, [Parenthesized(p)], Parenthesized(q), s, o);
    var f := (v: Term) => Times(PathCount(store, Path([PathSequence([Parenthesized(p)])]), s, v), EltCount(store, Parenthesized(q), v, o));
    var g := (v: Term) => Times(PathCount(store, p, s, v), PathCount(store, q, v, o));
    forall v: Term ensures f(v) == g(v) {
      ElementCounts(store, 0, p, Parenthesized(p), s, v);
      ElementCounts(store, 0, q, Parenthesized(q), v, o);
    }
    SumOverSame(Terms(store), f, g);
  }

  /* ---------- the size of the graph of a path ---------- */

  /** Numbers of union components and of patterns. */
  datatype Size = Size(branches: nat, patterns: nat)

  function BothSizes(a: Size, b: Size): Size {
    Size(a.branches + b.branches, a.patterns + b.patterns)
  }

  /** Each branch of the one with each of the other. */
  function CrossedSizes(a: Size, b: Size): Size {
    Size(a.branches * b.branches, b.branches * a.patterns + a.branches * b.patterns)
  }

  function PathSize(p: Path): Size
    decreases p, |p.alternatives| + 1
  {
    AlternativesSize(p, |p.alternatives|)
  }

  function AlternativesSize(p: Path, n: nat): Size
    requires n <= |p.alternatives|
    decreases p, n
  {
    if n == 0 then Size(0, 0)
    else BothSizes(AlternativesSize(p, n - 1), SequenceSize(p.alternatives[n - 1], |p.alternatives[n - 1].elements|))
  }

  function SequenceSize(q: PathSequence, n: nat): Size
    requires n <= |q.elements|
    decreases q, n
  {
    if n == 0 then Size(0, 0)
    else if n == 1 then EltSize(q.elements[0])
    else CrossedSizes(SequenceSize(q, n - 1), EltSize(q.elements[n - 1]))
  }

  function EltSize(e: PathElt): Size
    decreases e, 0
  {
    PrimarySize(e.primary)
  }

  function PrimarySize(p: PathPrimary): Size
    decreases p, 0
  {
    match p
    case Iri(_) => Size(1, 1)
    case NegatedPropertySet => Size(0, 0)
    case Group(path) => PathSize(path)
  }

  /* ---------- the live branches of the graph of a path ---------- */

  /** Numbers of union components without an empty pattern: of all, and of those without variables. */
  datatype Life = Life(live: nat, scalars: nat)

  function BothLives(a: Life, b: Life): Life {
    Life(a.live + b.live, a.scalars + b.scalars)
  }

  /** Joined branches have a variable. */
  function CrossedLives(a: Life, b: Life): Life {
    Life(a.live * b.live, 0)
  }

  /** The store has a triple with this predicate and these ends, where they are constant. */
  ghost predicate Stored(store: set<Row>, a: Option<Term>, t: Term, b: Option<Term>) {
    exists r :: r in store && Agrees(r, [a, Some(t), b])
  }

  /** The live branches of a path between ends that are constant or open. */
  ghost function PathLife(store: set<Row>, p: Path, a: Option<Term>, b: Option<Term>): Life
    decreases p, |p.alternatives| + 1
  {
    AlternativesLife(store, p, |p.alternatives|, a, b)
  }

  ghost function AlternativesLife(store: set<Row>, p: Path, n: nat, a: Option<Term>, b: Option<Term>): Life
    requires n <= |p.alternatives|
    decreases p, n
  {
    if n == 0 then Life(0, 0)
    else BothLives(AlternativesLife(store, p, n - 1, a, b),
                   SequenceLife(store, p.alternatives[n - 1], |p.alternatives[n - 1].elements|, a, b))
  }

  /** A sequence is open between its elements. */
  ghost function SequenceLife(store: set<Row>, q: PathSequence, n: nat, a: Option<Term>, b: Option<Term>): Life
    requires n <= |q.elements|
    decreases q, n
  {
    if n == 0 then Life(0, 0)
    else if n == 1 then EltLife(store, q.elements[0], a, b)
    else CrossedLives(SequenceLife(store, q, n - 1, a, None), EltLife(store, q.elements[n - 1], None, b))
  }

  ghost function EltLife(store: set<Row>, e: PathElt, a: Option<Term>, b: Option<Term>): Life
    decreases e, 0
  {
    if e.inverse then PrimaryLife(store, e.primary, b, a) else PrimaryLife(store, e.primary, a, b)
  }

  ghost function PrimaryLife(store: set<Row>, p: PathPrimary, a: Option<Term>, b: Option<Term>): Life
    decreases p, 0
  {
    match p
    case Iri(t) => if Stored(store, a, t, b) then Life(1, if a.Some? && b.Some? then 1 else 0) else Life(0, 0)
    case NegatedPropertySet => Life(0, 0)
    case Group(path) => PathLife(store, path, a, b)
  }

  /* ---------- solutions with given ends ---------- */

  function ValueOf(n: Node, m: Binding): Option<Term> {
    match n
    case Const(t) => Some(t)
    case Var(x) => if x in m then Some(m[x]) else None
  }

  function NodeVars(n: Node): set<VarId> {
    match n
    case Const(_) => {}
    case Var(x) => {x}
  }

  /** The ends can take these terms. */
  ghost predicate Consistent(subj: Node, obj: Node, s: Term, o: Term) {
    && (subj.Const? ==> s == subj.term) && (obj.Const? ==> o == obj.term)
    && (subj.Var? && subj == obj ==> s == o)
  }

  ghost predicate Ends(m: Binding, subj: Node, obj: Node, s: Term, o: Term) {
    ValueOf(subj, m) == Some(s) && ValueOf(obj, m) == Some(o)
  }

  ghost function EndSet(store: set<Row>, vs: seq<Vertex>, subj: Node, obj: Node, s: Term, o: Term): set<Binding> {
    set m | m in BranchJoin(store, vs) && Ends(m, subj, obj, s, o)
  }

  /** The bag of a graph, projected onto its ends. */
  ghost function BranchTotal(store: set<Row>, branches: seq<seq<Vertex>>, subj: Node, obj: Node, s: Term, o: Term): nat {
    if branches == [] then 0
    else BranchTotal(store, Init(branches), subj, obj, s, o) + |EndSet(store, Last(branches), subj, obj, s, o)|
  }

  lemma {:induction false} BranchTotalAppend(store: set<Row>, a: seq<seq<Vertex>>, b: seq<seq<Vertex>>, subj: Node, obj: Node, s: Term, o: Term)
    ensures BranchTotal(store, a + b, subj, obj, s, o)
         == BranchTotal(store, a, subj, obj, s, o) + BranchTotal(store, b, subj, obj, s, o)
  {
    hide EndSet;
    if b == [] {
      assert a + b == a;
    } else {
      BranchTotalAppend(store, a, Init(b), subj, obj, s, o);
      assert Init(a + b) == a + Init(b) && Last(a + b) == Last(b);
    }
  }

  lemma BranchTotalOne(store: set<Row>, vs: seq<Vertex>, subj: Node, obj: Node, s: Term, o: Term)
    ensures BranchTotal(store, [vs], subj, obj, s, o) == |EndSet(store, vs, subj, obj, s, o)|
  {
    hide EndSet;
    assert Init([vs]) == [];
    assert BranchTotal(store, [], subj, obj, s, o) == 0;
  }

  /* ---------- joining at a variable ---------- */

  /** Two branches that meet in z, and otherwise only in a variable that both ends share. */
  ghost predicate Bridged(u: seq<Vertex>, w: seq<Vertex>, subj: Node, z: VarId, obj: Node) {
    && z in DataVars(u) && z in DataVars(w) && Var(z) != subj && Var(z) != obj
    && NodeVars(subj) <= DataVars(u) && NodeVars(obj) <= DataVars(w)
    && DataVars(u) * DataVars(w) <= {z} + NodeVars(subj) * NodeVars(obj)
  }

  lemma BridgeForth(store: set<Row>, u: seq<Vertex>, w: seq<Vertex>, subj: Node, z: VarId, obj: Node,
                    s: Term, v: Term, o: Term, m: Binding)
    requires Bridged(u, w, subj, z, obj)
    requires m in WithValue(EndSet(store, u + w, subj, obj, s, o), z, v)
    ensures Restrict(m, DataVars(u)) in EndSet(store, u, subj, Var(z), s, v)
    ensures Restrict(m, DataVars(w)) in EndSet(store, w, Var(z), obj, v, o)
    ensures Restrict(m, DataVars(u)) + Restrict(m, DataVars(w)) == m
  {
    hide DataVars, BranchJoin;
    PairJoin(store, u, w, m);
  }

  lemma BridgeBack(store: set<Row>, u: seq<Vertex>, w: seq<Vertex>, subj: Node, z: VarId, obj: Node,
                   s: Term, v: Term, o: Term, a: Binding, b: Binding)
    requires Bridged(u, w, subj, z, obj) && Consistent(subj, obj, s, o)
    requires a in EndSet(store, u, subj, Var(z), s, v) && b in EndSet(store, w, Var(z), obj, v, o)
    ensures a + b in WithValue(EndSet(store, u + w, subj, obj, s, o), z, v)
    ensures Restrict(a + b, DataVars(u)) == a && Restrict(a + b, DataVars(w)) == b
  {
    hide DataVars, BranchJoin;
    BranchJoinKeys(store, u, a);
    BranchJoinKeys(store, w, b);
    forall x | x in a && x in b ensures a[x] == b[x] {
      assert x in DataVars(u) * DataVars(w);
    }
    assert Restrict(a + b, DataVars(u)) == a;
    assert Restrict(a + b, DataVars(w)) == b;
    PairJoin(store, u, w, a + b);
  }

  lemma BridgeCard(store: set<Row>, u: seq<Vertex>, w: seq<Vertex>, subj: Node, z: VarId, obj: Node, s: Term, v: Term, o: Term)
    requires Bridged(u, w, subj, z, obj) && Consistent(subj, obj, s, o)
    ensures |WithValue(EndSet(store, u + w, subj, obj, s, o), z, v)|
         == |EndSet(store, u, subj, Var(z), s, v)| * |EndSet(store, w, Var(z), obj, v, o)|
  {
    hide Bridged, Consistent, EndSet, WithValue, DataVars;
    var t := WithValue(EndSet(store, u + w, subj, obj, s, o), z, v);
    var a, b := EndSet(store, u, subj, Var(z), s, v), EndSet(store, w, Var(z), obj, v, o);
    var f := (m: Binding) => (Restrict(m, DataVars(u)), Restrict(m, DataVars(w)));
    var g := (p: (Binding, Binding)) => p.0 + p.1;
    forall m | m in t ensures f(m) in Pairs(a, b) && g(f(m)) == m {
      BridgeForth(store, u, w, subj, z, obj, s, v, o, m);
    }
    forall p | p in Pairs(a, b) ensures g(p) in t && f(g(p)) == p {
      BridgeBack(store, u, w, subj, z, obj, s, v, o, p.0, p.1);
    }
    BijectionCard(t, Pairs(a, b), f, g);
    ProductCard(a, b);
  }

  /* ---------- values come from the store ---------- */

  lemma {:induction false} FreePartsFrom(r: Row, slice: SliceKey)
    requires |r| == |slice|
    ensures forall t :: t in FreeParts(r, slice) ==> t in r
  {
    if slice != [] {
      FreePartsFrom(Init(r), Init(slice));
      assert forall t :: t in Init(r) ==> t in r;
    }
  }

  lemma SliceTerms(store: set<Row>, slice: SliceKey, r: Row)
    requires r in SliceOf(store, slice).rows
    ensures forall t :: t in r ==> t in Terms(store)
  {
    var full :| full in store && Agrees(full, slice) && r == FreeParts(full, slice);
    FreePartsFrom(full, slice);
    forall t | t in full ensures t in Terms(store) {
      var i :| 0 <= i < |full| && full[i] == t;
    }
  }

  lemma BoundTerms(store: set<Row>, vs: seq<Vertex>, m: Binding, z: VarId)
    requires m in BranchJoin(store, vs) && z in DataVars(vs)
    ensures z in m && m[z] in Terms(store)
  {
    hide Terms, SliceOf;
    var ops := SlicesOf(store, vs);
    NaiveJoinIff(vs, ops, m);
    var i :| 0 <= i < |vs| && vs[i].Operand? && z in vs[i].vars;
    SatKeys(vs, i);
    assert FitsAt(vs[i], ops[i], m);
    SliceTerms(store, vs[i].slice, RowOf(vs[i].vars, m));
    var p :| 0 <= p < |vs[i].vars| && vs[i].vars[p] == z;
    assert RowOf(vs[i].vars, m)[p] == m[z];
  }

  ghost function LinkedAt(store: set<Row>, u: seq<Vertex>, w: seq<Vertex>, subj: Node, z: VarId, obj: Node, s: Term, o: Term): Term -> nat {
    (v: Term) => Times(|EndSet(store, u, subj, Var(z), s, v)|, |EndSet(store, w, Var(z), obj, v, o)|)
  }

  /** A linked pair connects s to o through every term at z. */
  lemma BridgeTotal(store: set<Row>, u: seq<Vertex>, w: seq<Vertex>, subj: Node, z: VarId, obj: Node, s: Term, o: Term)
    requires Bridged(u, w, subj, z, obj) && Consistent(subj, obj, s, o)
    ensures |EndSet(store, u + w, subj, obj, s, o)| == SumOver(Terms(store), LinkedAt(store, u, w, subj, z, obj, s, o))
  {
    hide DataVars, BranchJoin, Terms, Bridged, Consistent;
    var t := EndSet(store, u + w, subj, obj, s, o);
    forall m | m in t ensures z in m && m[z] in Terms(store) {
      BridgeVar(u, w, subj, z, obj);
      BoundTerms(store, u + w, m, z);
    }
    CountByValue(t, z, Terms(store));
    forall v | v in Terms(store) ensures ValueSizes(t, z)(v) == LinkedAt(store, u, w, subj, z, obj, s, o)(v) {
      BridgeCard(store, u, w, subj, z, obj, s, v, o);
    }
    SumOverSame(Terms(store), ValueSizes(t, z), LinkedAt(store, u, w, subj, z, obj, s, o));
  }

  lemma BridgeVar(u: seq<Vertex>, w: seq<Vertex>, subj: Node, z: VarId, obj: Node)
    requires Bridged(u, w, subj, z, obj)
    ensures z in DataVars(u + w)
  {
    DataVarsConcat(u, w);
  }

  /* ---------- joining all branches ---------- */

  ghost predicate AllBridged(a: seq<seq<Vertex>>, b: seq<seq<Vertex>>, subj: Node, z: VarId, obj: Node) {
    forall u, w :: u in a && w in b ==> Bridged(u, w, subj, z, obj)
  }

  ghost function TotalAt(store: set<Row>, a: seq<seq<Vertex>>, b: seq<seq<Vertex>>, subj: Node, z: VarId, obj: Node, s: Term, o: Term): Term -> nat {
    (v: Term) => Times(BranchTotal(store, a, subj, Var(z), s, v), BranchTotal(store, b, Var(z), obj, v, o))
  }

  lemma DistributeLeft(a: nat, b: nat, c: nat)
    ensures a * (b + c) == a * b + a * c && (b + c) * a == b * a + c * a
  {
  }

  lemma NoTotal(store: set<Row>, subj: Node, obj: Node, s: Term, o: Term)
    ensures BranchTotal(store, [], subj, obj, s, o) == 0
  {
  }

  lemma BranchTotalLast(store: set<Row>, branches: seq<seq<Vertex>>, subj: Node, obj: Node, s: Term, o: Term)
    requires branches != []
    ensures BranchTotal(store, branches, subj, obj, s, o)
         == BranchTotal(store, Init(branches), subj, obj, s, o) + |EndSet(store, Last(branches), subj, obj, s, o)|
  {
  }

  lemma RowPoint(store: set<Row>, u: seq<Vertex>, b: seq<seq<Vertex>>, subj: Node, z: VarId, obj: Node, s: Term, o: Term, v: Term)
    requires b != []
    ensures TotalAt(store, [u], b, subj, z, obj, s, o)(v)
         == TotalAt(store, [u], Init(b), subj, z, obj, s, o)(v) + LinkedAt(store, u, Last(b), subj, z, obj, s, o)(v)
  {
    hide EndSet, BranchTotal;
    BranchTotalOne(store, u, subj, Var(z), s, v);
    BranchTotalLast(store, b, Var(z), obj, v, o);
    DistributeLeft(|EndSet(store, u, subj, Var(z), s, v)|, BranchTotal(store, Init(b), Var(z), obj, v, o),
                   |EndSet(store, Last(b), Var(z), obj, v, o)|);
  }

  lemma TotalZero(store: set<Row>, a: seq<seq<Vertex>>, b: seq<seq<Vertex>>, subj: Node, z: VarId, obj: Node, s: Term, o: Term)
    requires a == [] || b == []
    ensures SumOver(Terms(store), TotalAt(store, a, b, subj, z, obj, s, o)) == 0
  {
    hide EndSet, BranchTotal, Terms;
    var f := TotalAt(store, a, b, subj, z, obj, s, o);
    forall v ensures f(v) == 0 {
      NoTotal(store, subj, Var(z), s, v);
      NoTotal(store, Var(z), obj, v, o);
    }
    SumOverZero(Terms(store), f);
  }

  lemma {:induction false} RowTotal(store: set<Row>, u: seq<Vertex>, b: seq<seq<Vertex>>, subj: Node, z: VarId, obj: Node, s: Term, o: Term)
    requires (forall w :: w in b ==> Bridged(u, w, subj, z, obj)) && Consistent(subj, obj, s, o)
    ensures BranchTotal(store, PairingsWith(u, b), subj, obj, s, o)
         == SumOver(Terms(store), TotalAt(store, [u], b, subj, z, obj, s, o))
    decreases |b|
  {
    hide EndSet, Terms, Bridged, Consistent, BranchTotal, SumOver, TotalAt, LinkedAt;
    if b == [] {
      assert PairingsWith(u, b) == [];
      NoTotal(store, subj, obj, s, o);
      TotalZero(store, [u], b, subj, z, obj, s, o);
    } else {
      var before, w := Init(b), Last(b);
      assert w in b && forall x :: x in before ==> x in b;
      RowTotal(store, u, before, subj, z, obj, s, o);
      BridgeTotal(store, u, w, subj, z, obj, s, o);
      assert Init(PairingsWith(u, b)) == PairingsWith(u, before);
      BranchTotalLast(store, PairingsWith(u, b), subj, obj, s, o);
      forall v ensures TotalAt(store, [u], b, subj, z, obj, s, o)(v)
                    == TotalAt(store, [u], before, subj, z, obj, s, o)(v) + LinkedAt(store, u, w, subj, z, obj, s, o)(v) {
        RowPoint(store, u, b, subj, z, obj, s, o, v);
      }
      SumOverAdd(Terms(store), TotalAt(store, [u], before, subj, z, obj, s, o), LinkedAt(store, u, w, subj, z, obj, s, o),
                 TotalAt(store, [u], b, subj, z, obj, s, o));
    }
  }

  lemma JoinPoint(store: set<Row>, a: seq<seq<Vertex>>, b: seq<seq<Vertex>>, subj: Node, z: VarId, obj: Node, s: Term, o: Term, v: Term)
    requires a != []
    ensures TotalAt(store, a, b, subj, z, obj, s, o)(v)
         == TotalAt(store, Init(a), b, subj, z, obj, s, o)(v) + TotalAt(store, [Last(a)], b, subj, z, obj, s, o)(v)
  {
    hide EndSet, BranchTotal;
    BranchTotalOne(store, Last(a), subj, Var(z), s, v);
    BranchTotalLast(store, a, subj, Var(z), s, v);
    DistributeLeft(BranchTotal(store, b, Var(z), obj, v, o), BranchTotal(store, Init(a), subj, Var(z), s, v),
                   |EndSet(store, Last(a), subj, Var(z), s, v)|);
  }

  /** The join of two graphs at a fresh variable connects through every term at it, with multiplicity. */
  lemma {:induction false} JoinTotal(store: set<Row>, a: seq<seq<Vertex>>, b: seq<seq<Vertex>>, subj: Node, z: VarId, obj: Node, s: Term, o: Term)
    requires AllBridged(a, b, subj, z, obj) && Consistent(subj, obj, s, o)
    ensures BranchTotal(store, Pairings(a, b), subj, obj, s, o)
         == SumOver(Terms(store), TotalAt(store, a, b, subj, z, obj, s, o))
    decreases |a|
  {
    hide EndSet, Terms, Bridged, Consistent, BranchTotal, SumOver, TotalAt, LinkedAt;
    if a == [] {
      assert Pairings(a, b) == [];
      NoTotal(store, subj, obj, s, o);
      TotalZero(store, a, b, subj, z, obj, s, o);
    } else {
      var before, u := Init(a), Last(a);
      assert u in a && forall x :: x in before ==> x in a;
      JoinTotal(store, before, b, subj, z, obj, s, o);
      RowTotal(store, u, b, subj, z, obj, s, o);
      BranchTotalAppend(store, Pairings(before, b), PairingsWith(u, b), subj, obj, s, o);
      forall v ensures TotalAt(store, a, b, subj, z, obj, s, o)(v)
                    == TotalAt(store, before, b, subj, z, obj, s, o)(v) + TotalAt(store, [u], b, subj, z, obj, s, o)(v) {
        JoinPoint(store, a, b, subj, z, obj, s, o, v);
      }
      SumOverAdd(Terms(store), TotalAt(store, before, b, subj, z, obj, s, o), TotalAt(store, [u], b, subj, z, obj, s, o),
                 TotalAt(store, a, b, subj, z, obj, s, o));
    }
  }
}
