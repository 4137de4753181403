/**
 SPARQL updates: templates are instantiated from the solutions over the graph as
 it was, then all deletions and after them all insertions are applied.
 */
module UpdateOperations {
  import opened Graphs

  /** A node of the store; blank nodes that updates create are numbered. */
  datatype Node = Stored(term: Term) | Blank(number: nat)

  type Triple = seq<Node>

  /** None where a variable is unbound. */
  type Solution = seq<Option<Node>>

  /** A part of a template: a constant, which may be unknown to the node storage, a variable, or a blank node label. */
  datatype Part = Constant(node: Option<Node>) | Variable(pos: nat) | Anonymous(label_: nat)

  type Template = seq<seq<Part>>

  type Labels = map<nat, nat>

  datatype Update =
    | DeleteData(delete: seq<seq<Option<Node>>>)
    | InsertData(insert: seq<Triple>)
    | Modify(deleteTemplate: Template, insertTemplate: Template)

  /* ---------- what a template stands for ---------- */

  function Value(p: Part, s: Solution, labels: Labels): Option<Node> {
    match p
    case Constant(node) => node
    case Variable(pos) => if pos < |s| then s[pos] else None
    case Anonymous(l) => if l in labels then Some(Blank(labels[l])) else None
  }

  predicate Bound(pattern: seq<Part>, s: Solution, labels: Labels) {
    forall i :: 0 <= i < |pattern| ==> Value(pattern[i], s, labels).Some?
  }

  function Instance(pattern: seq<Part>, s: Solution, labels: Labels): (t: Triple)
    requires Bound(pattern, s, labels)
    ensures |t| == |pattern| && forall i :: 0 <= i < |pattern| ==> Some(t[i]) == Value(pattern[i], s, labels)
  {
    seq(|pattern|, i requires 0 <= i < |pattern| => Value(pattern[i], s, labels).value)
  }

  /** The instances of a template, without those that have an unbound part. */
  function Instances(template: Template, s: Solution, labels: Labels): seq<Triple> {
    if template == [] then []
    else Instances(Init(template), s, labels)
         + (if Bound(Last(template), s, labels) then [Instance(Last(template), s, labels)] else [])
  }

  /** All parts of the pattern are bound, and give the triple. */
  predicate Gives(pattern: seq<Part>, s: Solution, labels: Labels, t: Triple) {
    Bound(pattern, s, labels) && Instance(pattern, s, labels) == t
  }

  /** A triple is an instance exactly if some pattern with all parts bound gives it. */
  lemma {:induction false} InstancesIff(template: Template, s: Solution, labels: Labels, t: Triple)
    ensures t in Instances(template, s, labels) <==> exists i :: 0 <= i < |template| && Gives(template[i], s, labels, t)
    decreases |template|
  {
    if template != [] {
      InstancesIff(Init(template), s, labels, t);
      InstancesLast(template, s, labels, t);
      hide Gives, Instances;
      assert forall i :: 0 <= i < |template| - 1 ==> Init(template)[i] == template[i];
      assert template[|template| - 1] == Last(template);
    }
  }

  lemma InstancesLast(template: Template, s: Solution, labels: Labels, t: Triple)
    requires template != []
    ensures t in Instances(template, s, labels) <==>
            t in Instances(Init(template), s, labels) || Gives(Last(template), s, labels, t)
  {
  }

  /* ---------- labels ---------- */

  /** One blank node for each label, from the numbers between lo and hi, and none twice. */
  predicate Numbered(labels: Labels, lo: nat, hi: nat) {
    && (forall l :: l in labels ==> lo <= labels[l] < hi)
    && (forall l, m :: l in labels && m in labels && labels[l] == labels[m] ==> l == m)
  }

  predicate Grown(a: Labels, b: Labels) {
    forall l :: l in a ==> l in b && b[l] == a[l]
  }

  /** The pattern's value does not change when labels are added later. */
  predicate Settled(pattern: seq<Part>, s: Solution, labels: Labels) {
    (forall i :: 0 <= i < |pattern| && pattern[i].Anonymous? ==> pattern[i].label_ in labels)
    || exists i :: 0 <= i < |pattern| && !pattern[i].Anonymous? && Value(pattern[i], s, labels).None?
  }

  lemma UnboundSettles(pattern: seq<Part>, s: Solution, labels: Labels, i: nat)
    requires i < |pattern| && !pattern[i].Anonymous? && Value(pattern[i], s, labels).None?
    ensures Settled(pattern, s, labels) && !Bound(pattern, s, labels)
  {
  }

  lemma BoundSettles(pattern: seq<Part>, s: Solution, labels: Labels, key: Triple)
    requires |key| == |pattern| && forall k :: 0 <= k < |pattern| ==> Value(pattern[k], s, labels) == Some(key[k])
    requires forall k :: 0 <= k < |pattern| && pattern[k].Anonymous? ==> pattern[k].label_ in labels
    ensures Settled(pattern, s, labels) && Bound(pattern, s, labels) && Instance(pattern, s, labels) == key
  {
  }

  lemma SettledStays(pattern: seq<Part>, s: Solution, a: Labels, b: Labels)
    requires Grown(a, b) && Settled(pattern, s, a)
    ensures Settled(pattern, s, b) && (Bound(pattern, s, a) <==> Bound(pattern, s, b))
    ensures Bound(pattern, s, a) ==> Instance(pattern, s, a) == Instance(pattern, s, b)
  {
    if forall i :: 0 <= i < |pattern| && pattern[i].Anonymous? ==> pattern[i].label_ in a {
      forall i | 0 <= i < |pattern| ensures Value(pattern[i], s, a) == Value(pattern[i], s, b) {
      }
    } else {
      var i :| 0 <= i < |pattern| && !pattern[i].Anonymous? && Value(pattern[i], s, a).None?;
      assert Value(pattern[i], s, b).None?;
    }
  }

  predicate AllSettled(template: Template, s: Solution, labels: Labels) {
    forall i :: 0 <= i < |template| ==> Settled(template[i], s, labels)
  }

  lemma {:induction false} InstancesStay(template: Template, s: Solution, a: Labels, b: Labels)
    requires Grown(a, b) && AllSettled(template, s, a)
    ensures AllSettled(template, s, b) && Instances(template, s, a) == Instances(template, s, b)
    decreases |template|
  {
    if template != [] {
      assert template[|template| - 1] == Last(template);
      assert forall i :: 0 <= i < |template| - 1 ==> Init(template)[i] == template[i];
      InstancesStay(Init(template), s, a, b);
      SettledStays(Last(template), s, a, b);
    }
  }

  /** The labels of a pattern from its i-th part on, numbered from next, up to the first unbound part. */
  function PatternNumbers(pattern: seq<Part>, i: nat, s: Solution, labels: Labels, next: nat): (Labels, nat)
    requires i <= |pattern|
    decreases |pattern| - i
  {
    if i == |pattern| then (labels, next)
    else if pattern[i].Anonymous? && pattern[i].label_ !in labels then
      PatternNumbers(pattern, i + 1, s, labels[pattern[i].label_ := next], next + 1)
    else if Value(pattern[i], s, labels).None? then (labels, next)
    else PatternNumbers(pattern, i + 1, s, labels, next)
  }

  function TemplateNumbers(template: Template, s: Solution, next: nat): (Labels, nat) {
    if template == [] then (map[], next)
    else
      var before := TemplateNumbers(Init(template), s, next);
      PatternNumbers(Last(template), 0, s, before.0, before.1)
  }

  /** The blank nodes of an insertion, solution by solution, and the number the next one gets. */
  function Numbers(template: Template, solutions: seq<Solution>, next: nat): (r: (seq<Labels>, nat))
    ensures |r.0| == |solutions|
  {
    if solutions == [] then ([], next)
    else
      var before := Numbers(template, Init(solutions), next);
      var last := TemplateNumbers(template, Last(solutions), before.1);
      (before.0 + [last.0], last.1)
  }

  /* ---------- the store ---------- */

  class TripleStore {
    var graph: set<Triple>
    var bnodeId: nat

    constructor (graph: set<Triple>)
      ensures this.graph == graph && bnodeId == 0
    {
      this.graph := graph;
      bnodeId := 0;
    }

    /** The node of a label: the one it already has, or a new one. */
    method NodeOf(labels: Labels, l: nat, ghost lo: nat) returns (r: Labels)
      requires lo <= bnodeId && Numbered(labels, lo, bnodeId)
      modifies this`bnodeId
      ensures lo <= bnodeId && Numbered(r, lo, bnodeId) && Grown(labels, r) && l in r
      ensures r == (if l in labels then labels else labels[l := old(bnodeId)])
      ensures bnodeId == if l in labels then old(bnodeId) else old(bnodeId) + 1
    {
      if l in labels {
        return labels;
      }
      r := labels[l := bnodeId];
      bnodeId := bnodeId + 1;
    }

    /** Instantiates one pattern, up to its first unbound part. */
    method Populate(pattern: seq<Part>, s: Solution, labels: Labels, ghost lo: nat) returns (t: Option<Triple>, r: Labels)
      requires lo <= bnodeId && Numbered(labels, lo, bnodeId)
      modifies this`bnodeId
      ensures lo <= bnodeId && Numbered(r, lo, bnodeId) && Grown(labels, r) && Settled(pattern, s, r)
      ensures t == if Bound(pattern, s, r) then Some(Instance(pattern, s, r)) else None
      ensures (r, bnodeId) == PatternNumbers(pattern, 0, s, labels, old(bnodeId))
    {
      hide Numbered, Settled, Bound;
      var key: Triple := [];
      r := labels;
      for i := 0 to |pattern|
        invariant lo <= bnodeId && Numbered(r, lo, bnodeId) && Grown(labels, r) && |key| == i
        invariant forall k :: 0 <= k < i ==> Value(pattern[k], s, r) == Some(key[k])
        invariant forall k :: 0 <= k < i && pattern[k].Anonymous? ==> pattern[k].label_ in r
        invariant PatternNumbers(pattern, i, s, r, bnodeId) == PatternNumbers(pattern, 0, s, labels, old(bnodeId))
      {
        ghost var before := r;
        if pattern[i].Anonymous? {
          r := NodeOf(r, pattern[i].label_, lo);
        }
        assert forall k :: 0 <= k < i ==> Value(pattern[k], s, r) == Value(pattern[k], s, before);
        var part := Value(pattern[i], s, r);
        if part.None? {
          UnboundSettles(pattern, s, r, i);
          return None, r;
        }
        key := key + [part.value];
      }
      BoundSettles(pattern, s, r, key);
      t := Some(key);
    }

    /** The instances of a template for one solution, with its own blank nodes. */
    method PopulateEntriesForUpdateOp(template: Template, s: Solution) returns (entries: seq<Triple>, labels: Labels)
      modifies this`bnodeId
      ensures old(bnodeId) <= bnodeId && Numbered(labels, old(bnodeId), bnodeId)
      ensures entries == Instances(template, s, labels) && AllSettled(template, s, labels)
      ensures (labels, bnodeId) == TemplateNumbers(template, s, old(bnodeId))
    {
      ghost var lo := bnodeId;
      labels := map[];
      entries := [];
      for i := 0 to |template|
        invariant lo <= bnodeId && Numbered(labels, lo, bnodeId)
        invariant AllSettled(template[..i], s, labels) && entries == Instances(template[..i], s, labels)
        invariant (labels, bnodeId) == TemplateNumbers(template[..i], s, old(bnodeId))
      {
        ghost var before := labels;
        var t;
        t, labels := Populate(template[i], s, labels, lo);
        InstancesStay(template[..i], s, before, labels);
        assert Init(template[..i + 1]) == template[..i];
        if t.Some? {
          entries := entries + [t.value];
        }
      }
      assert template[..|template|] == template;
    }

    /** Removes the entries that are in the graph; one with an unknown part is in no graph. */
    method BulkRemove(entries: seq<seq<Option<Node>>>)
      modifies this`graph
      ensures graph == set t | t in old(graph) && Known(t) !in entries
    {
      for i := 0 to |entries|
        invariant graph == set t | t in old(graph) && Known(t) !in entries[..i]
      {
        assert entries[..i + 1] == entries[..i] + [entries[i]];
        graph := set t | t in graph && Known(t) != entries[i];
      }
      assert entries[..|entries|] == entries;
    }

    method BulkInsert(entries: seq<Triple>)
      modifies this`graph
      ensures graph == old(graph) + Elements(entries)
    {
      for i := 0 to |entries|
        invariant graph == old(graph) + Elements(entries[..i])
      {
        assert entries[..i + 1] == entries[..i] + [entries[i]];
        graph := graph + {entries[i]};
      }
      assert entries[..|entries|] == entries;
    }

    /**
     Deletes what the deletion template stands for over all solutions and then
     inserts what the insertion template does; both from the solutions over the
     graph as it was, each with its own blank nodes.
     */
    method EvalModify(deleteTemplate: Template, insertTemplate: Template, eval: set<Triple> -> seq<Solution>)
      returns (labelings: seq<Labels>)
      requires NoLabels(deleteTemplate)
      modifies this
      ensures var solutions := eval(old(graph));
              && old(bnodeId) <= bnodeId && Apart(labelings, |solutions|, old(bnodeId), bnodeId)
              && graph == (old(graph) - Deleted(deleteTemplate, solutions)) + Inserted(insertTemplate, solutions, labelings)
              && (labelings, bnodeId) == Numbers(insertTemplate, solutions, old(bnodeId))
      ensures var solutions := eval(old(graph));
              |labelings| == |solutions|
              && forall t: Triple :: t in graph <==>
                   (exists i, j :: 0 <= i < |solutions| && 0 <= j < |insertTemplate| && Gives(insertTemplate[j], solutions[i], labelings[i], t))
                   || (t in old(graph)
                       && !exists i, j :: 0 <= i < |solutions| && 0 <= j < |deleteTemplate| && Gives(deleteTemplate[j], solutions[i], map[], t))
    {
      hide Gives, Instances, Apart, TemplateNumbers, NoLabels, AllSettled, Numbered;
      var solutions := eval(graph);
      NothingApart(bnodeId);
      var toRemove: seq<Triple>, toInsert: seq<Triple> := [], [];
      labelings := [];
      for i := 0 to |solutions|
        invariant graph == old(graph) && old(bnodeId) <= bnodeId && |labelings| == i && Apart(labelings, i, old(bnodeId), bnodeId)
        invariant Elements(toRemove) == Deleted(deleteTemplate, solutions[..i])
        invariant Elements(toInsert) == Inserted(insertTemplate, solutions[..i], labelings)
        invariant (labelings, bnodeId) == Numbers(insertTemplate, solutions[..i], old(bnodeId))
      {
        var before := bnodeId;
        var removed, none := PopulateEntriesForUpdateOp(deleteTemplate, solutions[i]);
        NoLabelsUsed(deleteTemplate, solutions[i], none);
        NoLabelsNumbered(deleteTemplate, solutions[i], before);
        var middle := bnodeId;
        var inserted, labels := PopulateEntriesForUpdateOp(insertTemplate, solutions[i]);
        assert Init(solutions[..i + 1]) == solutions[..i];
        ApartNext(labelings, i, old(bnodeId), before, middle, bnodeId, labels);
        InsertedNext(insertTemplate, solutions, labelings, i, labels);
        toRemove := toRemove + removed;
        toInsert := toInsert + inserted;
        labelings := labelings + [labels];
      }
      assert solutions[..|solutions|] == solutions;
      var entries := Knowns(toRemove);
      BulkRemove(entries);
      KnownsHave(toRemove);
      BulkInsert(toInsert);
      GraphAfter(old(graph), deleteTemplate, insertTemplate, solutions, labelings);
    }

    /** DELETE DATA, INSERT DATA, and the forms with a WHERE part. */
    method EvalSparqlUpdate(update: Update, eval: set<Triple> -> seq<Solution>) returns (labelings: seq<Labels>)
      requires update.Modify? ==> NoLabels(update.deleteTemplate)
      modifies this
      ensures update.DeleteData? ==> graph == set t | t in old(graph) && Known(t) !in update.delete
      ensures update.InsertData? ==> graph == old(graph) + Elements(update.insert)
      ensures !update.Modify? ==> bnodeId == old(bnodeId) && labelings == []
      ensures update.Modify? ==>
                var solutions := eval(old(graph));
                |labelings| == |solutions|
                && forall t: Triple :: t in graph <==>
                     (exists i, j :: 0 <= i < |solutions| && 0 <= j < |update.insertTemplate| && Gives(update.insertTemplate[j], solutions[i], labelings[i], t))
                     || (t in old(graph)
                         && !exists i, j :: 0 <= i < |solutions| && 0 <= j < |update.deleteTemplate| && Gives(update.deleteTemplate[j], solutions[i], map[], t))
      ensures update.Modify? ==>
                var solutions := eval(old(graph));
                && old(bnodeId) <= bnodeId && Apart(labelings, |solutions|, old(bnodeId), bnodeId)
                && graph == (old(graph) - Deleted(update.deleteTemplate, solutions)) + Inserted(update.insertTemplate, solutions, labelings)
                && (labelings, bnodeId) == Numbers(update.insertTemplate, solutions, old(bnodeId))
                && (BlanksBelow(old(graph), old(bnodeId)) && OldParts(update.insertTemplate, solutions, old(bnodeId)) ==>
                      AllNew(old(graph), labelings) && BlanksBelow(graph, bnodeId))
    {
      labelings := [];
      match update {
        case DeleteData(entries) => BulkRemove(entries);
        case InsertData(entries) => BulkInsert(entries);
        case Modify(deleteTemplate, insertTemplate) =>
          hide *;
          labelings := EvalModify(deleteTemplate, insertTemplate, eval);
          ghost var solutions := eval(old(graph));
          if BlanksBelow(old(graph), old(bnodeId)) && OldParts(insertTemplate, solutions, old(bnodeId)) {
            BlanksStayNew(old(graph), deleteTemplate, insertTemplate, solutions, labelings, old(bnodeId), bnodeId);
          }
      }
    }
  }

  /** A triple as an entry all of whose parts are known. */
  function Known(t: Triple): (e: seq<Option<Node>>)
    ensures |e| == |t| && forall i :: 0 <= i < |t| ==> e[i] == Some(t[i])
  {
    seq(|t|, i requires 0 <= i < |t| => Some(t[i]))
  }

  function Knowns(ts: seq<Triple>): (r: seq<seq<Option<Node>>>)
    ensures |r| == |ts| && forall i :: 0 <= i < |ts| ==> r[i] == Known(ts[i])
  {
    seq(|ts|, i requires 0 <= i < |ts| => Known(ts[i]))
  }

  lemma KnownsHave(ts: seq<Triple>)
    ensures forall t :: Known(t) in Knowns(ts) <==> t in Elements(ts)
  {
    forall t ensures Known(t) in Knowns(ts) <==> t in ts {
      if Known(t) in Knowns(ts) {
        var i :| 0 <= i < |ts| && Knowns(ts)[i] == Known(t);
        assert forall k :: 0 <= k < |t| ==> Known(t)[k] == Known(ts[i])[k];
        assert t == ts[i];
      }
      if t in ts {
        var i :| 0 <= i < |ts| && ts[i] == t;
        assert Knowns(ts)[i] == Known(t);
      }
    }
  }

  /** Blank node labels are not allowed in deletion templates. */
  predicate NoLabels(template: Template) {
    forall i, j :: 0 <= i < |template| && 0 <= j < |template[i]| ==> !template[i][j].Anonymous?
  }

  lemma NoLabelsUsed(template: Template, s: Solution, labels: Labels)
    requires NoLabels(template)
    ensures Instances(template, s, labels) == Instances(template, s, map[])
  {
    assert AllSettled(template, s, map[]);
    InstancesStay(template, s, map[], labels);
  }

  lemma {:induction false} NothingNumbered(pattern: seq<Part>, i: nat, s: Solution, next: nat)
    requires i <= |pattern| && forall j :: 0 <= j < |pattern| ==> !pattern[j].Anonymous?
    ensures PatternNumbers(pattern, i, s, map[], next) == (map[], next)
    decreases |pattern| - i
  {
    if i < |pattern| {
      NothingNumbered(pattern, i + 1, s, next);
    }
  }

  lemma {:induction false} NoLabelsNumbered(template: Template, s: Solution, next: nat)
    requires NoLabels(template)
    ensures TemplateNumbers(template, s, next) == (map[], next)
    decreases |template|
  {
    if template != [] {
      assert template[|template| - 1] == Last(template);
      assert forall i :: 0 <= i < |template| - 1 ==> Init(template)[i] == template[i];
      NoLabelsNumbered(Init(template), s, next);
      NothingNumbered(Last(template), 0, s, next);
    }
  }

  /** What a deletion template stands for over all solutions. */
  function Deleted(template: Template, solutions: seq<Solution>): set<Triple> {
    if solutions == [] then {} else Deleted(template, Init(solutions)) + Elements(Instances(template, Last(solutions), map[]))
  }

  /** What an insertion template stands for, with the blank nodes of each solution. */
  function Inserted(template: Template, solutions: seq<Solution>, labelings: seq<Labels>): set<Triple>
    requires |labelings| == |solutions|
  {
    if solutions == [] then {}
    else Inserted(template, Init(solutions), Init(labelings)) + Elements(Instances(template, Last(solutions), Last(labelings)))
  }

  /** A triple is inserted exactly if some pattern gives it for some solution and its blank nodes. */
  lemma InsertedExactly(template: Template, solutions: seq<Solution>, labelings: seq<Labels>, t: Triple)
    requires |labelings| == |solutions|
    ensures t in Inserted(template, solutions, labelings) <==>
            exists i, j :: 0 <= i < |solutions| && 0 <= j < |template| && Gives(template[j], solutions[i], labelings[i], t)
  {
    hide Gives, Instances, Inserted;
    InsertedIff(template, solutions, labelings, t);
    forall i | 0 <= i < |solutions|
      ensures t in Instances(template, solutions[i], labelings[i]) <==>
              exists j :: 0 <= j < |template| && Gives(template[j], solutions[i], labelings[i], t)
    {
      InstancesIff(template, solutions[i], labelings[i], t);
    }
  }

  function NoLabelings(n: nat): (r: seq<Labels>)
    ensures |r| == n && forall i :: 0 <= i < n ==> r[i] == map[]
  {
    seq(n, _ => map[])
  }

  lemma {:induction false} DeletedInserted(template: Template, solutions: seq<Solution>)
    ensures Deleted(template, solutions) == Inserted(template, solutions, NoLabelings(|solutions|))
    decreases |solutions|
  {
    hide Instances;
    if solutions != [] {
      DeletedInserted(template, Init(solutions));
      assert Init(NoLabelings(|solutions|)) == NoLabelings(|solutions| - 1) && Last(NoLabelings(|solutions|)) == map[];
    }
  }

  /** A triple is deleted exactly if some pattern gives it for some solution. */
  lemma DeletedIff(template: Template, solutions: seq<Solution>, t: Triple)
    ensures t in Deleted(template, solutions) <==>
            exists i, j :: 0 <= i < |solutions| && 0 <= j < |template| && Gives(template[j], solutions[i], map[], t)
  {
    hide Gives, Inserted, Deleted;
    DeletedInserted(template, solutions);
    var none := NoLabelings(|solutions|);
    InsertedExactly(template, solutions, none, t);
    if i, j :| 0 <= i < |solutions| && 0 <= j < |template| && Gives(template[j], solutions[i], none[i], t) {
      assert Gives(template[j], solutions[i], map[], t);
    }
    if i, j :| 0 <= i < |solutions| && 0 <= j < |template| && Gives(template[j], solutions[i], map[], t) {
      assert Gives(template[j], solutions[i], none[i], t);
    }
  }

  /** What is in the graph after all deletions and insertions. */
  lemma TripleAfter(graph: set<Triple>, deleteTemplate: Template, insertTemplate: Template, solutions: seq<Solution>, labelings: seq<Labels>,
                    t: Triple)
    requires |labelings| == |solutions|
    ensures t in (graph - Deleted(deleteTemplate, solutions)) + Inserted(insertTemplate, solutions, labelings) <==>
              (exists i, j :: 0 <= i < |solutions| && 0 <= j < |insertTemplate| && Gives(insertTemplate[j], solutions[i], labelings[i], t))
              || (t in graph
                  && !exists i, j :: 0 <= i < |solutions| && 0 <= j < |deleteTemplate| && Gives(deleteTemplate[j], solutions[i], map[], t))
  {
    hide *;
    DeletedIff(deleteTemplate, solutions, t);
    InsertedExactly(insertTemplate, solutions, labelings, t);
  }

  lemma GraphAfter(graph: set<Triple>, deleteTemplate: Template, insertTemplate: Template, solutions: seq<Solution>, labelings: seq<Labels>)
    requires |labelings| == |solutions|
    ensures forall t: Triple :: t in (graph - Deleted(deleteTemplate, solutions)) + Inserted(insertTemplate, solutions, labelings) <==>
              (exists i, j :: 0 <= i < |solutions| && 0 <= j < |insertTemplate| && Gives(insertTemplate[j], solutions[i], labelings[i], t))
              || (t in graph
                  && !exists i, j :: 0 <= i < |solutions| && 0 <= j < |deleteTemplate| && Gives(deleteTemplate[j], solutions[i], map[], t))
  {
    hide *;
    forall t: Triple {
      TripleAfter(graph, deleteTemplate, insertTemplate, solutions, labelings, t);
    }
  }

  /** One labeling for each solution, with numbers between lo and hi; no two share a blank node. */
  predicate Apart(labelings: seq<Labels>, n: nat, lo: nat, hi: nat) {
    && |labelings| == n
    && (forall i :: 0 <= i < n ==> Numbered(labelings[i], lo, hi))
    && (forall i, j, l, m :: 0 <= i < j < n && l in labelings[i] && m in labelings[j] ==> labelings[i][l] != labelings[j][m])
  }

  lemma NothingApart(lo: nat)
    ensures Apart([], 0, lo, lo)
  {
  }

  lemma ApartNext(labelings: seq<Labels>, n: nat, lo: nat, before: nat, middle: nat, after: nat, labels: Labels)
    requires Apart(labelings, n, lo, before) && lo <= before <= middle <= after && Numbered(labels, middle, after)
    ensures Apart(labelings + [labels], n + 1, lo, after)
  {
    var r := labelings + [labels];
    forall i, j, l, m | 0 <= i < j < n + 1 && l in r[i] && m in r[j] ensures r[i][l] != r[j][m] {
      if j == n {
        assert Numbered(labelings[i], lo, before);
      }
    }
  }

  lemma InsertedNext(template: Template, solutions: seq<Solution>, labelings: seq<Labels>, i: nat, labels: Labels)
    requires i < |solutions| && |labelings| == i
    ensures Inserted(template, solutions[..i + 1], labelings + [labels])
         == Inserted(template, solutions[..i], labelings) + Elements(Instances(template, solutions[i], labels))
  {
    assert Init(solutions[..i + 1]) == solutions[..i] && Init(labelings + [labels]) == labelings;
  }

  lemma {:induction false} InsertedIff(template: Template, solutions: seq<Solution>, labelings: seq<Labels>, t: Triple)
    requires |labelings| == |solutions|
    ensures t in Inserted(template, solutions, labelings) <==>
            exists i :: 0 <= i < |solutions| && t in Instances(template, solutions[i], labelings[i])
    decreases |solutions|
  {
    hide Instances, Inserted;
    if solutions == [] {
      InsertedNone(template, t);
    } else {
      InsertedIff(template, Init(solutions), Init(labelings), t);
      InsertedLast(template, solutions, labelings, t);
      InstanceAtLast(template, solutions, labelings, t);
    }
  }

  lemma InsertedNone(template: Template, t: Triple)
    ensures t !in Inserted(template, [], [])
  {
  }

  lemma InsertedLast(template: Template, solutions: seq<Solution>, labelings: seq<Labels>, t: Triple)
    requires |labelings| == |solutions| && solutions != []
    ensures t in Inserted(template, solutions, labelings) <==>
            t in Inserted(template, Init(solutions), Init(labelings)) || t in Instances(template, Last(solutions), Last(labelings))
  {
    hide Instances;
  }

  lemma InstanceAtLast(template: Template, solutions: seq<Solution>, labelings: seq<Labels>, t: Triple)
    requires |labelings| == |solutions| && solutions != []
    ensures (exists i :: 0 <= i < |solutions| && t in Instances(template, solutions[i], labelings[i])) <==>
            (exists i :: 0 <= i < |Init(solutions)| && t in Instances(template, Init(solutions)[i], Init(labelings)[i]))
            || t in Instances(template, Last(solutions), Last(labelings))
  {
    hide Instances;
    var n := |solutions| - 1;
    assert forall i :: 0 <= i < n ==> Init(solutions)[i] == solutions[i] && Init(labelings)[i] == labelings[i];
    assert Last(solutions) == solutions[n] && Last(labelings) == labelings[n];
  }

  /* ---------- new blank nodes are new ---------- */

  predicate OldNode(node: Node, n: nat) {
    node.Blank? ==> node.number < n
  }

  /** All numbered blank nodes of the graph have numbers below n. */
  predicate BlanksBelow(graph: set<Triple>, n: nat) {
    forall t, i :: t in graph && 0 <= i < |t| ==> OldNode(t[i], n)
  }

  /** Constants and bindings hold no blank node that is still to be created. */
  predicate OldParts(template: Template, solutions: seq<Solution>, n: nat) {
    && (forall i, j :: 0 <= i < |template| && 0 <= j < |template[i]| && template[i][j].Constant? && template[i][j].node.Some? ==>
          OldNode(template[i][j].node.value, n))
    && (forall i, j :: 0 <= i < |solutions| && 0 <= j < |solutions[i]| && solutions[i][j].Some? ==> OldNode(solutions[i][j].value, n))
  }

  /** The blank nodes of the labels occur nowhere in the graph. */
  predicate AllNew(graph: set<Triple>, labelings: seq<Labels>) {
    forall t, i, l :: t in graph && 0 <= i < |labelings| && l in labelings[i] ==> Blank(labelings[i][l]) !in t
  }

  /**
   The blank nodes an update creates occur nowhere in the graph it started from,
   and this stays so for the next update.
   */
  lemma BlanksStayNew(graph: set<Triple>, deleteTemplate: Template, insertTemplate: Template, solutions: seq<Solution>,
                      labelings: seq<Labels>, lo: nat, hi: nat)
    requires lo <= hi && BlanksBelow(graph, lo) && OldParts(insertTemplate, solutions, lo) && Apart(labelings, |solutions|, lo, hi)
    ensures BlanksBelow((graph - Deleted(deleteTemplate, solutions)) + Inserted(insertTemplate, solutions, labelings), hi)
    ensures AllNew(graph, labelings)
  {
    var r := (graph - Deleted(deleteTemplate, solutions)) + Inserted(insertTemplate, solutions, labelings);
    forall t, k | t in r && 0 <= k < |t| ensures OldNode(t[k], hi) {
      if t in graph {
        assert OldNode(t[k], lo);
      } else {
        InsertedIff(insertTemplate, solutions, labelings, t);
        var i :| 0 <= i < |solutions| && t in Instances(insertTemplate, solutions[i], labelings[i]);
        InstanceOld(insertTemplate, solutions, i, labelings[i], t, k, lo, hi);
      }
    }
    forall t, i, l | t in graph && 0 <= i < |labelings| && l in labelings[i] ensures Blank(labelings[i][l]) !in t {
      assert Numbered(labelings[i], lo, hi);
      assert forall k :: 0 <= k < |t| ==> OldNode(t[k], lo);
    }
  }

  lemma InstanceOld(template: Template, solutions: seq<Solution>, i: nat, labels: Labels, t: Triple, k: nat, lo: nat, hi: nat)
    requires i < |solutions| && lo <= hi && Numbered(labels, lo, hi) && OldParts(template, solutions, lo)
    requires t in Instances(template, solutions[i], labels) && k < |t|
    ensures OldNode(t[k], hi)
  {
    InstancesIff(template, solutions[i], labels, t);
    var j :| 0 <= j < |template| && Gives(template[j], solutions[i], labels, t);
    assert Some(t[k]) == Value(template[j][k], solutions[i], labels);
  }

  /** Numbers start at next and go up; no two labels share one. */
  lemma {:induction false} PatternApart(pattern: seq<Part>, i: nat, s: Solution, labels: Labels, lo: nat, next: nat)
    requires i <= |pattern| && lo <= next && Numbered(labels, lo, next)
    ensures var r := PatternNumbers(pattern, i, s, labels, next); next <= r.1 && Numbered(r.0, lo, r.1)
    decreases |pattern| - i
  {
    if i < |pattern| {
      if pattern[i].Anonymous? && pattern[i].label_ !in labels {
        PatternApart(pattern, i + 1, s, labels[pattern[i].label_ := next], lo, next + 1);
      } else if Value(pattern[i], s, labels).Some? {
        PatternApart(pattern, i + 1, s, labels, lo, next);
      }
    }
  }

  lemma {:induction false} TemplateApart(template: Template, s: Solution, next: nat)
    ensures var r := TemplateNumbers(template, s, next); next <= r.1 && Numbered(r.0, next, r.1)
    decreases |template|
  {
    if template != [] {
      TemplateApart(Init(template), s, next);
      var before := TemplateNumbers(Init(template), s, next);
      PatternApart(Last(template), 0, s, before.0, next, before.1);
    }
  }

  lemma {:induction false} NumbersApart(template: Template, solutions: seq<Solution>, next: nat)
    ensures var r := Numbers(template, solutions, next); next <= r.1 && Apart(r.0, |solutions|, next, r.1)
    decreases |solutions|
  {
    if solutions != [] {
      NumbersApart(template, Init(solutions), next);
      var before := Numbers(template, Init(solutions), next);
      TemplateApart(template, Last(solutions), before.1);
      var last := TemplateNumbers(template, Last(solutions), before.1);
      hide Apart, Numbered, TemplateNumbers;
      ApartNext(before.0, |solutions| - 1, next, before.1, before.1, last.1, last.0);
    }
  }

  /** A label is met from the i-th part on, before any other part that is unbound. */
  predicate Reached(pattern: seq<Part>, i: nat, s: Solution, l: nat) {
    exists k :: i <= k < |pattern| && pattern[k] == Anonymous(l) && BoundUpTo(pattern, i, k, s)
  }

  predicate BoundUpTo(pattern: seq<Part>, i: nat, k: nat, s: Solution)
    requires k <= |pattern|
  {
    forall j :: i <= j < k && !pattern[j].Anonymous? ==> Value(pattern[j], s, map[]).Some?
  }

  lemma ReachedStep(pattern: seq<Part>, i: nat, s: Solution, l: nat)
    requires i < |pattern|
    ensures Reached(pattern, i, s, l) <==>
            pattern[i] == Anonymous(l)
            || ((pattern[i].Anonymous? || Value(pattern[i], s, map[]).Some?) && Reached(pattern, i + 1, s, l))
  {
    if Reached(pattern, i, s, l) && pattern[i] != Anonymous(l) {
      var k :| i <= k < |pattern| && pattern[k] == Anonymous(l) && BoundUpTo(pattern, i, k, s);
      assert BoundUpTo(pattern, i + 1, k, s);
    }
    if (pattern[i].Anonymous? || Value(pattern[i], s, map[]).Some?) && Reached(pattern, i + 1, s, l) {
      var k :| i + 1 <= k < |pattern| && pattern[k] == Anonymous(l) && BoundUpTo(pattern, i + 1, k, s);
      assert BoundUpTo(pattern, i, k, s);
    }
    if pattern[i] == Anonymous(l) {
      assert BoundUpTo(pattern, i, i, s);
    }
  }

  ghost predicate HasNumber(labels: Labels, v: nat) {
    exists l :: l in labels && labels[l] == v
  }

  /** No number from next to n is left out. */
  ghost predicate Filled(labels: Labels, next: nat, n: nat) {
    forall v: nat :: next <= v < n ==> HasNumber(labels, v)
  }

  lemma KeepsNumber(a: Labels, b: Labels, v: nat)
    requires Grown(a, b) && HasNumber(a, v)
    ensures HasNumber(b, v)
  {
    var l :| l in a && a[l] == v;
    assert l in b && b[l] == v;
  }

  /** Exactly the labels that are met get a node, and old ones keep theirs. */
  lemma {:induction false} PatternLabels(pattern: seq<Part>, i: nat, s: Solution, labels: Labels, next: nat)
    requires i <= |pattern|
    ensures var r := PatternNumbers(pattern, i, s, labels, next);
            && Grown(labels, r.0) && (forall l :: l in r.0 <==> l in labels || Reached(pattern, i, s, l)) && Filled(r.0, next, r.1)
    decreases |pattern| - i
  {
    hide Reached, HasNumber;
    if i == |pattern| {
      NotReached(pattern, s);
    } else {
      forall l: nat
        ensures Reached(pattern, i, s, l) <==>
                pattern[i] == Anonymous(l)
                || ((pattern[i].Anonymous? || Value(pattern[i], s, map[]).Some?) && Reached(pattern, i + 1, s, l))
      {
        ReachedStep(pattern, i, s, l);
      }
      if pattern[i].Anonymous? && pattern[i].label_ !in labels {
        var m := labels[pattern[i].label_ := next];
        PatternLabels(pattern, i + 1, s, m, next + 1);
        NewNumber(m, pattern[i].label_, next);
        KeepsNumber(m, PatternNumbers(pattern, i + 1, s, m, next + 1).0, next);
      } else if Value(pattern[i], s, labels).Some? {
        PatternLabels(pattern, i + 1, s, labels, next);
      }
    }
  }

  lemma NewNumber(labels: Labels, l: nat, v: nat)
    requires l in labels && labels[l] == v
    ensures HasNumber(labels, v)
  {
  }

  lemma NotReached(pattern: seq<Part>, s: Solution)
    ensures forall l :: !Reached(pattern, |pattern|, s, l)
  {
  }

  /** A label is met in some pattern. */
  ghost predicate Met(template: Template, s: Solution, l: nat) {
    exists j :: 0 <= j < |template| && Reached(template[j], 0, s, l)
  }

  lemma MetStep(template: Template, s: Solution, l: nat)
    ensures template == [] ==> !Met(template, s, l)
    ensures template != [] ==> (Met(template, s, l) <==> Met(Init(template), s, l) || Reached(Last(template), 0, s, l))
  {
    hide Reached;
    if template != [] {
      var n := |template| - 1;
      assert forall j :: 0 <= j < n ==> Init(template)[j] == template[j];
      assert template[n] == Last(template);
    }
  }

  lemma {:induction false} TemplateLabels(template: Template, s: Solution, next: nat)
    ensures var r := TemplateNumbers(template, s, next); (forall l :: l in r.0 <==> Met(template, s, l)) && Filled(r.0, next, r.1)
    decreases |template|
  {
    hide Reached, PatternNumbers, Met, HasNumber;
    forall l: nat { MetStep(template, s, l); }
    if template != [] {
      TemplateLabels(Init(template), s, next);
      var before := TemplateNumbers(Init(template), s, next);
      PatternLabels(Last(template), 0, s, before.0, before.1);
      var r := TemplateNumbers(template, s, next);
      forall v: nat | next <= v < r.1 ensures HasNumber(r.0, v) {
        if v < before.1 {
          KeepsNumber(before.0, r.0, v);
        }
      }
    }
  }

  ghost predicate SomeHasNumber(labelings: seq<Labels>, v: nat) {
    exists i :: 0 <= i < |labelings| && HasNumber(labelings[i], v)
  }

  /** The blank nodes of an insertion: for each solution exactly the labels that are met, and together all numbers from the first on. */
  lemma NumbersExactly(template: Template, solutions: seq<Solution>, next: nat)
    ensures var r := Numbers(template, solutions, next);
            && LabelsMet(template, solutions, r.0)
            && (forall v: nat :: next <= v < r.1 <==> SomeHasNumber(r.0, v))
  {
    hide Met, Numbers, Filled;
    NumbersApart(template, solutions, next);
    NumbersFilled(template, solutions, next);
    var r := Numbers(template, solutions, next);
    forall v: nat | SomeHasNumber(r.0, v) ensures next <= v < r.1 {
      var i :| 0 <= i < |r.0| && HasNumber(r.0[i], v);
      assert Numbered(r.0[i], next, r.1);
    }
  }

  ghost predicate AllFilled(labelings: seq<Labels>, next: nat, n: nat) {
    forall v: nat :: next <= v < n ==> SomeHasNumber(labelings, v)
  }

  lemma NothingFilled(next: nat)
    ensures AllFilled([], next, next)
  {
  }

  lemma FilledLast(labelings: seq<Labels>, last: Labels, next: nat, middle: nat, n: nat)
    requires AllFilled(labelings, next, middle) && Filled(last, middle, n)
    ensures AllFilled(labelings + [last], next, n)
  {
    hide HasNumber, SomeHasNumber;
    forall v: nat | next <= v < n ensures SomeHasNumber(labelings + [last], v) {
      SomeLast(labelings, last, v);
    }
  }

  /** Each solution has exactly the labels that are met. */
  ghost predicate LabelsMet(template: Template, solutions: seq<Solution>, labelings: seq<Labels>) {
    |labelings| == |solutions| && forall i, l :: 0 <= i < |solutions| ==> (l in labelings[i] <==> Met(template, solutions[i], l))
  }

  lemma MetLast(template: Template, solutions: seq<Solution>, labelings: seq<Labels>, s: Solution, last: Labels)
    requires LabelsMet(template, solutions, labelings) && forall l :: l in last <==> Met(template, s, l)
    ensures LabelsMet(template, solutions + [s], labelings + [last])
  {
    hide Met;
  }

  lemma NumbersLast(template: Template, solutions: seq<Solution>, next: nat)
    requires solutions != []
    ensures var before := Numbers(template, Init(solutions), next); var last := TemplateNumbers(template, Last(solutions), before.1);
            Numbers(template, solutions, next) == (before.0 + [last.0], last.1)
    ensures solutions == Init(solutions) + [Last(solutions)]
  {
  }

  lemma {:induction false} NumbersFilled(template: Template, solutions: seq<Solution>, next: nat)
    ensures var r := Numbers(template, solutions, next); LabelsMet(template, solutions, r.0) && AllFilled(r.0, next, r.1)
    decreases |solutions|
  {
    if solutions == [] {
      NothingFilled(next);
    } else {
      hide *;
      NumbersLast(template, solutions, next);
      NumbersFilled(template, Init(solutions), next);
      var before := Numbers(template, Init(solutions), next);
      var last := TemplateNumbers(template, Last(solutions), before.1);
      TemplateLabels(template, Last(solutions), before.1);
      MetLast(template, Init(solutions), before.0, Last(solutions), last.0);
      FilledLast(before.0, last.0, next, before.1, last.1);
    }
  }

  lemma SomeLast(labelings: seq<Labels>, last: Labels, v: nat)
    ensures SomeHasNumber(labelings, v) || HasNumber(last, v) ==> SomeHasNumber(labelings + [last], v)
  {
    hide HasNumber;
    var r := labelings + [last];
    if i :| 0 <= i < |labelings| && HasNumber(labelings[i], v) {
      assert HasNumber(r[i], v);
    }
    assert r[|labelings|] == last;
  }

  /** One label, instantiated for so many solutions. */
  const ONE_LABEL: Template := [[Anonymous(0), Constant(Some(Stored(0))), Constant(Some(Stored(0)))]]

  lemma OneNumber(next: nat)
    ensures TemplateNumbers(ONE_LABEL, [], next) == (map[0 := next], next + 1)
  {
    assert Init(ONE_LABEL) == [];
    var p := Last(ONE_LABEL);
    var labels: Labels := map[0 := next];
    assert PatternNumbers(p, 3, [], labels, next + 1) == (labels, next + 1);
    assert PatternNumbers(p, 2, [], labels, next + 1) == (labels, next + 1);
    assert PatternNumbers(p, 1, [], labels, next + 1) == (labels, next + 1);
    assert map[][0 := next] == labels;
  }

  function Copies(n: nat): (solutions: seq<Solution>)
    ensures |solutions| == n && forall i :: 0 <= i < n ==> solutions[i] == []
  {
    seq(n, _ => [])
  }

  lemma {:induction false} ManyNumbers(n: nat, next: nat)
    ensures var r := Numbers(ONE_LABEL, Copies(n), next); r.1 == next + n && (n > 0 ==> r.0[n - 1] == map[0 := next + n - 1])
  {
    hide TemplateNumbers;
    if n > 0 {
      ManyNumbers(n - 1, next);
      assert Init(Copies(n)) == Copies(n - 1) && Last(Copies(n)) == [];
      OneNumber(next + n - 1);
    }
  }

  /** Every insertion from this graph and this counter creates nodes that are new to the graph. */
  ghost predicate AlwaysNew(graph: set<Triple>, next: nat) {
    forall template: Template, solutions: seq<Solution> :: AllNew(graph, Numbers(template, solutions, next).0)
  }

  /** Updates create new nodes only exactly when the graph has no blank node whose number is still to come. */
  lemma NewExactly(graph: set<Triple>, next: nat)
    ensures AlwaysNew(graph, next) <==> BlanksBelow(graph, next)
  {
    hide Numbers;
    if BlanksBelow(graph, next) {
      forall template: Template, solutions: seq<Solution> ensures AllNew(graph, Numbers(template, solutions, next).0) {
        NumbersApart(template, solutions, next);
        NumbersNew(graph, Numbers(template, solutions, next).0, |solutions|, next, Numbers(template, solutions, next).1);
      }
    } else {
      var t: Triple, i: nat :| t in graph && 0 <= i < |t| && !OldNode(t[i], next);
      NotNew(graph, next, t, t[i].number);
    }
  }

  lemma NumbersNew(graph: set<Triple>, labelings: seq<Labels>, n: nat, lo: nat, hi: nat)
    requires BlanksBelow(graph, lo) && Apart(labelings, n, lo, hi)
    ensures AllNew(graph, labelings)
  {
    forall t, i, l | t in graph && 0 <= i < |labelings| && l in labelings[i] ensures Blank(labelings[i][l]) !in t {
      assert Numbered(labelings[i], lo, hi);
      assert forall k :: 0 <= k < |t| ==> OldNode(t[k], lo);
    }
  }

  /** A blank node of the graph whose number is still to come is created again. */
  lemma NotNew(graph: set<Triple>, next: nat, t: Triple, number: nat)
    requires t in graph && Blank(number) in t && number >= next
    ensures !AlwaysNew(graph, next)
  {
    var n := number - next + 1;
    ManyNumbers(n, next);
    hide Numbers;
    var labelings := Numbers(ONE_LABEL, Copies(n), next).0;
    assert 0 in labelings[n - 1] && labelings[n - 1][0] == number;
    assert !AllNew(graph, labelings);
  }

  /** A store of one triple about a blank node 0: inserting the triple for a new blank node changes nothing. */
  lemma BlankCollides()
    ensures var graph := {[Blank(0), Stored(0), Stored(0)]};
            var created := Numbers(ONE_LABEL, [[]], 0).0;
            && created == [map[0 := 0]] && !AllNew(graph, created)
            && graph + Inserted(ONE_LABEL, [[]], created) == graph
  {
    var graph := {[Blank(0), Stored(0), Stored(0)]};
    var solutions: seq<Solution> := [[]];
    assert Init(solutions) == [] && Last(solutions) == [];
    OneNumber(0);
    hide TemplateNumbers;
    var labels: Labels := map[0 := 0];
    assert Numbers(ONE_LABEL, [], 0) == ([], 0);
    assert Numbers(ONE_LABEL, solutions, 0).0 == [labels];
    var t := [Blank(0), Stored(0), Stored(0)];
    assert t in graph && 0 in labels && t[0] == Blank(labels[0]);
    assert Init(ONE_LABEL) == [] && Init([labels]) == [] && Last([labels]) == labels;
    assert Instance(Last(ONE_LABEL), [], labels) == t;
    assert Instances(ONE_LABEL, [], labels) == [t];
  }
}
