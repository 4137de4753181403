/**
 The node storage as its callers see it: whatever the interleaving, the answers
 are those of one map from identifiers to views that each call uses at once.
 */
module NodeHistory {
  import opened Graphs
  import opened NodeStorage

  type Content = map<NodeId, View>

  /* ---------- the map ---------- */

  /** What is stored after these answers. */
  ghost function After(init: Content, log: seq<Event>): Content {
    if log == [] then init else Changed(After(init, Init(log)), Last(log))
  }

  /** A made identifier is added, an erased one removed. */
  function Changed(c: Content, e: Event): Content {
    if e.Returned? && e.made then c[e.id := e.view] else if e.Erased? then c - {e.id} else c
  }

  ghost predicate HasView(c: Content, v: View) {
    exists id :: id in c && c[id] == v
  }

  /** So many identifiers of the datatype were made. */
  ghost function Made(log: seq<Event>, d: nat): nat {
    if log == [] then 0
    else Made(Init(log), d) + (if Last(log).Returned? && Last(log).made && Last(log).id.datatype_ == d then 1 else 0)
  }

  /** The number that an identifier made with this answer gets. */
  ghost function NumberFor(log: seq<Event>, minId: nat, e: Event): nat {
    minId + if e.Returned? then Made(log, e.view.datatype_) else 0
  }

  /** The answer that is right when c is stored, for the next number. */
  ghost predicate Answers(c: Content, next: nat, e: Event) {
    match e
    case Returned(v, id, made) => if made then !HasView(c, v) && id == NodeId(v.datatype_, next) else id in c && c[id] == v
    case NotFound(v) => !HasView(c, v)
    case Resolved(id, r) => r == if id in c then Some(c[id]) else None
    case Erased(id) => id in c
    case NothingErased(id) => id !in c
  }

  /** Every answer is right at its time. */
  ghost predicate Sequential(init: Content, minId: nat, log: seq<Event>) {
    forall i :: 0 <= i < |log| ==> Answers(After(init, log[..i]), NumberFor(log[..i], minId, log[i]), log[i])
  }

  /* ---------- the map in a state ---------- */

  ghost predicate IsLinking(s: State) {
    s.writer.Some? && s.writer.value in s.pcs && s.pcs[s.writer.value].Linking?
  }

  /** The identifiers whose making or erasing is not under way, or not decided. */
  ghost function Entered(s: State): map<NodeId, Ptr> {
    if IsLinking(s) then s.id2data else Ids(s)
  }

  ghost function Visible(s: State): Content {
    map id | id in Entered(s) && Entered(s)[id] in s.heap :: s.heap[Entered(s)[id]]
  }

  /** What the next made identifier of a datatype is counted from. */
  ghost predicate Counted(s: State, log: seq<Event>) {
    && (forall d: nat :: NextNumber(s, d) == s.minId + Made(log, d) + (if IsLinking(s) && s.pcs[s.writer.value].id.datatype_ == d then 1 else 0))
    && (IsLinking(s) ==> var pc := s.pcs[s.writer.value];
          pc.id == NodeId(pc.view.datatype_, s.minId + Made(log, pc.view.datatype_)) && !HasView(Visible(s), pc.view))
  }

  ghost predicate Matches(s: State, init: Content, minId: nat) {
    s.minId == minId && After(init, s.log) == Visible(s) && Sequential(init, minId, s.log) && Counted(s, s.log)
  }

  lemma {:induction false} SequentialGrows(init: Content, minId: nat, log: seq<Event>, e: Event)
    requires Sequential(init, minId, log) && Answers(After(init, log), NumberFor(log, minId, e), e)
    ensures Sequential(init, minId, log + [e])
  {
    hide Answers, After, NumberFor;
    var r := log + [e];
    forall i | 0 <= i < |r| ensures Answers(After(init, r[..i]), NumberFor(r[..i], minId, r[i]), r[i]) {
      if i < |log| {
        assert r[..i] == log[..i];
      } else {
        assert r[..i] == log;
      }
    }
  }

  lemma AfterNext(init: Content, log: seq<Event>, e: Event)
    ensures After(init, log + [e]) == Changed(After(init, log), e)
    ensures forall d :: Made(log + [e], d) == Made(log, d) + (if e.Returned? && e.made && e.id.datatype_ == d then 1 else 0)
  {
    assert Init(log + [e]) == log && Last(log + [e]) == e;
  }

  /* ---------- steps without an answer ---------- */

  lemma QuietMatches(s: State, r: State, init: Content, minId: nat)
    requires Matches(s, init, minId) && r.log == s.log && Visible(r) == Visible(s) && Counted(r, s.log) && r.minId == s.minId
    ensures Matches(r, init, minId)
  {
    hide Visible, Counted, Sequential, After;
  }

  /** The same entries, and the same identifier under way. */
  ghost predicate SameContent(s: State, r: State) {
    && r.heap == s.heap && r.issued == s.issued && r.minId == s.minId && Entered(r) == Entered(s)
    && IsLinking(r) == IsLinking(s) && (IsLinking(s) ==> r.pcs[r.writer.value] == s.pcs[s.writer.value])
  }

  lemma SameMatches(s: State, r: State, init: Content, minId: nat)
    requires Matches(s, init, minId) && r.log == s.log && SameContent(s, r)
    ensures Matches(r, init, minId)
  {
    hide Entered, Sequential, After, IsLinking, Made;
    assert Visible(r) == Visible(s);
  }

  lemma CallMatches(s: State, t: Tid, op: Op, init: Content, minId: nat)
    requires Inv(s) && Matches(s, init, minId) && Enabled(s, Call(t, op))
    ensures Matches(Apply(s, Call(t, op)), init, minId)
  {
    hide Inverse, Backed, IssuedBelow, LiveStored, LogFits, Sequential, After, Counted, Visible, Midway;
    var r := Apply(s, Call(t, op));
    assert SameContent(s, r);
    hide Locked, SameContent, Apply, Inv;
    SameMatches(s, r, init, minId);
  }

  /** Taking a lock. */
  lemma LockMatches(s: State, t: Tid, ptr: Ptr, init: Content, minId: nat)
    requires Inv(s) && Matches(s, init, minId) && Enabled(s, Proceed(t, ptr)) && (s.pcs[t].Called? || s.pcs[t].Missed?)
    ensures Matches(Apply(s, Proceed(t, ptr)), init, minId)
  {
    var r := Apply(s, Proceed(t, ptr));
    LockSame(s, t, ptr);
    hide Inv, Matches, SameContent, Apply, Enabled;
    SameMatches(s, r, init, minId);
  }

  lemma LockSame(s: State, t: Tid, ptr: Ptr)
    requires Enabled(s, Proceed(t, ptr)) && (s.pcs[t].Called? || s.pcs[t].Missed?)
    ensures SameContent(s, Apply(s, Proceed(t, ptr))) && Apply(s, Proceed(t, ptr)).log == s.log
  {
  }

  /** A backend is found by its view exactly if the view is stored. */
  lemma ViewStored(s: State, v: View)
    requires Inverse(Ids(s), s.data2id) && Backed(s) && !IsLinking(s)
    ensures IdOf(s, v).Some? ==> IdOf(s, v).value in Visible(s) && Visible(s)[IdOf(s, v).value] == v
    ensures IdOf(s, v).None? ==> !HasView(Visible(s), v)
  {
    IdOfIs(s, v);
    hide Ids, IdOf;
    if IdOf(s, v).None? {
      forall id | id in Visible(s) ensures Visible(s)[id] != v {
        assert !Holds(s, Ids(s)[id], v);
      }
    }
  }

  lemma EventMatches(s: State, r: State, init: Content, minId: nat, e: Event)
    requires Matches(s, init, minId) && r.log == s.log + [e] && Answers(Visible(s), NumberFor(s.log, minId, e), e)
    requires Visible(r) == Changed(Visible(s), e) && Counted(r, r.log) && r.minId == s.minId
    ensures Matches(r, init, minId)
  {
    hide Visible, Counted, Sequential, After, Answers, Changed;
    SequentialGrows(init, minId, s.log, e);
    AfterNext(init, s.log, e);
  }

  /** Leaving the critical section with an answer that changes nothing. */
  lemma LeaveMatches(s: State, t: Tid, e: Event, init: Content, minId: nat)
    requires Inv(s) && Matches(s, init, minId) && t in s.pcs && (s.pcs[t].Reading? || s.pcs[t].Writing?)
    requires Answers(Visible(s), NumberFor(s.log, minId, e), e) && !e.Erased? && (e.Returned? ==> !e.made)
    ensures Matches(Leave(s, t, e), init, minId)
  {
    hide *;
    LeaveContent(s, t, e);
    QuietAnswer(s, Leave(s, t, e), init, minId, e);
  }

  lemma QuietAnswer(s: State, r: State, init: Content, minId: nat, e: Event)
    requires Matches(s, init, minId) && SameContent(s, r) && !IsLinking(s) && r.log == s.log + [e]
    requires Answers(Visible(s), NumberFor(s.log, minId, e), e) && !e.Erased? && (e.Returned? ==> !e.made)
    ensures Matches(r, init, minId)
  {
    hide Entered, Sequential, After, Answers, IsLinking, Made, NumberFor;
    assert Visible(r) == Visible(s);
    AfterNext(init, s.log, e);
    hide Visible, Matches, SameContent, HasView;
    MatchesParts(s, init, minId);
    SameParts(s, r);
    EventMatches(s, r, init, minId, e);
  }

  lemma MatchesParts(s: State, init: Content, minId: nat)
    requires Matches(s, init, minId)
    ensures Counted(s, s.log) && s.minId == minId
  {
    hide Counted;
  }

  lemma SameParts(s: State, r: State)
    requires SameContent(s, r)
    ensures r.minId == s.minId && r.issued == s.issued && IsLinking(r) == IsLinking(s)
  {
    hide IsLinking, Entered;
  }

  lemma LeaveContent(s: State, t: Tid, e: Event)
    requires Inv(s) && t in s.pcs && (s.pcs[t].Reading? || s.pcs[t].Writing?)
    ensures SameContent(s, Leave(s, t, e)) && !IsLinking(s) && Leave(s, t, e).log == s.log + [e]
  {
    hide Inverse, Backed, IssuedBelow, LiveStored, LogFits, Midway;
  }

  lemma ReadMatches(s: State, t: Tid, ptr: Ptr, init: Content, minId: nat)
    requires Inv(s) && Matches(s, init, minId) && Enabled(s, Proceed(t, ptr)) && s.pcs[t].Reading?
    ensures Matches(Apply(s, Proceed(t, ptr)), init, minId)
  {
    hide IdOf, LogFits, LiveStored, IssuedBelow, Matches, Midway;
    assert s.writer.None?;
    match s.pcs[t].op {
      case FindOrMake(v) =>
        ViewStored(s, v);
        if IdOf(s, v).Some? {
          LeaveMatches(s, t, Returned(v, IdOf(s, v).value, false), init, minId);
        } else {
          var r := Apply(s, Proceed(t, ptr));
          assert SameContent(s, r);
          SameMatches(s, r, init, minId);
        }
      case Find(v) =>
        ViewStored(s, v);
        LeaveMatches(s, t, if IdOf(s, v).Some? then Returned(v, IdOf(s, v).value, false) else NotFound(v), init, minId);
      case Resolve(id) =>
        LeaveMatches(s, t, Resolved(id, ViewOf(s, id)), init, minId);
      case Erase(id) =>
    }
  }

  lemma FoundMatches(s: State, t: Tid, ptr: Ptr, init: Content, minId: nat)
    requires Inv(s) && Matches(s, init, minId) && Enabled(s, Proceed(t, ptr)) && s.pcs[t].Writing? && s.pcs[t].op.FindOrMake?
    requires IdOf(s, s.pcs[t].op.view).Some?
    ensures Matches(Apply(s, Proceed(t, ptr)), init, minId)
  {
    hide IdOf, LogFits, LiveStored, IssuedBelow, Matches, Midway;
    ViewStored(s, s.pcs[t].op.view);
    LeaveMatches(s, t, Returned(s.pcs[t].op.view, IdOf(s, s.pcs[t].op.view).value, false), init, minId);
  }

  /** The first half of an insertion shows nothing yet. */
  lemma InsertMatches(s: State, t: Tid, ptr: Ptr, init: Content, minId: nat)
    requires Inv(s) && Matches(s, init, minId) && Enabled(s, Proceed(t, ptr)) && s.pcs[t].Writing? && s.pcs[t].op.FindOrMake?
    requires IdOf(s, s.pcs[t].op.view).None?
    ensures Matches(Apply(s, Proceed(t, ptr)), init, minId)
  {
    var v := s.pcs[t].op.view;
    hide *;
    InsertShape(s, t, ptr);
    InsertFrom(s, AfterInsert(s, t, v, ptr), t, v, ptr, init, minId);
  }

  lemma InsertFrom(s: State, r: State, t: Tid, v: View, ptr: Ptr, init: Content, minId: nat)
    requires Inv(s) && Matches(s, init, minId) && t in s.pcs && s.pcs[t].Writing? && IdOf(s, v).None? && ptr !in s.heap
    requires r.heap == s.heap[ptr := v] && r.writer == s.writer && t in r.pcs && r.pcs[t] == Linking(v, NextId(s, v), ptr)
    requires r.id2data == s.id2data && r.issued == s.issued[v.datatype_ := NextId(s, v).number + 1] && r.minId == s.minId && r.log == s.log
    ensures Matches(r, init, minId)
  {
    hide *;
    InvParts(s);
    WriterIds(s, t);
    NotLinking(s, t);
    ViewStored(s, v);
    InsertCounted(s, r, t, v, ptr, init, minId);
    QuietMatches(s, r, init, minId);
  }

  lemma NotLinking(s: State, t: Tid)
    requires s.writer == Some(t) && t in s.pcs && !s.pcs[t].Linking?
    ensures !IsLinking(s) && Entered(s) == Ids(s)
  {
    hide Ids;
  }

  lemma InsertCounted(s: State, r: State, t: Tid, v: View, ptr: Ptr, init: Content, minId: nat)
    requires Matches(s, init, minId) && !HasView(Visible(s), v) && s.writer == Some(t) && !IsLinking(s) && Ids(s) == s.id2data
    requires Inverse(s.id2data, s.data2id) && Backed(s)
    requires ptr !in s.heap && r.heap == s.heap[ptr := v] && r.writer == Some(t) && t in r.pcs && r.pcs[t] == Linking(v, NextId(s, v), ptr)
    requires r.id2data == s.id2data && r.issued == s.issued[v.datatype_ := NextId(s, v).number + 1] && r.minId == s.minId
    ensures Visible(r) == Visible(s) && Counted(r, s.log)
  {
    hide After, Sequential, Made, HasView;
  }

  lemma EraseMatches(s: State, t: Tid, ptr: Ptr, init: Content, minId: nat)
    requires Inv(s) && Matches(s, init, minId) && Enabled(s, Proceed(t, ptr)) && s.pcs[t].Writing? && s.pcs[t].op.Erase?
    ensures Matches(Apply(s, Proceed(t, ptr)), init, minId)
  {
    var id := s.pcs[t].op.id;
    hide *;
    InvParts(s);
    WriterIds(s, t);
    NotLinking(s, t);
    EraseShape(s, t, ptr);
    if id !in s.id2data {
      AbsentAnswer(s, id, minId);
      LeaveMatches(s, t, NothingErased(id), init, minId);
    } else {
      var r := Apply(s, Proceed(t, ptr));
      UnlinkingIds(s, r, t, id, s.id2data[id]);
      NotLinking(r, t);
      EraseSame(s, r);
      SameMatches(s, r, init, minId);
    }
  }

  lemma AbsentAnswer(s: State, id: NodeId, minId: nat)
    requires Entered(s) == s.id2data && id !in s.id2data
    ensures Answers(Visible(s), NumberFor(s.log, minId, NothingErased(id)), NothingErased(id))
  {
    hide Entered;
  }

  lemma EraseSame(s: State, r: State)
    requires r.heap == s.heap && r.issued == s.issued && r.minId == s.minId && Entered(r) == Entered(s) && !IsLinking(s) && !IsLinking(r)
    ensures SameContent(s, r)
  {
    hide Entered, IsLinking;
  }

  lemma EraseShape(s: State, t: Tid, ptr: Ptr)
    requires Enabled(s, Proceed(t, ptr)) && s.pcs[t].Writing? && s.pcs[t].op.Erase? && s.writer == Some(t)
    requires Inverse(s.id2data, s.data2id) && Backed(s)
    ensures var id, r := s.pcs[t].op.id, Apply(s, Proceed(t, ptr));
            && (id !in s.id2data ==> r == Leave(s, t, NothingErased(id)))
            && (id in s.id2data ==>
                  && r.heap == s.heap && r.issued == s.issued && r.minId == s.minId && r.log == s.log && r.id2data == s.id2data - {id}
                  && r.writer == Some(t) && t in r.pcs && r.pcs[t] == Unlinking(id, s.id2data[id], s.id2data[id]))
  {
    var id := s.pcs[t].op.id;
    if id in s.id2data {
      OnlyPtr(s, s.id2data[id]);
      hide Inverse, Backed, PtrOf;
    }
  }

  lemma LinkMatches(s: State, t: Tid, ptr: Ptr, init: Content, minId: nat)
    requires Inv(s) && Matches(s, init, minId) && Enabled(s, Proceed(t, ptr)) && s.pcs[t].Linking?
    ensures Matches(Apply(s, Proceed(t, ptr)), init, minId)
  {
    hide LogFits, LiveStored, IssuedBelow, Backed, Inverse, Sequential, After, Made;
    var v, id, p := s.pcs[t].view, s.pcs[t].id, s.pcs[t].ptr;
    var r, e := Apply(s, Proceed(t, ptr)), Returned(v, id, true);
    assert s.writer == Some(t) && r.writer == None && r.log == s.log + [e] && r.id2data == s.id2data[id := p];
    AfterNext(init, s.log, e);
    assert Visible(r) == Changed(Visible(s), e);
    hide Visible, Inv, Locked, Midway, Apply, Enabled, Ids, Entered;
    EventMatches(s, r, init, minId, e);
  }

  lemma UnlinkMatches(s: State, t: Tid, ptr: Ptr, init: Content, minId: nat)
    requires Inv(s) && Matches(s, init, minId) && Enabled(s, Proceed(t, ptr)) && s.pcs[t].Unlinking?
    ensures Matches(Apply(s, Proceed(t, ptr)), init, minId)
  {
    var id, p := s.pcs[t].id, s.pcs[t].ptr;
    var r := Apply(s, Proceed(t, ptr));
    hide *;
    InvParts(s);
    UnlinkShape(s, t, ptr);
    UnlinkedIds(s, r, t, id, p);
    NotLinking(s, t);
    NotLinking(r, t);
    UnlinkVisible(s, r, id, p, init, minId);
    EventMatches(s, r, init, minId, Erased(id));
  }

  lemma UnlinkShape(s: State, t: Tid, ptr: Ptr)
    requires Locked(s) && Enabled(s, Proceed(t, ptr)) && s.pcs[t].Unlinking?
    requires s.writer.Some? ==> s.writer.value in s.pcs && Midway(s, s.pcs[s.writer.value])
    ensures var id, p, r := s.pcs[t].id, s.pcs[t].ptr, Apply(s, Proceed(t, ptr));
            && r.heap == s.heap && r.issued == s.issued && r.minId == s.minId && r.log == s.log + [Erased(id)] && r.id2data == s.id2data
            && s.writer == Some(t) && r.writer == Some(t) && t in r.pcs && r.pcs[t] == Destroying(p)
            && s.pcs[t] == Unlinking(id, p, p) && id !in s.id2data && p in s.data2id
  {
  }

  lemma UnlinkVisible(s: State, r: State, id: NodeId, p: Ptr, init: Content, minId: nat)
    requires Matches(s, init, minId) && Inverse(Ids(s), s.data2id) && Backed(s) && p in s.data2id && id !in s.id2data
    requires !IsLinking(s) && !IsLinking(r) && Ids(s) == s.id2data[id := p] && Ids(r) == s.id2data && r.heap == s.heap
    requires r.issued == s.issued && r.minId == s.minId && r.log == s.log + [Erased(id)]
    ensures Answers(Visible(s), NumberFor(s.log, minId, Erased(id)), Erased(id)) && Visible(r) == Changed(Visible(s), Erased(id)) && Counted(r, r.log)
  {
    hide After, Sequential, HasView, Inverse, Ids, IsLinking, Made;
    AfterNext(init, s.log, Erased(id));
  }

  lemma DestroyMatches(s: State, t: Tid, ptr: Ptr, init: Content, minId: nat)
    requires Inv(s) && Matches(s, init, minId) && Enabled(s, Proceed(t, ptr)) && s.pcs[t].Destroying?
    ensures Matches(Apply(s, Proceed(t, ptr)), init, minId)
  {
    var p := s.pcs[t].ptr;
    var r := AfterDestroy(s, t, p);
    hide *;
    DestroyShape(s, t, ptr);
    InvParts(s);
    DestroyLocked(s, t, p);
    DestroyMidway(s, t, p);
    DestroyedIds(s, r, t, p);
    NotLinking(s, t);
    DestroyVisible(s, r, p, init, minId);
  }

  lemma DestroyVisible(s: State, r: State, p: Ptr, init: Content, minId: nat)
    requires Matches(s, init, minId) && Inverse(Ids(s), s.data2id) && p !in s.data2id && r.heap == s.heap - {p} && !IsLinking(s)
    requires Ids(r) == Ids(s) && r.writer == None && r.issued == s.issued && r.minId == s.minId && r.log == s.log
    ensures Matches(r, init, minId)
  {
    hide Ids, After, Sequential, Made, HasView;
    assert Visible(r) == Visible(s);
  }

  /** Every step of every caller keeps the map in step with the answers. */
  lemma StepMatches(s: State, a: Action, init: Content, minId: nat)
    requires Inv(s) && Matches(s, init, minId) && Enabled(s, a)
    ensures Matches(Apply(s, a), init, minId)
  {
    hide Inv, Apply, IdOf, Matches;
    match a {
      case Call(t, op) => CallMatches(s, t, op, init, minId);
      case Proceed(t, ptr) =>
        WritingOps(s, t);
        match s.pcs[t] {
          case Idle => assert false;
          case Called(op) => LockMatches(s, t, ptr, init, minId);
          case Missed(v) => LockMatches(s, t, ptr, init, minId);
          case Reading(op) => ReadMatches(s, t, ptr, init, minId);
          case Writing(op) =>
            if op.Erase? {
              EraseMatches(s, t, ptr, init, minId);
            } else if IdOf(s, op.view).Some? {
              FoundMatches(s, t, ptr, init, minId);
            } else {
              InsertMatches(s, t, ptr, init, minId);
            }
          case Linking(v, id, p) => LinkMatches(s, t, ptr, init, minId);
          case Unlinking(id, p, q) => UnlinkMatches(s, t, ptr, init, minId);
          case Destroying(p) => DestroyMatches(s, t, ptr, init, minId);
        }
    }
  }

  /* ---------- whole runs ---------- */

  lemma InitialMatches(s: State)
    requires Initial(s)
    ensures Matches(s, Visible(s), s.minId)
  {
    hide Visible;
  }

  /**
   Whatever the interleaving, the answers are those of the map, in the order in
   which they are given; identifiers are numbered one after the other.
   */
  lemma {:induction false} Linearizable(run: seq<State>, actions: seq<Action>, i: nat)
    requires IsRun(run, actions) && i < |run|
    ensures Matches(run[i], Visible(run[0]), run[0].minId)
    ensures Sequential(Visible(run[0]), run[0].minId, run[i].log)
  {
    hide Inv, Initial, Enabled, Apply, Matches, Visible;
    if i == 0 {
      InitialMatches(run[0]);
    } else {
      Linearizable(run, actions, i - 1);
      RunInv(run, actions, i - 1);
      StepMatches(run[i - 1], actions[i - 1], Visible(run[0]), run[0].minId);
    }
    MatchesSequential(run[i], Visible(run[0]), run[0].minId);
  }

  lemma MatchesSequential(s: State, init: Content, minId: nat)
    requires Matches(s, init, minId)
    ensures Sequential(init, minId, s.log)
  {
  }

  /* ---------- erased identifiers ---------- */

  /** What is stored after the first n answers. */
  ghost function ContentAt(init: Content, log: seq<Event>, n: nat): Content
    requires n <= |log|
  {
    After(init, log[..n])
  }

  /** The numbers that the next identifiers of each datatype get after the first n answers. */
  ghost function NextAt(minId: nat, log: seq<Event>, n: nat): nat -> nat
    requires n <= |log|
  {
    (d: nat) => minId + Made(log[..n], d)
  }

  function TypeOf(e: Event): nat {
    if e.Returned? then e.view.datatype_ else 0
  }

  /** One answer more. */
  lemma OneMore(init: Content, minId: nat, log: seq<Event>, n: nat, m: nat)
    requires Sequential(init, minId, log) && n < |log| && m == n + 1
    ensures ContentAt(init, log, m) == Changed(ContentAt(init, log, n), log[n])
    ensures Answers(ContentAt(init, log, n), NextAt(minId, log, n)(TypeOf(log[n])), log[n])
    ensures forall d :: NextAt(minId, log, m)(d)
                     == NextAt(minId, log, n)(d) + (if log[n].Returned? && log[n].made && log[n].id.datatype_ == d then 1 else 0)
  {
    assert log[..n + 1] == log[..n] + [log[n]];
    AfterNext(init, log[..n], log[n]);
    assert Answers(After(init, log[..n]), NumberFor(log[..n], minId, log[n]), log[n]);
    hide After, Made;
    if !log[n].Returned? {
      AnyNumber(After(init, log[..n]), minId, NextAt(minId, log, n)(0), log[n]);
    }
  }

  lemma AnyNumber(c: Content, a: nat, b: nat, e: Event)
    requires Answers(c, a, e) && !e.Returned?
    ensures Answers(c, b, e)
  {
  }

  ghost predicate OneIdEach(c: Content) {
    forall i, j :: i in c && j in c && c[i] == c[j] ==> i == j
  }

  ghost predicate NumbersBelow(c: Content, next: nat -> nat) {
    forall id :: id in c ==> id.number < next(id.datatype_)
  }

  lemma ContentStep(c: Content, next: nat -> nat, after: nat -> nat, e: Event)
    requires NumbersBelow(c, next) && OneIdEach(c) && Answers(c, next(TypeOf(e)), e)
    requires forall d :: after(d) == next(d) + (if e.Returned? && e.made && e.id.datatype_ == d then 1 else 0)
    ensures NumbersBelow(Changed(c, e), after) && OneIdEach(Changed(c, e))
  {
  }

  /** Stored identifiers have numbers that were given out, and each view has one identifier. */
  lemma {:induction false} ContentInv(init: Content, minId: nat, log: seq<Event>, n: nat)
    requires Sequential(init, minId, log) && n <= |log| && OneIdEach(init) && forall id :: id in init ==> id.number < minId
    ensures NumbersBelow(ContentAt(init, log, n), NextAt(minId, log, n)) && OneIdEach(ContentAt(init, log, n))
    decreases n
  {
    if n > 0 {
      ContentInv(init, minId, log, n - 1);
      OneMore(init, minId, log, n - 1, n);
      hide *;
      ContentStep(ContentAt(init, log, n - 1), NextAt(minId, log, n - 1), NextAt(minId, log, n), log[n - 1]);
    }
  }

  lemma AbsentStep(c: Content, next: nat -> nat, e: Event, id: NodeId)
    requires Answers(c, next(TypeOf(e)), e) && id !in c && id.number < next(id.datatype_)
    ensures id !in Changed(c, e)
  {
    hide HasView;
  }

  /** An identifier whose number was given out and that is not stored is never stored again. */
  lemma {:induction false} StaysAbsent(init: Content, minId: nat, log: seq<Event>, i: nat, j: nat, id: NodeId)
    requires Sequential(init, minId, log) && i <= j <= |log|
    requires id !in ContentAt(init, log, i) && id.number < NextAt(minId, log, i)(id.datatype_)
    ensures id !in ContentAt(init, log, j) && id.number < NextAt(minId, log, j)(id.datatype_)
    decreases j
  {
    if j > i {
      hide *;
      StaysAbsent(init, minId, log, i, j - 1, id);
      OneMore(init, minId, log, j - 1, j);
      AbsentStep(ContentAt(init, log, j - 1), NextAt(minId, log, j - 1), log[j - 1], id);
    }
  }

  lemma StoredView(c: Content, id: NodeId)
    requires id in c
    ensures HasView(c, c[id])
  {
  }

  /** A view that is stored now and was not before was made in between. */
  lemma {:induction false} MadeBetween(init: Content, minId: nat, log: seq<Event>, i: nat, j: nat, v: View, id: NodeId)
    requires Sequential(init, minId, log) && i <= j <= |log| && !HasView(ContentAt(init, log, i), v)
    requires id in ContentAt(init, log, j) && ContentAt(init, log, j)[id] == v
    ensures exists k :: i <= k < j && log[k] == Returned(v, id, true)
    decreases j
  {
    hide ContentAt, NextAt, HasView, Sequential, Answers;
    if j == i {
      StoredView(ContentAt(init, log, j), id);
    } else {
      OneMore(init, minId, log, j - 1, j);
      if log[j - 1] != Returned(v, id, true) {
        MadeBetween(init, minId, log, i, j - 1, v, id);
      }
    }
  }

  lemma InitialContent(s: State)
    requires Initial(s)
    ensures OneIdEach(Visible(s)) && forall id :: id in Visible(s) ==> id.number < s.minId
  {
  }

  lemma RunStart(run: seq<State>, actions: seq<Action>)
    requires IsRun(run, actions)
    ensures Initial(run[0])
  {
  }

  /** What an erasure says about the identifier. */
  lemma ErasedOut(c: Content, next: nat -> nat, e: Event)
    requires e.Erased? && Answers(c, next(TypeOf(e)), e) && NumbersBelow(c, next)
    ensures e.id in c && e.id !in Changed(c, e) && e.id.number < next(e.id.datatype_)
  {
  }

  /** What may be answered when an identifier is gone. */
  lemma AbsentAnswers(c: Content, next: nat -> nat, e: Event, id: NodeId)
    requires Answers(c, next(TypeOf(e)), e) && id !in c && id.number < next(id.datatype_)
    ensures e.Returned? ==> e.id != id
    ensures e.Resolved? && e.id == id ==> e.result == None
    ensures e != Erased(id)
  {
    hide HasView;
  }

  lemma StillGone(init: Content, minId: nat, log: seq<Event>, i: nat, j: nat)
    requires Sequential(init, minId, log) && i < j < |log| && log[i].Erased?
    requires OneIdEach(init) && forall id :: id in init ==> id.number < minId
    ensures log[i].id in ContentAt(init, log, i)
    ensures log[j].Returned? ==> log[j].id != log[i].id
    ensures log[j].Resolved? && log[j].id == log[i].id ==> log[j].result == None
    ensures log[j] != Erased(log[i].id)
  {
    hide *;
    ContentInv(init, minId, log, i);
    OneMore(init, minId, log, i, i + 1);
    OneMore(init, minId, log, j, j + 1);
    ErasedOut(ContentAt(init, log, i), NextAt(minId, log, i), log[i]);
    StaysAbsent(init, minId, log, i + 1, j, log[i].id);
    AbsentAnswers(ContentAt(init, log, j), NextAt(minId, log, j), log[j], log[i].id);
  }

  /**
   Once an identifier is erased, no call returns it, resolving it gives nothing,
   and erasing it again is refused; only a stored identifier is ever erased.
   */
  lemma ErasedGone(run: seq<State>, actions: seq<Action>, i: nat, j: nat)
    requires IsRun(run, actions) && i < j < |Last(run).log| && Last(run).log[i].Erased?
    ensures var log, id := Last(run).log, Last(run).log[i].id;
            && id in ContentAt(Visible(run[0]), log, i)
            && (log[j].Returned? ==> log[j].id != id)
            && (log[j].Resolved? && log[j].id == id ==> log[j].result == None)
            && log[j] != Erased(id)
  {
    Linearizable(run, actions, |run| - 1);
    RunStart(run, actions);
    InitialContent(run[0]);
    hide *;
    StillGone(Visible(run[0]), run[0].minId, Last(run).log, i, j);
  }

  /** The view of an erased identifier is not found again before it is made again, under another identifier. */
  lemma ViewGone(run: seq<State>, actions: seq<Action>, i: nat, j: nat, v: View)
    requires IsRun(run, actions) && i < j < |Last(run).log| && Last(run).log[i].Erased?
    requires var content, id := ContentAt(Visible(run[0]), Last(run).log, i), Last(run).log[i].id; id in content && content[id] == v
    requires Last(run).log[j].Returned? && Last(run).log[j].view == v
    ensures Last(run).log[j].id != Last(run).log[i].id
    ensures exists k :: i < k <= j && Last(run).log[k] == Returned(v, Last(run).log[j].id, true)
  {
    ErasedGone(run, actions, i, j);
    Linearizable(run, actions, |run| - 1);
    RunStart(run, actions);
    InitialContent(run[0]);
    hide *;
    MadeAgain(Visible(run[0]), run[0].minId, Last(run).log, i, j, v);
  }

  lemma MadeAgain(init: Content, minId: nat, log: seq<Event>, i: nat, j: nat, v: View)
    requires Sequential(init, minId, log) && i < j < |log| && log[i].Erased? && log[j].Returned? && log[j].view == v
    requires OneIdEach(init) && forall id :: id in init ==> id.number < minId
    requires log[i].id in ContentAt(init, log, i) && ContentAt(init, log, i)[log[i].id] == v
    ensures exists k :: i < k <= j && log[k] == Returned(v, log[j].id, true)
  {
    ContentInv(init, minId, log, i);
    OneMore(init, minId, log, i, i + 1);
    OneMore(init, minId, log, j, j + 1);
    hide ContentAt, NextAt, Sequential, NumbersBelow;
    assert !HasView(ContentAt(init, log, i + 1), v);
    hide HasView;
    if !log[j].made {
      MadeBetween(init, minId, log, i + 1, j, v, log[j].id);
    }
  }

  /* ---------- every call is answered ---------- */

  /** The operation that a caller has not answered yet. */
  function OpenOp(pc: Pc): Option<Op> {
    match pc
    case Idle => None
    case Called(op) => Some(op)
    case Reading(op) => Some(op)
    case Missed(view) => Some(FindOrMake(view))
    case Writing(op) => Some(op)
    case Linking(view, _, _) => Some(FindOrMake(view))
    case Unlinking(id, _, _) => Some(Erase(id))
    case Destroying(_) => None
  }

  predicate AnswerTo(op: Op, e: Event) {
    match op
    case FindOrMake(v) => e.Returned? && e.view == v
    case Find(v) => (e.Returned? && e.view == v && !e.made) || e == NotFound(v)
    case Resolve(id) => e.Resolved? && e.id == id
    case Erase(id) => e == Erased(id) || e == NothingErased(id)
  }

  /** Steps that are left to a caller, at most. */
  function StepsLeft(pc: Pc): nat {
    match pc
    case Idle => 0
    case Called(_) => 6
    case Reading(_) => 5
    case Missed(_) => 4
    case Writing(_) => 3
    case Linking(_, _, _) => 2
    case Unlinking(_, _, _) => 2
    case Destroying(_) => 1
  }

  /** t goes on: it gets nearer to its end, and gives one answer, which fits its operation. */
  ghost predicate GoesOn(s: State, t: Tid, r: State) {
    && t in s.pcs && r.pcs.Keys == s.pcs.Keys && (forall u :: u in s.pcs && u != t ==> r.pcs[u] == s.pcs[u])
    && StepsLeft(r.pcs[t]) < StepsLeft(s.pcs[t])
    && if OpenOp(r.pcs[t]) == OpenOp(s.pcs[t]) then r.log == s.log
       else OpenOp(s.pcs[t]).Some? && OpenOp(r.pcs[t]) == None && |r.log| == |s.log| + 1 && s.log <= r.log
            && AnswerTo(OpenOp(s.pcs[t]).value, Last(r.log))
  }

  lemma MovesOn(s: State, t: Tid, r: State, pc: Pc)
    requires t in s.pcs && r.pcs == s.pcs[t := pc] && r.log == s.log
    requires StepsLeft(pc) < StepsLeft(s.pcs[t]) && OpenOp(pc) == OpenOp(s.pcs[t])
    ensures GoesOn(s, t, r)
  {
  }

  lemma Answered(s: State, t: Tid, r: State, pc: Pc, e: Event)
    requires t in s.pcs && r.pcs == s.pcs[t := pc] && r.log == s.log + [e] && StepsLeft(pc) < StepsLeft(s.pcs[t])
    requires OpenOp(s.pcs[t]).Some? && OpenOp(pc) == None && AnswerTo(OpenOp(s.pcs[t]).value, e)
    ensures GoesOn(s, t, r)
  {
  }

  lemma LeavesWith(s: State, t: Tid, op: Op, e: Event)
    requires t in s.pcs && (s.pcs[t] == Reading(op) || s.pcs[t] == Writing(op)) && AnswerTo(op, e)
    ensures GoesOn(s, t, Leave(s, t, e))
  {
    hide GoesOn, AnswerTo;
    Answered(s, t, Leave(s, t, e), Idle, e);
  }

  lemma ReadAnswers(s: State, t: Tid, op: Op)
    requires t in s.pcs && s.pcs[t] == Reading(op) && !op.Erase?
    ensures GoesOn(s, t, Read(s, t, op))
  {
    hide IdOf, ViewOf, GoesOn, Leave;
    match op {
      case FindOrMake(v) =>
        if IdOf(s, v).None? {
          MovesOn(s, t, Read(s, t, op), Missed(v));
        } else {
          LeavesWith(s, t, op, Returned(v, IdOf(s, v).value, false));
        }
      case Find(v) => LeavesWith(s, t, op, if IdOf(s, v).Some? then Returned(v, IdOf(s, v).value, false) else NotFound(v));
      case Resolve(id) => LeavesWith(s, t, op, Resolved(id, ViewOf(s, id)));
      case Erase(id) =>
    }
  }

  lemma WriteAnswers(s: State, t: Tid, op: Op, ptr: Ptr)
    requires t in s.pcs && s.pcs[t] == Writing(op) && (op.Erase? || op.FindOrMake?) && Enabled(s, Proceed(t, ptr)) && s.writer == Some(t)
    requires Inverse(s.id2data, s.data2id) && Backed(s)
    ensures GoesOn(s, t, Write(s, t, op, ptr))
  {
    if op.Erase? {
      EraseShape(s, t, ptr);
    }
    hide IdOf, GoesOn, Inverse, Backed, PtrOf, NextId;
    var r := Write(s, t, op, ptr);
    if op.FindOrMake? && IdOf(s, op.view).None? {
      MovesOn(s, t, r, Linking(op.view, NextId(s, op.view), ptr));
    } else if op.Erase? && op.id in s.id2data {
      EraseMoves(s, t, op.id, ptr);
    } else {
      Answered(s, t, r, Idle, Last(r.log));
    }
  }

  lemma EraseMoves(s: State, t: Tid, id: NodeId, ptr: Ptr)
    requires t in s.pcs && s.pcs[t] == Writing(Erase(id)) && id in s.id2data && Inverse(s.id2data, s.data2id) && Backed(s)
    ensures GoesOn(s, t, Write(s, t, Erase(id), ptr))
  {
    OnlyPtr(s, s.id2data[id]);
    hide GoesOn, Inverse, Backed, PtrOf;
    MovesOn(s, t, Write(s, t, Erase(id), ptr), Unlinking(id, s.id2data[id], s.id2data[id]));
  }

  /** The steps that take a lock, and those that end an insertion or an erasure. */
  lemma OtherAnswers(s: State, t: Tid, ptr: Ptr)
    requires Enabled(s, Proceed(t, ptr)) && !s.pcs[t].Idle? && !s.pcs[t].Reading? && !s.pcs[t].Writing?
    ensures GoesOn(s, t, Apply(s, Proceed(t, ptr)))
  {
    var r := Apply(s, Proceed(t, ptr));
    OtherShape(s, t, ptr);
    hide GoesOn, Enabled, Apply;
    match s.pcs[t] {
      case Called(op) => MovesOn(s, t, r, r.pcs[t]);
      case Missed(v) => MovesOn(s, t, r, r.pcs[t]);
      case Linking(v, id, p) => Answered(s, t, r, Idle, Last(r.log));
      case Unlinking(id, p, q) => Answered(s, t, r, Destroying(p), Last(r.log));
      case Destroying(p) => MovesOn(s, t, r, Idle);
      case _ =>
    }
  }

  lemma OtherShape(s: State, t: Tid, ptr: Ptr)
    requires Enabled(s, Proceed(t, ptr)) && !s.pcs[t].Idle? && !s.pcs[t].Reading? && !s.pcs[t].Writing?
    ensures var r := Apply(s, Proceed(t, ptr));
            match s.pcs[t]
            case Called(op) => r.log == s.log && r.pcs == s.pcs[t := if op.Erase? then Writing(op) else Reading(op)]
            case Missed(v) => r.log == s.log && r.pcs == s.pcs[t := Writing(FindOrMake(v))]
            case Linking(v, id, p) => r.log == s.log + [Returned(v, id, true)] && r.pcs == s.pcs[t := Idle]
            case Unlinking(id, p, q) => r.log == s.log + [Erased(id)] && r.pcs == s.pcs[t := Destroying(p)]
            case _ => r.log == s.log && r.pcs == s.pcs[t := Idle]
  {
    hide Enabled;
  }

  /** Every step of a caller in an operation. */
  lemma StepAnswers(s: State, t: Tid, ptr: Ptr)
    requires Inv(s) && Enabled(s, Proceed(t, ptr))
    ensures GoesOn(s, t, Apply(s, Proceed(t, ptr)))
  {
    ProceedIs(s, t, ptr);
    hide *;
    WritingOps(s, t);
    ReadingOps(s, t);
    InvParts(s);
    if s.pcs[t].Reading? {
      ReadAnswers(s, t, s.pcs[t].op);
    } else if s.pcs[t].Writing? {
      WriterIds(s, t);
      WriteAnswers(s, t, s.pcs[t].op, ptr);
    } else {
      OtherAnswers(s, t, ptr);
    }
  }

  lemma ProceedIs(s: State, t: Tid, ptr: Ptr)
    requires Enabled(s, Proceed(t, ptr))
    ensures t in s.pcs && !s.pcs[t].Idle?
    ensures s.pcs[t].Reading? ==> Apply(s, Proceed(t, ptr)) == Read(s, t, s.pcs[t].op)
    ensures s.pcs[t].Writing? ==> Apply(s, Proceed(t, ptr)) == Write(s, t, s.pcs[t].op, ptr)
  {
    hide Read, Write;
  }

  lemma ReadingOps(s: State, t: Tid)
    requires Inv(s) && t in s.pcs
    ensures s.pcs[t].Reading? ==> !s.pcs[t].op.Erase?
    ensures forall ptr :: Enabled(s, Proceed(t, ptr)) ==> !s.pcs[t].Idle?
  {
  }

  lemma {:induction false} FreshPtr(used: set<Ptr>) returns (p: Ptr)
    ensures forall q :: q in used ==> q < p
    decreases used
  {
    if used == {} {
      p := 0;
    } else {
      var q :| q in used;
      var r := FreshPtr(used - {q});
      assert forall x :: x in used ==> x == q || x in used - {q};
      p := if r > q then r else q + 1;
    }
  }

  /** Somebody can go on, as long as identifiers are left. */
  lemma NotStuck(s: State, t: Tid) returns (u: Tid, ptr: Ptr)
    requires Inv(s) && t in s.pcs && !s.pcs[t].Idle? && forall d: nat :: NextNumber(s, d) < s.limit
    ensures Enabled(s, Proceed(u, ptr))
  {
    InvParts(s);
    ptr := FreshPtr(s.heap.Keys);
    assert ptr !in s.heap;
    hide Inv, Inverse, Backed, IssuedBelow, LiveStored, LogFits, IdOf, Midway, Ids, NextNumber;
    if s.writer.Some? {
      u := s.writer.value;
    } else if s.readers != {} {
      u :| u in s.readers;
    } else {
      u := t;
    }
  }

  /* ---------- memory ---------- */

  /** The backend that is about to be destroyed. */
  ghost function Doomed(s: State): set<Ptr> {
    if s.writer.Some? && s.writer.value in s.pcs && s.pcs[s.writer.value].Destroying? then {s.pcs[s.writer.value].ptr} else {}
  }

  /** Memory holds the entered backends, and the one that is about to be destroyed. */
  ghost predicate Owned(s: State) {
    s.heap.Keys == s.data2id.Keys + Doomed(s)
  }

  lemma SameOwned(s: State, r: State)
    requires Owned(s) && r.heap == s.heap && r.data2id == s.data2id && Doomed(r) == Doomed(s)
    ensures Owned(r)
  {
    hide Doomed;
  }

  lemma CallOwned(s: State, t: Tid, op: Op)
    requires Locked(s) && Owned(s) && Enabled(s, Call(t, op))
    ensures Owned(Apply(s, Call(t, op)))
  {
    SameOwned(s, Apply(s, Call(t, op)));
  }

  lemma LockOwned(s: State, t: Tid, ptr: Ptr)
    requires Owned(s) && Enabled(s, Proceed(t, ptr)) && (s.pcs[t].Called? || s.pcs[t].Missed?)
    ensures Owned(Apply(s, Proceed(t, ptr)))
  {
    SameOwned(s, Apply(s, Proceed(t, ptr)));
  }

  lemma ReadOwned(s: State, t: Tid, op: Op)
    requires Locked(s) && Owned(s) && t in s.pcs && s.pcs[t] == Reading(op)
    ensures Owned(Read(s, t, op))
  {
    hide IdOf, ViewOf;
    assert s.writer.None?;
    SameOwned(s, Read(s, t, op));
  }

  lemma WriteOwned(s: State, t: Tid, op: Op, ptr: Ptr)
    requires Owned(s) && t in s.pcs && s.pcs[t] == Writing(op) && s.writer == Some(t)
    requires Enabled(s, Proceed(t, ptr)) && Inverse(s.id2data, s.data2id) && Backed(s)
    ensures Owned(Write(s, t, op, ptr))
  {
    if op.Erase? {
      EraseShape(s, t, ptr);
    }
    hide IdOf, PtrOf, Inverse, Backed, NextNumber;
  }

  lemma OtherOwned(s: State, t: Tid, ptr: Ptr)
    requires Locked(s) && Owned(s) && Enabled(s, Proceed(t, ptr)) && (s.pcs[t].Linking? || s.pcs[t].Unlinking? || s.pcs[t].Destroying?)
    requires s.writer.Some? ==> s.writer.value in s.pcs && Midway(s, s.pcs[s.writer.value])
    ensures Owned(Apply(s, Proceed(t, ptr)))
  {
  }

  lemma StepOwned(s: State, a: Action)
    requires Inv(s) && Owned(s) && Enabled(s, a)
    ensures Owned(Apply(s, a))
  {
    InvParts(s);
    match a {
      case Call(t, op) =>
        hide *;
        CallOwned(s, t, op);
      case Proceed(t, ptr) =>
        ProceedIs(s, t, ptr);
        hide *;
        WritingOps(s, t);
        if s.pcs[t].Reading? {
          ReadOwned(s, t, s.pcs[t].op);
        } else if s.pcs[t].Writing? {
          WriterIds(s, t);
          WriteOwned(s, t, s.pcs[t].op, ptr);
        } else if s.pcs[t].Called? || s.pcs[t].Missed? {
          LockOwned(s, t, ptr);
        } else {
          OtherOwned(s, t, ptr);
        }
    }
  }

  /** Nothing leaks: if memory held the entered backends only, it does so in every reachable state without a writer. */
  lemma {:induction false} NothingLeaks(run: seq<State>, actions: seq<Action>, i: nat)
    requires IsRun(run, actions) && i < |run| && run[0].heap.Keys == run[0].data2id.Keys
    ensures Owned(run[i]) && (run[i].writer.None? ==> run[i].heap.Keys == run[i].data2id.Keys)
  {
    hide Inv, Enabled, Apply;
    if i > 0 {
      NothingLeaks(run, actions, i - 1);
      RunInv(run, actions, i - 1);
      StepOwned(run[i - 1], actions[i - 1]);
    }
  }
}
