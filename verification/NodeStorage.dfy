/**
 The node storage of one node type: two maps between identifiers and backends,
 behind one shared mutex, as a state machine over the steps of its callers.
 */
module NodeStorage {
  import opened Graphs

  type Tid = nat
  type Ptr = nat

  /** What a backend holds; the datatype selects the counter, and is constant where there is only one. */
  datatype View = View(datatype_: nat, content: nat)

  datatype NodeId = NodeId(datatype_: nat, number: nat)

  datatype Op = FindOrMake(view: View) | Find(view: View) | Resolve(id: NodeId) | Erase(id: NodeId)

  /** Where a caller is. */
  datatype Pc =
    | Idle
    | Called(op: Op)
    | Reading(op: Op)
    | Missed(view: View)
    | Writing(op: Op)
    | Linking(view: View, id: NodeId, ptr: Ptr)
    | Unlinking(id: NodeId, ptr: Ptr, dataPtr: Ptr)
    | Destroying(ptr: Ptr)

  /** What a call has returned, or done. */
  datatype Event =
    | Returned(view: View, id: NodeId, made: bool)
    | NotFound(view: View)
    | Resolved(id: NodeId, result: Option<View>)
    | Erased(id: NodeId)
    | NothingErased(id: NodeId)

  /** minId is the first number that is issued, smaller ones are reserved; issuing limit ends the process. */
  datatype State = State(
    minId: nat,
    limit: nat,
    heap: map<Ptr, View>,
    id2data: map<NodeId, Ptr>,
    data2id: map<Ptr, NodeId>,
    issued: map<nat, nat>,
    readers: set<Tid>,
    writer: Option<Tid>,
    pcs: map<Tid, Pc>,
    log: seq<Event>)

  /* ---------- lookups ---------- */

  ghost predicate Holds(s: State, p: Ptr, v: View) {
    p in s.data2id && p in s.heap && s.heap[p] == v
  }

  /** The backend with an equal view. */
  ghost function PtrOf(s: State, v: View): Option<Ptr> {
    if exists p :: Holds(s, p, v) then
      var p :| Holds(s, p, v);
      Some(p)
    else None
  }

  ghost function IdOf(s: State, v: View): Option<NodeId> {
    match PtrOf(s, v)
    case None => None
    case Some(p) => if p in s.data2id then Some(s.data2id[p]) else None
  }

  function ViewOf(s: State, id: NodeId): Option<View> {
    if id in s.id2data && s.id2data[id] in s.heap then Some(s.heap[s.id2data[id]]) else None
  }

  /** The number the generator of a datatype issues next. */
  function NextNumber(s: State, d: nat): nat {
    if d in s.issued then s.issued[d] else s.minId
  }

  /* ---------- steps ---------- */

  datatype Action =
    /** A caller starts an operation. */
    | Call(t: Tid, op: Op)
    /** A caller goes on; ptr is what the allocator returns, if it is asked. */
    | Proceed(t: Tid, ptr: Ptr)

  ghost predicate Enabled(s: State, a: Action) {
    && a.t in s.pcs
    && match a
       case Call(t, op) => s.pcs[t].Idle?
       case Proceed(t, ptr) =>
         match s.pcs[t]
         case Idle => false
         case Called(op) => s.writer.None? && (op.Erase? ==> s.readers == {})
         case Missed(view) => s.writer.None? && s.readers == {}
         case Writing(op) =>
           op.FindOrMake? && IdOf(s, op.view).None? ==> ptr !in s.heap && NextNumber(s, op.view.datatype_) < s.limit
         case _ => true
  }

  function At(s: State, t: Tid, pc: Pc): State {
    s.(pcs := s.pcs[t := pc])
  }

  /** Leaves the critical section with an event. */
  function Leave(s: State, t: Tid, e: Event): State {
    At(s, t, Idle).(readers := s.readers - {t}, writer := if s.writer == Some(t) then None else s.writer, log := s.log + [e])
  }

  ghost function Apply(s: State, a: Action): State
    requires Enabled(s, a)
  {
    match a
    case Call(t, op) => At(s, t, Called(op))
    case Proceed(t, ptr) =>
      match s.pcs[t]
      case Idle => s
      case Called(op) =>
        if op.Erase? then At(s, t, Writing(op)).(writer := Some(t)) else At(s, t, Reading(op)).(readers := s.readers + {t})
      case Reading(op) => Read(s, t, op)
      case Missed(view) => At(s, t, Writing(FindOrMake(view))).(writer := Some(t))
      case Writing(op) => Write(s, t, op, ptr)
      case Linking(view, id, p) =>
        Leave(s.(id2data := s.id2data[id := p]), t, Returned(view, id, true))
      case Unlinking(id, p, dataPtr) =>
        At(s, t, Destroying(p)).(data2id := s.data2id - {dataPtr}, log := s.log + [Erased(id)])
      case Destroying(p) =>
        At(s, t, Idle).(heap := s.heap - {p}, writer := None)
  }

  /** With the shared lock held. */
  ghost function Read(s: State, t: Tid, op: Op): State {
    match op
    case FindOrMake(view) =>
      (match IdOf(s, view)
       case Some(id) => Leave(s, t, Returned(view, id, false))
       case None => At(s, t, Missed(view)).(readers := s.readers - {t}))
    case Find(view) =>
      (match IdOf(s, view)
       case Some(id) => Leave(s, t, Returned(view, id, false))
       case None => Leave(s, t, NotFound(view)))
    case Resolve(id) => Leave(s, t, Resolved(id, ViewOf(s, id)))
    case Erase(id) => s
  }

  /** The next identifier for a view. */
  function NextId(s: State, v: View): NodeId {
    NodeId(v.datatype_, NextNumber(s, v.datatype_))
  }

  /** The backend is constructed and entered under its view, but not yet under its identifier. */
  function AfterInsert(s: State, t: Tid, v: View, ptr: Ptr): State {
    var id := NextId(s, v);
    At(s, t, Linking(v, id, ptr)).(
      heap := s.heap[ptr := v], data2id := s.data2id[ptr := id], issued := s.issued[v.datatype_ := id.number + 1])
  }

  /** With the unique lock held: looks again before it inserts. */
  ghost function Write(s: State, t: Tid, op: Op, ptr: Ptr): State {
    match op
    case FindOrMake(view) =>
      (match IdOf(s, view)
       case Some(id) => Leave(s, t, Returned(view, id, false))
       case None => AfterInsert(s, t, view, ptr))
    case Erase(id) =>
      if id !in s.id2data then Leave(s, t, NothingErased(id))
      else
        var p := s.id2data[id];
        (match if p in s.heap then PtrOf(s, s.heap[p]) else None
         case Some(dataPtr) => At(s, t, Unlinking(id, p, dataPtr)).(id2data := s.id2data - {id})
         case None => s)
    case _ => s
  }

  /* ---------- the invariant ---------- */

  /** The entry of id2data that the writer has not added yet, or has removed already. */
  function Pending(pc: Pc): map<NodeId, Ptr> {
    match pc
    case Linking(view, id, ptr) => map[id := ptr]
    case Unlinking(id, ptr, dataPtr) => map[id := ptr]
    case _ => map[]
  }

  /** id2data with the entry that is on its way. */
  function Ids(s: State): map<NodeId, Ptr> {
    if s.writer.Some? && s.writer.value in s.pcs then s.id2data + Pending(s.pcs[s.writer.value]) else s.id2data
  }

  ghost predicate Inverse(ids: map<NodeId, Ptr>, data: map<Ptr, NodeId>) {
    && (forall id :: id in ids ==> ids[id] in data && data[ids[id]] == id)
    && (forall p :: p in data ==> data[p] in ids && ids[data[p]] == p)
  }

  /** Mutual exclusion, and each lock holder inside its critical section. */
  ghost predicate Locked(s: State) {
    && (s.writer.Some? ==> s.readers == {})
    && (forall t :: t in s.readers <==> t in s.pcs && s.pcs[t].Reading?)
    && (forall t :: s.writer == Some(t) <==> t in s.pcs && InWriter(s.pcs[t]))
    && (forall t :: t in s.pcs && s.pcs[t].Reading? ==> !s.pcs[t].op.Erase?)
    && (forall t :: t in s.pcs && s.pcs[t].Writing? ==> s.pcs[t].op.Erase? || s.pcs[t].op.FindOrMake?)
  }

  predicate InWriter(pc: Pc) {
    pc.Writing? || pc.Linking? || pc.Unlinking? || pc.Destroying?
  }

  /** One backend for each view, alive, with an identifier of the view's datatype. */
  ghost predicate Backed(s: State) {
    && (forall p :: p in s.data2id ==> p in s.heap && s.data2id[p].datatype_ == s.heap[p].datatype_)
    && (forall p, q :: p in s.data2id && q in s.data2id && s.heap[p] == s.heap[q] ==> p == q)
  }

  ghost predicate Midway(s: State, pc: Pc) {
    match pc
    case Linking(view, id, ptr) =>
      && id !in s.id2data && Holds(s, ptr, view) && s.data2id[ptr] == id
      && forall e :: e in s.log && e.Returned? ==> e.id != id
    case Unlinking(id, ptr, dataPtr) => dataPtr == ptr && id !in s.id2data && ptr in s.data2id && s.data2id[ptr] == id
    case Destroying(ptr) => ptr !in s.data2id
    case _ => true
  }

  ghost predicate IssuedBelow(s: State) {
    && (forall d :: d in s.issued ==> s.issued[d] >= s.minId)
    && (forall id :: id in Ids(s) ==> id.number < NextNumber(s, id.datatype_))
    && (forall e :: e in s.log && e.Returned? ==> e.id.number < NextNumber(s, e.id.datatype_))
  }

  /** The view and identifier pairs that were returned and not erased since. */
  ghost function Live(log: seq<Event>): set<(View, NodeId)> {
    if log == [] then {}
    else
      var before := Live(Init(log));
      match Last(log)
      case Returned(v, id, made) => before + {(v, id)}
      case Erased(id) => set b | b in before && b.1 != id
      case _ => before
  }

  /** What an event may say after the log. */
  ghost predicate Fits(log: seq<Event>, e: Event) {
    match e
    case Returned(v, id, made) =>
      && id.datatype_ == v.datatype_
      && (forall b :: b in Live(log) ==> (b.0 == v <==> b.1 == id))
      && (made ==> forall d :: d in log && d.Returned? ==> d.id != id)
    case NotFound(v) => forall b :: b in Live(log) ==> b.0 != v
    case Resolved(id, r) => forall b :: b in Live(log) && b.1 == id ==> r == Some(b.0)
    case NothingErased(id) => forall b :: b in Live(log) ==> b.1 != id
    case Erased(id) => true
  }

  ghost predicate LogFits(log: seq<Event>) {
    forall i :: 0 <= i < |log| ==> Fits(log[..i], log[i])
  }

  /** Every returned pair that was not erased is still stored. */
  ghost predicate LiveStored(s: State) {
    forall b :: b in Live(s.log) ==> b.1 in Ids(s) && Ids(s)[b.1] in s.heap && s.heap[Ids(s)[b.1]] == b.0
  }

  ghost predicate Inv(s: State) {
    && Locked(s) && Inverse(Ids(s), s.data2id) && Backed(s)
    && (s.writer.Some? ==> s.writer.value in s.pcs && Midway(s, s.pcs[s.writer.value]))
    && IssuedBelow(s) && LiveStored(s) && LogFits(s.log)
  }

  /** No call is running; the reserved identifiers are stored, one for each view. */
  ghost predicate Initial(s: State) {
    && s.readers == {} && s.writer == None && s.log == [] && s.issued == map[]
    && (forall t :: t in s.pcs ==> s.pcs[t].Idle?)
    && Inverse(s.id2data, s.data2id) && Backed(s)
    && (forall id :: id in s.id2data ==> id.number < s.minId)
  }

  lemma InitialInv(s: State)
    requires Initial(s)
    ensures Inv(s)
  {
  }

  /* ---------- steps keep the invariant ---------- */

  /** t moves on and takes or returns the locks its new place calls for. */
  ghost predicate Moves(s: State, r: State, t: Tid, pc: Pc) {
    && t in s.pcs && r.pcs == s.pcs[t := pc]
    && r.readers == (if pc.Reading? then s.readers + {t} else s.readers - {t})
    && r.writer == (if InWriter(pc) then Some(t) else if s.writer == Some(t) then None else s.writer)
    && (pc.Reading? ==> s.writer.None? && !pc.op.Erase?)
    && (InWriter(pc) ==> InWriter(s.pcs[t]) || (s.writer.None? && s.readers == {}))
    && (pc.Writing? ==> pc.op.Erase? || pc.op.FindOrMake?)
  }

  lemma LockedMove(s: State, r: State, t: Tid, pc: Pc)
    requires Locked(s) && Moves(s, r, t, pc)
    ensures Locked(r)
  {
  }

  /** What the step of a caller leaves alone. */
  ghost predicate SameStores(s: State, r: State) {
    && r.heap == s.heap && r.data2id == s.data2id && r.issued == s.issued && r.minId == s.minId && Ids(r) == Ids(s)
    && (r.writer.Some? ==> r.writer.value in r.pcs && Midway(r, r.pcs[r.writer.value]))
  }

  lemma QuietInv(s: State, r: State)
    requires Inv(s) && Locked(r) && SameStores(s, r) && r.log == s.log
    ensures Inv(r)
  {
  }

  /** The event tells what is stored. */
  ghost predicate Truthful(s: State, e: Event) {
    match e
    case Returned(v, id, made) => !made && id in Ids(s) && Ids(s)[id] in s.heap && s.heap[Ids(s)[id]] == v
    case NotFound(v) => forall p :: !Holds(s, p, v)
    case Resolved(id, r) => r == if id in Ids(s) && Ids(s)[id] in s.heap then Some(s.heap[Ids(s)[id]]) else None
    case NothingErased(id) => id !in Ids(s)
    case Erased(id) => false
  }

  lemma TruthFits(s: State, e: Event)
    requires Inv(s) && Truthful(s, e)
    ensures Fits(s.log, e)
  {
    forall b | b in Live(s.log) ensures Holds(s, Ids(s)[b.1], b.0) {
    }
  }

  lemma EventInv(s: State, r: State, e: Event)
    requires Inv(s) && Locked(r) && SameStores(s, r) && r.log == s.log + [e] && Truthful(s, e)
    ensures Inv(r)
  {
    TruthFits(s, e);
    LogGrows(s.log, e);
    hide Locked, Inverse, LogFits, Fits, Ids, Midway;
    EventIssued(s, r, e);
    EventLive(s, r, e);
  }

  lemma EventIssued(s: State, r: State, e: Event)
    requires IssuedBelow(s) && SameStores(s, r) && r.log == s.log + [e] && Truthful(s, e)
    ensures IssuedBelow(r)
  {
    hide Ids, Midway;
    assert forall d :: d in r.log ==> d in s.log || d == e;
  }

  lemma EventLive(s: State, r: State, e: Event)
    requires LiveStored(s) && SameStores(s, r) && r.log == s.log + [e] && Truthful(s, e)
    ensures LiveStored(r)
  {
    hide Ids, Midway;
    assert Init(r.log) == s.log && Last(r.log) == e;
  }

  lemma LogGrows(log: seq<Event>, e: Event)
    requires LogFits(log) && Fits(log, e)
    ensures LogFits(log + [e])
  {
    forall i | 0 <= i < |log| + 1 ensures Fits((log + [e])[..i], (log + [e])[i]) {
      if i < |log| {
        assert (log + [e])[..i] == log[..i];
      } else {
        assert (log + [e])[..i] == log;
      }
    }
  }

  lemma CallInv(s: State, t: Tid, op: Op)
    requires Inv(s) && Enabled(s, Call(t, op))
    ensures Inv(Apply(s, Call(t, op)))
  {
    var r := Apply(s, Call(t, op));
    LockedMove(s, r, t, Called(op));
    QuietInv(s, r);
  }

  /** Taking a lock. */
  lemma LockInv(s: State, t: Tid, ptr: Ptr)
    requires Inv(s) && Enabled(s, Proceed(t, ptr)) && (s.pcs[t].Called? || s.pcs[t].Missed?)
    ensures Inv(Apply(s, Proceed(t, ptr)))
  {
    var r := Apply(s, Proceed(t, ptr));
    LockedMove(s, r, t, r.pcs[t]);
    QuietInv(s, r);
  }

  /* ---------- looking up ---------- */

  lemma IdOfIs(s: State, v: View)
    requires Inverse(Ids(s), s.data2id) && Backed(s)
    ensures IdOf(s, v).Some? ==>
              var id := IdOf(s, v).value; id in Ids(s) && Ids(s)[id] in s.heap && s.heap[Ids(s)[id]] == v
    ensures IdOf(s, v).None? ==> forall p :: !Holds(s, p, v)
  {
    hide Ids;
  }

  lemma NoWriterIds(s: State)
    requires s.writer.None? || (s.writer.value in s.pcs && s.pcs[s.writer.value].Writing?)
    ensures Ids(s) == s.id2data
  {
  }

  /** Leaving the critical section with a truthful event. */
  lemma LeaveInv(s: State, t: Tid, e: Event)
    requires Inv(s) && t in s.pcs && (s.pcs[t].Reading? || s.pcs[t].Writing?) && Truthful(s, e)
    ensures Inv(Leave(s, t, e))
  {
    var r := Leave(s, t, e);
    LockedMove(s, r, t, Idle);
    LeaveStores(s, t, e);
    EventInv(s, r, e);
  }

  lemma LeaveStores(s: State, t: Tid, e: Event)
    requires Inv(s) && t in s.pcs && (s.pcs[t].Reading? || s.pcs[t].Writing?)
    ensures SameStores(s, Leave(s, t, e))
  {
    hide Inverse, Backed, IssuedBelow, LiveStored, LogFits;
  }

  lemma ReadInv(s: State, t: Tid, ptr: Ptr)
    requires Inv(s) && Enabled(s, Proceed(t, ptr)) && s.pcs[t].Reading?
    ensures Inv(Apply(s, Proceed(t, ptr)))
  {
    hide IdOf, LogFits, LiveStored, IssuedBelow, Fits;
    assert s.writer.None?;
    NoWriterIds(s);
    match s.pcs[t].op {
      case FindOrMake(v) =>
        IdOfIs(s, v);
        if IdOf(s, v).Some? {
          LeaveInv(s, t, Returned(v, IdOf(s, v).value, false));
        } else {
          var r := Apply(s, Proceed(t, ptr));
          LockedMove(s, r, t, Missed(v));
          QuietInv(s, r);
        }
      case Find(v) =>
        IdOfIs(s, v);
        LeaveInv(s, t, if IdOf(s, v).Some? then Returned(v, IdOf(s, v).value, false) else NotFound(v));
      case Resolve(id) =>
        LeaveInv(s, t, Resolved(id, ViewOf(s, id)));
      case Erase(id) =>
    }
  }

  /* ---------- inserting ---------- */

  lemma FoundInv(s: State, t: Tid, ptr: Ptr)
    requires Inv(s) && Enabled(s, Proceed(t, ptr)) && s.pcs[t].Writing? && s.pcs[t].op.FindOrMake?
    requires IdOf(s, s.pcs[t].op.view).Some?
    ensures Inv(Apply(s, Proceed(t, ptr)))
  {
    hide IdOf, LogFits, LiveStored, IssuedBelow, Fits;
    IdOfIs(s, s.pcs[t].op.view);
    LeaveInv(s, t, Returned(s.pcs[t].op.view, IdOf(s, s.pcs[t].op.view).value, false));
  }

  /** The first half of an insertion. */
  lemma InsertInv(s: State, t: Tid, ptr: Ptr)
    requires Inv(s) && Enabled(s, Proceed(t, ptr)) && s.pcs[t].Writing? && s.pcs[t].op.FindOrMake?
    requires IdOf(s, s.pcs[t].op.view).None?
    ensures Inv(Apply(s, Proceed(t, ptr)))
  {
    var v := s.pcs[t].op.view;
    var r := AfterInsert(s, t, v, ptr);
    hide *;
    InsertShape(s, t, ptr);
    InvParts(s);
    IdOfIs(s, v);
    WriterIds(s, t);
    InsertLocked(s, t, v, ptr);
    LinkingIds(s, r, t, v, NextId(s, v), ptr);
    InsertIssued(s, r, v, NextId(s, v), ptr);
    InsertStores(s, r, v, NextId(s, v), ptr);
    InsertLive(s, r, v, NextId(s, v), ptr);
    InsertMidway(s, r, t, v, ptr);
    MakeInv(r);
  }

  lemma InvParts(s: State)
    requires Inv(s)
    ensures Locked(s) && Inverse(Ids(s), s.data2id) && Backed(s) && IssuedBelow(s) && LiveStored(s) && LogFits(s.log)
    ensures s.writer.Some? ==> s.writer.value in s.pcs && Midway(s, s.pcs[s.writer.value])
  {
  }

  lemma MakeInv(s: State)
    requires Locked(s) && Inverse(Ids(s), s.data2id) && Backed(s) && IssuedBelow(s) && LiveStored(s) && LogFits(s.log)
    requires s.writer.Some? ==> s.writer.value in s.pcs && Midway(s, s.pcs[s.writer.value])
    ensures Inv(s)
  {
  }

  lemma WriterIds(s: State, t: Tid)
    requires Locked(s) && t in s.pcs && s.pcs[t].Writing?
    ensures Ids(s) == s.id2data && s.writer == Some(t)
  {
  }

  lemma InsertShape(s: State, t: Tid, ptr: Ptr)
    requires Enabled(s, Proceed(t, ptr)) && s.pcs[t].Writing? && s.pcs[t].op.FindOrMake?
    requires IdOf(s, s.pcs[t].op.view).None?
    ensures ptr !in s.heap && Apply(s, Proceed(t, ptr)) == AfterInsert(s, t, s.pcs[t].op.view, ptr)
    ensures var v, r := s.pcs[t].op.view, AfterInsert(s, t, s.pcs[t].op.view, ptr); var id := NextId(s, v);
            && r.heap == s.heap[ptr := v] && r.data2id == s.data2id[ptr := id] && r.issued == s.issued[v.datatype_ := id.number + 1]
            && r.id2data == s.id2data && r.minId == s.minId && r.log == s.log && r.writer == s.writer
            && t in r.pcs && r.pcs[t] == Linking(v, id, ptr)
            && id == NodeId(v.datatype_, NextNumber(s, v.datatype_))
  {
    hide IdOf;
  }

  lemma InsertLocked(s: State, t: Tid, v: View, ptr: Ptr)
    requires Locked(s) && t in s.pcs && s.pcs[t].Writing? && s.writer == Some(t)
    ensures Locked(AfterInsert(s, t, v, ptr))
  {
    LockedMove(s, AfterInsert(s, t, v, ptr), t, Linking(v, NextId(s, v), ptr));
  }

  lemma InsertMidway(s: State, r: State, t: Tid, v: View, ptr: Ptr)
    requires r.writer == Some(t) && t in r.pcs && r.pcs[t] == Linking(v, NextId(s, v), ptr) && NextId(s, v) !in s.id2data
    requires r.heap == s.heap[ptr := v] && r.data2id == s.data2id[ptr := NextId(s, v)] && r.id2data == s.id2data
    requires forall e :: e in r.log && e.Returned? ==> e.id != NextId(s, v)
    ensures Midway(r, r.pcs[t])
  {
  }

  lemma InsertLive(s: State, r: State, v: View, id: NodeId, ptr: Ptr)
    requires LiveStored(s) && Ids(s) == s.id2data && Ids(r) == s.id2data[id := ptr] && id !in s.id2data && ptr !in s.heap
    requires r.heap == s.heap[ptr := v] && r.log == s.log
    ensures LiveStored(r)
  {
    hide Ids, Live;
  }

  lemma LinkingIds(s: State, r: State, t: Tid, v: View, id: NodeId, ptr: Ptr)
    requires r.writer == Some(t) && t in r.pcs && r.pcs[t] == Linking(v, id, ptr) && r.id2data == s.id2data
    ensures Ids(r) == s.id2data[id := ptr]
  {
  }

  lemma InsertStores(s: State, r: State, v: View, id: NodeId, ptr: Ptr)
    requires Inverse(s.id2data, s.data2id) && Backed(s) && (forall p :: !Holds(s, p, v)) && ptr !in s.heap
    requires id !in s.id2data && id.datatype_ == v.datatype_
    requires r.heap == s.heap[ptr := v] && r.data2id == s.data2id[ptr := id] && Ids(r) == s.id2data[id := ptr]
    ensures Inverse(Ids(r), r.data2id) && Backed(r)
  {
    hide Ids;
    forall p | p in s.data2id ensures s.heap[p] != v && p != ptr {
      assert !Holds(s, p, v);
    }
    hide Holds;
    InsertInverse(s.id2data, s.data2id, id, ptr);
  }

  lemma InsertInverse(ids: map<NodeId, Ptr>, data: map<Ptr, NodeId>, id: NodeId, ptr: Ptr)
    requires Inverse(ids, data) && id !in ids && ptr !in data
    ensures Inverse(ids[id := ptr], data[ptr := id])
  {
    assert forall p :: p in data ==> data[p] != id;
  }

  lemma InsertIssued(s: State, r: State, v: View, id: NodeId, ptr: Ptr)
    requires IssuedBelow(s) && Ids(s) == s.id2data && id == NodeId(v.datatype_, NextNumber(s, v.datatype_)) && r.minId == s.minId
    requires r.issued == s.issued[v.datatype_ := id.number + 1] && Ids(r) == s.id2data[id := ptr] && r.log == s.log
    ensures IssuedBelow(r) && id !in s.id2data && forall e :: e in s.log && e.Returned? ==> e.id != id
  {
    hide Ids;
    forall d: nat ensures NextNumber(s, d) <= NextNumber(r, d) {
    }
  }

  /** The second half: the maps are inverse again. */
  lemma LinkInv(s: State, t: Tid, ptr: Ptr)
    requires Inv(s) && Enabled(s, Proceed(t, ptr)) && s.pcs[t].Linking?
    ensures Inv(Apply(s, Proceed(t, ptr)))
  {
    var v, id, p := s.pcs[t].view, s.pcs[t].id, s.pcs[t].ptr;
    var r, e := Apply(s, Proceed(t, ptr)), Returned(v, id, true);
    LockedMove(s, r, t, Idle);
    LinkedIds(s, r, t);
    MadeFits(s, v, id, p);
    LogGrows(s.log, e);
    MadeBelow(s, r, e);
    MadeLive(s, r, e);
    hide LogFits, Fits, Locked, Ids, Enabled, Apply, Inverse, IssuedBelow, LiveStored;
  }

  lemma MadeBelow(s: State, r: State, e: Event)
    requires IssuedBelow(s) && Ids(r) == Ids(s) && r.issued == s.issued && r.minId == s.minId
    requires r.log == s.log + [e] && e.Returned? && e.id in Ids(s)
    ensures IssuedBelow(r)
  {
    hide Ids;
    assert forall d :: d in r.log ==> d in s.log || d == e;
  }

  lemma MadeLive(s: State, r: State, e: Event)
    requires LiveStored(s) && Ids(r) == Ids(s) && r.heap == s.heap && r.log == s.log + [e] && e.Returned?
    requires e.id in Ids(s) && Ids(s)[e.id] in s.heap && s.heap[Ids(s)[e.id]] == e.view
    ensures LiveStored(r)
  {
    hide Ids;
    assert Init(r.log) == s.log && Last(r.log) == e;
  }

  lemma LinkedIds(s: State, r: State, t: Tid)
    requires s.writer == Some(t) && t in s.pcs && s.pcs[t].Linking? && r.writer == None
    requires r.id2data == s.id2data[s.pcs[t].id := s.pcs[t].ptr]
    ensures Ids(r) == Ids(s)
  {
  }

  lemma MadeFits(s: State, v: View, id: NodeId, ptr: Ptr)
    requires Inv(s) && s.writer.Some? && s.pcs[s.writer.value] == Linking(v, id, ptr)
    ensures Fits(s.log, Returned(v, id, true)) && id in Ids(s) && Ids(s)[id] in s.heap && s.heap[Ids(s)[id]] == v
  {
    hide Locked, LogFits;
    assert id in Ids(s) && Ids(s)[id] == ptr;
    hide Ids;
    forall b | b in Live(s.log) ensures b.0 == v <==> b.1 == id {
      assert Ids(s)[b.1] in s.data2id;
    }
  }

  /* ---------- erasing ---------- */

  lemma EraseInv(s: State, t: Tid, ptr: Ptr)
    requires Inv(s) && Enabled(s, Proceed(t, ptr)) && s.pcs[t].Writing? && s.pcs[t].op.Erase?
    ensures Inv(Apply(s, Proceed(t, ptr)))
  {
    var id := s.pcs[t].op.id;
    NoWriterIds(s);
    if id !in s.id2data {
      LeaveInv(s, t, NothingErased(id));
    } else {
      var p := s.id2data[id];
      OnlyPtr(s, p);
      var r := Apply(s, Proceed(t, ptr));
      LockedMove(s, r, t, Unlinking(id, p, p));
      UnlinkingIds(s, r, t, id, p);
      QuietInv(s, r);
    }
  }

  /** Looking a stored backend up by its view finds it. */
  lemma OnlyPtr(s: State, p: Ptr)
    requires Backed(s) && p in s.data2id
    ensures p in s.heap && PtrOf(s, s.heap[p]) == Some(p)
  {
    assert Holds(s, p, s.heap[p]);
  }

  lemma UnlinkingIds(s: State, r: State, t: Tid, id: NodeId, p: Ptr)
    requires id in s.id2data && s.id2data[id] == p && r.id2data == s.id2data - {id}
    requires r.writer == Some(t) && t in r.pcs && r.pcs[t] == Unlinking(id, p, p)
    ensures Ids(r) == s.id2data
  {
  }

  lemma UnlinkInv(s: State, t: Tid, ptr: Ptr)
    requires Inv(s) && Enabled(s, Proceed(t, ptr)) && s.pcs[t].Unlinking?
    ensures Inv(Apply(s, Proceed(t, ptr)))
  {
    var id, p := s.pcs[t].id, s.pcs[t].ptr;
    var r, e := Apply(s, Proceed(t, ptr)), Erased(id);
    LockedMove(s, r, t, Destroying(p));
    LogGrows(s.log, e);
    UnlinkedIds(s, r, t, id, p);
    UnlinkStores(s, r, id, p);
    UnlinkIssued(s, r, id, p);
    UnlinkLive(s, r, id, p);
    hide LogFits, Fits, Locked, Ids, Enabled, Apply, Inverse, IssuedBelow, LiveStored, Backed;
  }

  lemma UnlinkedIds(s: State, r: State, t: Tid, id: NodeId, p: Ptr)
    requires s.writer == Some(t) && t in s.pcs && s.pcs[t] == Unlinking(id, p, p) && id !in s.id2data
    requires r.writer == Some(t) && t in r.pcs && r.pcs[t] == Destroying(p) && r.id2data == s.id2data
    ensures Ids(s) == s.id2data[id := p] && Ids(r) == s.id2data
  {
  }

  lemma UnlinkStores(s: State, r: State, id: NodeId, p: Ptr)
    requires Inverse(s.id2data[id := p], s.data2id) && Backed(s) && id !in s.id2data && p in s.data2id && s.data2id[p] == id
    requires r.heap == s.heap && r.data2id == s.data2id - {p} && Ids(r) == s.id2data
    ensures Inverse(Ids(r), r.data2id) && Backed(r)
  {
    hide Ids;
    forall i | i in s.id2data ensures s.id2data[i] in s.data2id && s.data2id[s.id2data[i]] == i && s.id2data[i] != p {
      assert i in s.id2data[id := p];
    }
  }

  lemma UnlinkIssued(s: State, r: State, id: NodeId, p: Ptr)
    requires IssuedBelow(s) && Ids(s) == s.id2data[id := p] && Ids(r) == s.id2data && id !in s.id2data
    requires r.issued == s.issued && r.minId == s.minId && r.log == s.log + [Erased(id)]
    ensures IssuedBelow(r)
  {
    hide Ids;
    assert forall d :: d in r.log ==> d in s.log || d == Erased(id);
  }

  lemma UnlinkLive(s: State, r: State, id: NodeId, p: Ptr)
    requires LiveStored(s) && Ids(s) == s.id2data[id := p] && Ids(r) == s.id2data && id !in s.id2data
    requires r.heap == s.heap && r.log == s.log + [Erased(id)]
    ensures LiveStored(r)
  {
    hide Ids;
    assert Init(r.log) == s.log && Last(r.log) == Erased(id);
  }

  lemma DestroyInv(s: State, t: Tid, ptr: Ptr)
    requires Inv(s) && Enabled(s, Proceed(t, ptr)) && s.pcs[t].Destroying?
    ensures Inv(Apply(s, Proceed(t, ptr)))
  {
    var p := s.pcs[t].ptr;
    var r := AfterDestroy(s, t, p);
    hide *;
    DestroyShape(s, t, ptr);
    InvParts(s);
    DestroyLocked(s, t, p);
    DestroyMidway(s, t, p);
    DestroyedIds(s, r, t, p);
    DestroyLive(s, r, p);
    DestroyBacked(s, r, p);
    MakeInv(r);
  }

  function AfterDestroy(s: State, t: Tid, p: Ptr): State {
    At(s, t, Idle).(heap := s.heap - {p}, writer := None)
  }

  lemma DestroyShape(s: State, t: Tid, ptr: Ptr)
    requires Enabled(s, Proceed(t, ptr)) && s.pcs[t].Destroying?
    ensures var r := AfterDestroy(s, t, s.pcs[t].ptr);
            && Apply(s, Proceed(t, ptr)) == r && r.heap == s.heap - {s.pcs[t].ptr} && r.writer == None && r.data2id == s.data2id
            && r.id2data == s.id2data && r.log == s.log && r.issued == s.issued && r.minId == s.minId
  {
  }

  lemma DestroyLocked(s: State, t: Tid, p: Ptr)
    requires Locked(s) && t in s.pcs && s.pcs[t].Destroying?
    ensures Locked(AfterDestroy(s, t, p)) && s.writer == Some(t)
  {
    LockedMove(s, AfterDestroy(s, t, p), t, Idle);
  }

  lemma DestroyMidway(s: State, t: Tid, p: Ptr)
    requires t in s.pcs && s.pcs[t] == Destroying(p) && Midway(s, s.pcs[t])
    ensures p !in s.data2id
  {
  }

  lemma DestroyBacked(s: State, r: State, p: Ptr)
    requires Backed(s) && IssuedBelow(s) && p !in s.data2id && r.heap == s.heap - {p} && r.data2id == s.data2id && Ids(r) == Ids(s)
    requires r.issued == s.issued && r.minId == s.minId && r.log == s.log
    ensures Backed(r) && IssuedBelow(r)
  {
    hide Ids;
  }

  lemma DestroyedIds(s: State, r: State, t: Tid, p: Ptr)
    requires s.writer == Some(t) && t in s.pcs && s.pcs[t] == Destroying(p) && r.writer == None && r.id2data == s.id2data
    ensures Ids(s) == s.id2data && Ids(r) == s.id2data
  {
  }

  lemma DestroyLive(s: State, r: State, p: Ptr)
    requires LiveStored(s) && Inverse(Ids(s), s.data2id) && p !in s.data2id && Ids(r) == Ids(s)
    requires r.heap == s.heap - {p} && r.log == s.log
    ensures LiveStored(r)
  {
    hide Ids, Live;
  }

  /** Every step of every caller keeps the invariant. */
  lemma StepInv(s: State, a: Action)
    requires Inv(s) && Enabled(s, a)
    ensures Inv(Apply(s, a))
  {
    hide Inv, Apply, IdOf;
    match a {
      case Call(t, op) => CallInv(s, t, op);
      case Proceed(t, ptr) => ProceedInv(s, t, ptr);
    }
  }

  lemma ProceedInv(s: State, t: Tid, ptr: Ptr)
    requires Inv(s) && Enabled(s, Proceed(t, ptr))
    ensures Inv(Apply(s, Proceed(t, ptr)))
  {
    WritingOps(s, t);
    hide Inv, Apply, IdOf;
    match s.pcs[t] {
      case Idle => assert false;
      case Called(op) => LockInv(s, t, ptr);
      case Missed(v) => LockInv(s, t, ptr);
      case Reading(op) => ReadInv(s, t, ptr);
      case Writing(op) =>
        if op.Erase? {
          EraseInv(s, t, ptr);
        } else if IdOf(s, op.view).Some? {
          FoundInv(s, t, ptr);
        } else {
          InsertInv(s, t, ptr);
        }
      case Linking(v, id, p) => LinkInv(s, t, ptr);
      case Unlinking(id, p, q) => UnlinkInv(s, t, ptr);
      case Destroying(p) => DestroyInv(s, t, ptr);
    }
  }

  lemma WritingOps(s: State, t: Tid)
    requires Inv(s) && t in s.pcs
    ensures s.pcs[t].Writing? ==> s.pcs[t].op.Erase? || s.pcs[t].op.FindOrMake?
  {
  }

  /* ---------- whole runs ---------- */

  /** Every interleaving: steps of any callers in any order. */
  ghost predicate IsRun(run: seq<State>, actions: seq<Action>) {
    && |run| == |actions| + 1 && Initial(run[0])
    && forall i :: 0 <= i < |actions| ==> Enabled(run[i], actions[i]) && run[i + 1] == Apply(run[i], actions[i])
  }

  lemma {:induction false} RunInv(run: seq<State>, actions: seq<Action>, i: nat)
    requires IsRun(run, actions) && i < |run|
    ensures Inv(run[i])
  {
    hide Inv, Initial, Enabled, Apply;
    if i == 0 {
      InitialInv(run[0]);
    } else {
      RunInv(run, actions, i - 1);
      StepInv(run[i - 1], actions[i - 1]);
    }
  }

  /** In every reachable state in which nobody writes, the two maps are inverse, with one identifier for each view. */
  lemma MapsInverse(run: seq<State>, actions: seq<Action>, i: nat)
    requires IsRun(run, actions) && i < |run| && run[i].writer.None?
    ensures Inverse(run[i].id2data, run[i].data2id) && Backed(run[i])
  {
    RunInv(run, actions, i);
  }

  ghost predicate NotErased(log: seq<Event>, i: nat, j: nat, id: NodeId) {
    forall k :: i <= k < j && k < |log| ==> log[k] != Erased(id)
  }

  lemma {:induction false} StaysLive(log: seq<Event>, i: nat, j: nat)
    requires i < j <= |log| && log[i].Returned? && NotErased(log, i, j, log[i].id)
    ensures (log[i].view, log[i].id) in Live(log[..j])
    decreases j
  {
    assert Init(log[..j]) == log[..j - 1] && Last(log[..j]) == log[j - 1];
    if j > i + 1 {
      StaysLive(log, i, j - 1);
      assert log[j - 1] != Erased(log[i].id);
    }
  }

  /**
   Whatever the interleaving: two calls that return an identifier for one view,
   without an erasure between them, return the same one, and for different
   views different ones.
   */
  lemma SameIdentifier(run: seq<State>, actions: seq<Action>, i: nat, j: nat)
    requires IsRun(run, actions) && i < j < |Last(run).log|
    requires Last(run).log[i].Returned? && Last(run).log[j].Returned?
    requires NotErased(Last(run).log, i, j, Last(run).log[i].id)
    ensures Last(run).log[i].view == Last(run).log[j].view <==> Last(run).log[i].id == Last(run).log[j].id
  {
    var log := Last(run).log;
    RunInv(run, actions, |run| - 1);
    StaysLive(log, i, j);
    assert Fits(log[..j], log[j]);
  }

  /** An identifier resolves to the view it was returned for, until it is erased. */
  lemma ResolvesBack(run: seq<State>, actions: seq<Action>, i: nat, j: nat)
    requires IsRun(run, actions) && i < j < |Last(run).log|
    requires Last(run).log[i].Returned? && Last(run).log[j].Resolved? && Last(run).log[j].id == Last(run).log[i].id
    requires NotErased(Last(run).log, i, j, Last(run).log[i].id)
    ensures Last(run).log[j].result == Some(Last(run).log[i].view)
  {
    var log := Last(run).log;
    RunInv(run, actions, |run| - 1);
    StaysLive(log, i, j);
    assert Fits(log[..j], log[j]);
  }

  /** A view that was returned is found, until its identifier is erased. */
  lemma FoundAgain(run: seq<State>, actions: seq<Action>, i: nat, j: nat)
    requires IsRun(run, actions) && i < j < |Last(run).log|
    requires Last(run).log[i].Returned? && NotErased(Last(run).log, i, j, Last(run).log[i].id)
    ensures Last(run).log[j] != NotFound(Last(run).log[i].view)
    ensures Last(run).log[j] != NothingErased(Last(run).log[i].id)
  {
    var log := Last(run).log;
    RunInv(run, actions, |run| - 1);
    StaysLive(log, i, j);
    assert Fits(log[..j], log[j]);
  }

  /** No identifier is issued twice, not even after it was erased. */
  lemma NeverReissued(run: seq<State>, actions: seq<Action>, i: nat, j: nat)
    requires IsRun(run, actions) && i < j < |Last(run).log|
    requires Last(run).log[i].Returned? && Last(run).log[j].Returned? && Last(run).log[j].made
    ensures Last(run).log[i].id != Last(run).log[j].id
  {
    var log := Last(run).log;
    RunInv(run, actions, |run| - 1);
    assert Fits(log[..j], log[j]);
    assert log[i] in log[..j];
  }

  /* ---------- literals ---------- */

  /** A literal given by its lexical form, or by its value. */
  datatype LiteralView = Lexical(datatype_: nat) | ByValue(datatype_: nat)

  /** Literals are kept by value in the storage of their datatype if it has one, and by lexical form in the common one if not. */
  datatype Literals = Fallback | Specialized(datatype_: nat)

  /** Where a literal is looked up and made. */
  function IssuedBy(view: LiteralView): Literals {
    match view
    case Lexical(_) => Fallback
    case ByValue(d) => Specialized(d)
  }

  /** Where an identifier is resolved and erased. */
  function StorageOf(datatype_: nat, fixed: set<nat>, specialized: set<nat>): Literals {
    if datatype_ in fixed && datatype_ in specialized then Specialized(datatype_) else Fallback
  }

  /**
   The identifier of a literal leads back to the storage that issued it, exactly
   if a literal given by its value has a fixed datatype; values are for the
   datatypes with a storage of their own.
   */
  lemma LeadsBack(run: seq<State>, actions: seq<Action>, i: nat, literal: LiteralView, fixed: set<nat>, specialized: set<nat>)
    requires IsRun(run, actions) && i < |Last(run).log| && Last(run).log[i].Returned?
    requires literal.datatype_ == Last(run).log[i].view.datatype_ && (literal.ByValue? <==> literal.datatype_ in specialized)
    ensures StorageOf(Last(run).log[i].id.datatype_, fixed, specialized) == IssuedBy(literal)
       <==> (literal.ByValue? ==> literal.datatype_ in fixed)
  {
    RunInv(run, actions, |run| - 1);
    assert Fits(Last(run).log[..i], Last(run).log[i]);
  }
}
