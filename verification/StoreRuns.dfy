/**
  Whole runs of the data store: any sequence of client operations, in any order
  with the working off of listed changes and of values on their way.
 */
module StoreRuns {
  import opened Options
  import opened Refcount
  import opened Values
  import opened DataStore
  import opened StoreOps
  import opened ClientOps
  import opened Cascade

  datatype Op =
    | Creates(id: int, kind: Option<Kind>, fields: nat, initRead: int, initWrite: int, releaseWrite: bool)
    | Counts(id: int, change: Refc)
    | Stores(id: int, sub: Option<string>, val: Value, drop: Refc, read: nat, write: nat)
    | References(id: int, key: string, w: CRef)
    | Subscribes(id: int, sub: Option<string>, l: Listener)
    | Reserves(id: int, key: string)
    | Retrieves(id: int, sub: Option<string>, decr: Refc, read: nat, write: nat)
    | AppliesChange(i: nat)
    | SendsChange(i: nat)
    | CompactsChanges
    | SetsRef(i: nat)
    | SetsFirstRef
    | ForwardsFirstRef

  // Identifiers are not reused while someone still waits on them.
  ghost predicate Admissible(s: State, op: Op) {
    op.Creates? ==> forall key :: key in s.crefs ==> key.0 != op.id
  }

  function StateOf(o: Outcome): Option<State> {
    if o.Done? then Some(o.state) else None
  }

  function Step(s: State, op: Op): Option<State> {
    match op
    case Creates(id, kind, fields, read, write, releaseWrite) => Create(s, id, kind, fields, read, write, releaseWrite)
    case Counts(id, change) => RefcIncr(s, id, change, NO_ACQUIRE)
    case Stores(id, sub, val, drop, read, write) => StateOf(Store(s, id, sub, val, drop, read, write))
    case References(id, key, w) => Reference(s, id, key, w)
    case Subscribes(id, sub, l) =>
      var r := Subscribe(s, id, sub, l);
      if r.None? then None else Some(r.value.state)
    case Reserves(id, key) =>
      var r := InsertAtomic(s, id, key);
      if r.None? then None else Some(r.value.state)
    case Retrieves(id, sub, decr, read, write) =>
      var r := Retrieve(s, id, sub, decr, read, write);
      if r.None? then None else Some(r.value.state)
    case AppliesChange(i) => ChangeApplied(s, i)
    case SendsChange(i) => ChangeSent(s, i)
    case CompactsChanges => Some(Compacted(s))
    case SetsRef(i) => RefTaken(s, i)
    case SetsFirstRef => FrontSet(s)
    case ForwardsFirstRef => FrontForwarded(s)
  }

  // What the clients' holdings of datum x change by: what the operation says it
  // hands over, and nothing for the store's own steps but the known drift.
  function HandedOver(s: State, op: Op, x: int, k: Access): int {
    match op
    case Creates(id, _, _, read, write, _) => if x == id && (read > 0 || write > 0) then Refc(read, write).Of(k) else 0
    case Counts(id, change) => if x == id then change.Of(k) else 0
    case Stores(id, sub, val, drop, read, write) =>
      Overwritten(s, id, sub, val, x, k) - (if x == id then drop.Of(k) else 0)
      - Refc(read, write).Of(k) * Refs(val, x) - StoreShort(s, id, sub, val, read, write, x, k)
    case References(id, key, w) =>
      Surplus(s, id, Some(key), w.read, w.write, x, k)
      - (if k.Read? && x == id then 1 else 0) - (if k.Write? && x == w.id then w.writeDecr else 0)
    case Subscribes(_, _, _) => 0
    case Reserves(_, _) => 0
    case Retrieves(id, sub, decr, read, write) =>
      (if id in s.tds && s.tds[id].value.Some? then Refc(read, write).Of(k) * RefsAt(s.tds[id].value.value, sub, x) else 0)
      - (if x == id then decr.Of(k) else 0)
    case AppliesChange(_) => 0
    case SendsChange(_) => 0
    case CompactsChanges => 0
    case SetsRef(i) => if i < |s.refs| then Drift(s, s.refs[i], x, k) else 0
    case SetsFirstRef => if s.refs != [] then Drift(WithoutFirst(s), s.refs[0], x, k) else 0
    case ForwardsFirstRef => if s.refs != [] then Excess(s.refs[0], x, k) else 0
  }

  ghost predicate Inv(s: State) {
    Valid(s) && WaitersOk(s)
  }

  lemma CreateKeeps(s: State, op: Op)
    requires op.Creates? && Inv(s) && Admissible(s, op) && Step(s, op).Some?
    ensures Inv(Step(s, op).value)
  {
    hide Valid, Lookup;
    var s' := Step(s, op).value;
    CreateBalances(s, op.id, op.kind, op.fields, op.initRead, op.initWrite, op.releaseWrite, 0, Read);
    forall key | key in s'.crefs
      ensures WaiterOk(s', key)
    {
      assert WaiterOk(s, key);
    }
  }

  lemma CountKeeps(s: State, id: int, change: Refc, a: Acquire)
    requires Inv(s) && RefcIncr(s, id, change, a).Some?
    ensures Inv(RefcIncr(s, id, change, a).value)
  {
    hide Valid, WaitersOk, RefcIncr;
    RefcIncrValid(s, id, change, a);
    RefcIncrWaiters(s, id, change, a);
    RefcIncrFrame(s, id, change, a);
  }

  lemma StoreKeeps(s: State, id: int, sub: Option<string>, val: Value, drop: Refc, read: nat, write: nat)
    requires Inv(s) && Store(s, id, sub, val, drop, read, write).Done?
    ensures Inv(Store(s, id, sub, val, drop, read, write).state)
  {
    hide Valid, WaitersOk, Store;
    StoreValid(s, id, sub, val, drop, read, write);
    StoreWaiters(s, id, sub, val, drop, read, write);
  }

  lemma ReferenceKeeps(s: State, id: int, key: string, w: CRef)
    requires Inv(s) && Reference(s, id, key, w).Some?
    ensures Inv(Reference(s, id, key, w).value)
  {
    ReferenceValid(s, id, key, w);
    ReferenceWaiters(s, id, key, w);
  }

  // Consistency does not depend on the notification lists or messages.
  lemma NotListsOnly(s: State, s': State)
    requires Inv(s) && s'.tds == s.tds && s'.crefs == s.crefs
    ensures Inv(s')
  {
    hide Lookup, DatumOk;
    forall key | key in s'.crefs
      ensures WaiterOk(s', key)
    {
      assert WaiterOk(s, key);
    }
  }

  lemma AppliedKeeps(s: State, i: nat)
    requires Inv(s) && ChangeApplied(s, i).Some?
    ensures Inv(ChangeApplied(s, i).value)
  {
    hide Inv, RefcIncr;
    var c := s.refcs[i];
    CountKeeps(s, c.id, c.rc, NO_ACQUIRE);
    var s1 := RefcIncr(s, c.id, c.rc, NO_ACQUIRE).value;
    NotListsOnly(s1, Struck(s1, i));
  }

  lemma RefTakenKeeps(s: State, i: nat)
    requires Inv(s) && RefTaken(s, i).Some?
    ensures Inv(RefTaken(s, i).value)
  {
    hide Inv, Store, TakenOff;
    var r := s.refs[i];
    StoreKeeps(s, r.id, r.sub, r.value, Refc(0, r.writeDecr), r.read, r.write);
    var s1 := SetRef(s, r).state;
    NotListsOnly(s1, s1.(refs := TakenOff(s1.refs, i)));
  }

  lemma FrontSetKeeps(s: State)
    requires Inv(s) && FrontSet(s).Some?
    ensures Inv(FrontSet(s).value)
  {
    hide Inv, Store;
    var r, s0 := s.refs[0], WithoutFirst(s);
    NotListsOnly(s, s0);
    StoreKeeps(s0, r.id, r.sub, r.value, Refc(0, r.writeDecr), r.read, r.write);
  }

  /** Every step of every run keeps the store consistent. */
  lemma StepKeeps(s: State, op: Op)
    requires Inv(s) && Admissible(s, op) && Step(s, op).Some?
    ensures Inv(Step(s, op).value)
  {
    hide Inv, RefcIncr, Store, Reference, ChangeApplied, RefTaken, FrontSet, Create, Subscribe, InsertAtomic, Retrieve;
    match op
    case Creates(_, _, _, _, _, _) => CreateKeeps(s, op);
    case Counts(id, change) => CountKeeps(s, id, change, NO_ACQUIRE);
    case Stores(id, sub, val, drop, read, write) => StoreKeeps(s, id, sub, val, drop, read, write);
    case References(id, key, w) => ReferenceKeeps(s, id, key, w);
    case Subscribes(id, sub, l) => SubscribeStep(s, id, sub, l);
    case Reserves(id, key) => ReserveStep(s, id, key);
    case Retrieves(id, sub, decr, read, write) => RetrieveStep(s, id, sub, decr, read, write);
    case AppliesChange(i) => AppliedKeeps(s, i);
    case SendsChange(_) => NotListsOnly(s, Step(s, op).value);
    case CompactsChanges => NotListsOnly(s, Step(s, op).value);
    case SetsRef(i) => RefTakenKeeps(s, i);
    case SetsFirstRef => FrontSetKeeps(s);
    case ForwardsFirstRef => NotListsOnly(s, Step(s, op).value);
  }

  lemma SubscribeStep(s: State, id: int, sub: Option<string>, l: Listener)
    requires Inv(s) && Subscribe(s, id, sub, l).Some?
    ensures Inv(Subscribe(s, id, sub, l).value.state)
  {
    SubscribeKeeps(s, id, sub, l, 0, Read);
    hide Valid, WaitersOk, Lookup, Subscriptable;
  }

  lemma ReserveStep(s: State, id: int, key: string)
    requires Inv(s) && InsertAtomic(s, id, key).Some?
    ensures Inv(InsertAtomic(s, id, key).value.state)
  {
    InsertAtomicKeeps(s, id, key, 0, Read);
    hide Valid, WaitersOk, Lookup, StoreAt;
  }

  lemma RetrieveStep(s: State, id: int, sub: Option<string>, decr: Refc, read: nat, write: nat)
    requires Inv(s) && Retrieve(s, id, sub, decr, read, write).Some?
    ensures Inv(Retrieve(s, id, sub, decr, read, write).value.state)
  {
    hide Valid, WaitersOk, Lookup, RefcIncr;
    if decr != NO_REFC || read != 0 || write != 0 {
      CountKeeps(s, id, Refc(-decr.r, -decr.w), Acquire(sub, read, write));
    }
  }

  /** Every step moves the clients' holdings by what it hands over. */
  lemma StepBalances(s: State, op: Op, x: int, k: Access)
    requires Inv(s) && Admissible(s, op) && Step(s, op).Some?
    ensures Clients(Step(s, op).value, x, k) == Clients(s, x, k) + HandedOver(s, op, x, k)
  {
    hide Clients, Valid, WaitersOk, RefcIncr, Store, Reference, Create, Subscribe, InsertAtomic, Surplus, Excess,
      Refs, Overwritten, StoreShort, Drift, DatumRefsAt, RefsAt, Retrieve, ChangeApplied, ChangeSent, Compacted, RefTaken, FrontSet,
      FrontForwarded, WithoutFirst;
    match op
    case Creates(id, kind, fields, read, write, releaseWrite) =>
      CreateBalances(s, id, kind, fields, read, write, releaseWrite, x, k);
    case Counts(id, change) => RefcIncrBalances(s, id, change, NO_ACQUIRE, x, k);
    case Stores(id, sub, val, drop, read, write) => StoreBalances(s, id, sub, val, drop, read, write, x, k);
    case References(id, key, w) => ReferenceBalances(s, id, key, w, x, k);
    case Subscribes(id, sub, l) => SubscribeKeeps(s, id, sub, l, x, k);
    case Reserves(id, key) => InsertAtomicKeeps(s, id, key, x, k);
    case Retrieves(id, sub, decr, read, write) => RetrieveStepBalances(s, id, sub, decr, read, write, x, k);
    case AppliesChange(i) => AppliedStepBalances(s, i, x, k);
    case SendsChange(i) => SentBalances(s, i, x, k);
    case CompactsChanges => CompactedBalances(s, x, k);
    case SetsRef(i) => RefTakenBalances(s, i, x, k);
    case SetsFirstRef => FrontSetBalances(s, x, k);
    case ForwardsFirstRef => FrontForwardedBalances(s, x, k);
  }

  lemma RetrieveStepBalances(s: State, id: int, sub: Option<string>, decr: Refc, read: nat, write: nat, x: int, k: Access)
    requires Valid(s) && Retrieve(s, id, sub, decr, read, write).Some?
    ensures id in s.tds && s.tds[id].value.Some?
    ensures Clients(Retrieve(s, id, sub, decr, read, write).value.state, x, k) ==
            Clients(s, x, k) + Refc(read, write).Of(k) * RefsAt(s.tds[id].value.value, sub, x)
            - if x == id then decr.Of(k) else 0
  {
    RetrieveBalances(s, id, sub, decr, read, write, x, k);
    hide Clients, Lookup, Refs, RefsAt, RefcIncr;
    TimesDifference(Refc(read, write).Of(k), RefsAt(s.tds[id].value.value, sub, x),
                    Refs(Lookup(s.tds[id].value.value, sub).value, x));
  }

  // ---- Runs -----------------------------------------------------------------

  const EMPTY := State(map[], map[], map[], [], [], [], [], [])

  // The state a run leads to from s, if every operation in it was admissible and succeeded.
  ghost function RunFrom(s: State, ops: seq<Op>): Option<State> {
    if ops == [] then Some(s)
    else
      var t := RunFrom(s, ops[..|ops| - 1]);
      if t.None? || !Admissible(t.value, ops[|ops| - 1]) then None else Step(t.value, ops[|ops| - 1])
  }

  ghost function HandedOverFrom(s: State, ops: seq<Op>, x: int, k: Access): int
    requires RunFrom(s, ops).Some?
  {
    if ops == [] then 0
    else
      var front := ops[..|ops| - 1];
      HandedOverFrom(s, front, x, k) + HandedOver(RunFrom(s, front).value, ops[|ops| - 1], x, k)
  }

  ghost function After(ops: seq<Op>): Option<State> {
    RunFrom(EMPTY, ops)
  }

  lemma RunSnoc(s: State, ops: seq<Op>, op: Op)
    ensures var t := RunFrom(s, ops);
            RunFrom(s, ops + [op]) == if t.None? || !Admissible(t.value, op) then None else Step(t.value, op)
    ensures RunFrom(s, ops + [op]).Some? ==>
              forall x: int, k: Access :: HandedOverFrom(s, ops + [op], x, k) ==
                HandedOverFrom(s, ops, x, k) + HandedOver(RunFrom(s, ops).value, op, x, k)
  {
    hide Step, Admissible, HandedOver;
    assert (ops + [op])[..|ops|] == ops;
  }

  lemma {:induction false} RunFromBalances(s: State, ops: seq<Op>, x: int, k: Access)
    requires Inv(s) && RunFrom(s, ops).Some?
    ensures Inv(RunFrom(s, ops).value)
    ensures Clients(RunFrom(s, ops).value, x, k) == Clients(s, x, k) + HandedOverFrom(s, ops, x, k)
  {
    hide Clients, Inv, Step, HandedOver, Admissible;
    if ops != [] {
      var front, op := ops[..|ops| - 1], ops[|ops| - 1];
      RunFromBalances(s, front, x, k);
      StepKeeps(RunFrom(s, front).value, op);
      StepBalances(RunFrom(s, front).value, op, x, k);
    }
  }

  lemma EmptyOk(x: int, k: Access)
    ensures Inv(EMPTY) && KeysOk(EMPTY) && Clients(EMPTY, x, k) == 0
  {
    assert CellMap(EMPTY.tds, x, k) == map[];
    assert WaitMap(EMPTY.crefs, x, k) == map[];
  }

  /**
    Reference conservation over every run: the datum's count and the pending
    changes to it are exactly the counts owned by cells, by waiters and by values
    on their way, plus what the operations of the run handed to clients.
   */
  lemma RunBalances(ops: seq<Op>, x: int, k: Access)
    requires After(ops).Some?
    ensures Inv(After(ops).value)
    ensures Clients(After(ops).value, x, k) == HandedOverFrom(EMPTY, ops, x, k)
  {
    hide Clients, Inv, RunFrom, HandedOverFrom;
    EmptyOk(x, k);
    RunFromBalances(EMPTY, ops, x, k);
  }

  // ---- Notifications over runs ------------------------------------------------

  // The store's own steps: working notifications off.
  predicate Internal(op: Op) {
    op.AppliesChange? || op.SendsChange? || op.CompactsChanges? || op.SetsRef? || op.SetsFirstRef? || op.ForwardsFirstRef?
  }

  // Whether a step is a subscription, accepted, of this listener.
  predicate Accepts(s: State, op: Op, id: int, sub: Option<string>, l: Listener) {
    && op.Subscribes? && op.id == id && op.sub == sub && op.l == l
    && Subscribe(s, id, sub, l).Some? && Subscribe(s, id, sub, l).value.yes
  }

  lemma SameLists(s: State, s': State, id: int, sub: Option<string>, l: Listener)
    requires s'.tds == s.tds && s'.ixl == s.ixl && s'.ranks == s.ranks
    ensures Outstanding(s', id, sub, l) == Outstanding(s, id, sub, l)
  {
    assert ListenersOf(s', id, sub) == ListenersOf(s, id, sub);
  }

  lemma StepNotifies(s: State, op: Op, id: int, sub: Option<string>, l: Listener)
    requires Inv(s) && Admissible(s, op) && Step(s, op).Some?
    ensures Outstanding(Step(s, op).value, id, sub, l) ==
            Outstanding(s, id, sub, l) + if Accepts(s, op, id, sub, l) then 1 else 0
  {
    hide Outstanding, Valid, WaitersOk, RefcIncr, Store, Reference, Create, Subscribe, InsertAtomic,
      Retrieve, ChangeApplied, RefTaken, FrontSet, Nonzero;
    match op
    case Creates(_, _, _, _, _, _) => CreateNotifies(s, op, id, sub, l);
    case Counts(x, change) => RefcIncrNotifiesOnce(s, x, change, NO_ACQUIRE, id, sub, l);
    case Stores(x, at, val, drop, read, write) => StoreNotifiesOnce(s, x, at, val, drop, read, write, id, sub, l);
    case References(x, key, w) => ReferenceNotifies(s, x, key, w, id, sub, l);
    case Subscribes(x, at, m) => SubscribeCounts(s, x, at, m, id, sub, l);
    case Reserves(x, key) => ReserveNotifies(s, x, key, id, sub, l);
    case Retrieves(x, at, decr, read, write) => RetrieveNotifies(s, x, at, decr, read, write, id, sub, l);
    case AppliesChange(i) => AppliedNotifies(s, i, id, sub, l);
    case SendsChange(_) => SameLists(s, Step(s, op).value, id, sub, l);
    case CompactsChanges => SameLists(s, Step(s, op).value, id, sub, l);
    case SetsRef(i) => RefTakenNotifies(s, i, id, sub, l);
    case SetsFirstRef => FrontSetNotifies(s, id, sub, l);
    case ForwardsFirstRef => SameLists(s, Step(s, op).value, id, sub, l);
  }

  lemma CreateNotifies(s: State, op: Op, id: int, sub: Option<string>, l: Listener)
    requires op.Creates? && Step(s, op).Some?
    ensures Outstanding(Step(s, op).value, id, sub, l) == Outstanding(s, id, sub, l)
  {
    assert ListenersOf(Step(s, op).value, id, sub) == ListenersOf(s, id, sub);
  }

  lemma ReferenceNotifies(s: State, x: int, key: string, w: CRef, id: int, sub: Option<string>, l: Listener)
    requires Valid(s) && Reference(s, x, key, w).Some?
    ensures Outstanding(Reference(s, x, key, w).value, id, sub, l) == Outstanding(s, id, sub, l)
  {
    hide RefcIncr, Lookup, Subscriptable, DatumOk;
    var found := Lookup(s.tds[x].value.value, Some(key));
    if found.Some? {
      var s0 := s.(refs := s.refs + [RefSet(w.id, w.sub, found.value, w.read, w.write, w.writeDecr)]);
      SameLists(s, s0, id, sub, l);
      RefcIncrNotifiesOnce(s0, x, Refc(-1, 0), Acquire(Some(key), w.read, w.write), id, sub, l);
    } else {
      assert ListenersOf(Reference(s, x, key, w).value, id, sub) == ListenersOf(s, id, sub);
    }
  }

  lemma ReserveNotifies(s: State, x: int, key: string, id: int, sub: Option<string>, l: Listener)
    requires InsertAtomic(s, x, key).Some?
    ensures Outstanding(InsertAtomic(s, x, key).value.state, id, sub, l) == Outstanding(s, id, sub, l)
  {
    hide StoreAt, Lookup;
    assert ListenersOf(InsertAtomic(s, x, key).value.state, id, sub) == ListenersOf(s, id, sub);
  }

  lemma RetrieveNotifies(s: State, x: int, at: Option<string>, decr: Refc, read: nat, write: nat, id: int, sub: Option<string>, l: Listener)
    requires Valid(s) && Retrieve(s, x, at, decr, read, write).Some?
    ensures Outstanding(Retrieve(s, x, at, decr, read, write).value.state, id, sub, l) == Outstanding(s, id, sub, l)
  {
    hide RefcIncr, Lookup, Outstanding, Valid;
    if decr != NO_REFC || read != 0 || write != 0 {
      RefcIncrNotifiesOnce(s, x, Refc(-decr.r, -decr.w), Acquire(at, read, write), id, sub, l);
    }
  }

  lemma AppliedNotifies(s: State, i: nat, id: int, sub: Option<string>, l: Listener)
    requires Valid(s) && ChangeApplied(s, i).Some?
    ensures Outstanding(ChangeApplied(s, i).value, id, sub, l) == Outstanding(s, id, sub, l)
  {
    hide RefcIncr, Outstanding, Valid;
    var c := s.refcs[i];
    RefcIncrNotifiesOnce(s, c.id, c.rc, NO_ACQUIRE, id, sub, l);
    var s1 := RefcIncr(s, c.id, c.rc, NO_ACQUIRE).value;
    SameLists(s1, Struck(s1, i), id, sub, l);
  }

  lemma RefTakenNotifies(s: State, i: nat, id: int, sub: Option<string>, l: Listener)
    requires Inv(s) && RefTaken(s, i).Some?
    ensures Outstanding(RefTaken(s, i).value, id, sub, l) == Outstanding(s, id, sub, l)
  {
    hide Store, Outstanding, Valid, WaitersOk, TakenOff;
    var r := s.refs[i];
    StoreNotifiesOnce(s, r.id, r.sub, r.value, Refc(0, r.writeDecr), r.read, r.write, id, sub, l);
    var s1 := SetRef(s, r).state;
    SameLists(s1, s1.(refs := TakenOff(s1.refs, i)), id, sub, l);
  }

  lemma FrontSetNotifies(s: State, id: int, sub: Option<string>, l: Listener)
    requires Inv(s) && FrontSet(s).Some?
    ensures Outstanding(FrontSet(s).value, id, sub, l) == Outstanding(s, id, sub, l)
  {
    hide Store, Outstanding, Inv;
    var r, s0 := s.refs[0], WithoutFirst(s);
    SameLists(s, s0, id, sub, l);
    NotListsOnly(s, s0);
    InvValid(s0);
    StoreNotifiesOnce(s0, r.id, r.sub, r.value, Refc(0, r.writeDecr), r.read, r.write, id, sub, l);
  }

  lemma InvValid(s: State)
    requires Inv(s)
    ensures Valid(s)
  {
  }

  ghost function AcceptedFrom(s: State, ops: seq<Op>, id: int, sub: Option<string>, l: Listener): nat
    requires RunFrom(s, ops).Some?
  {
    if ops == [] then 0
    else
      var front := ops[..|ops| - 1];
      AcceptedFrom(s, front, id, sub, l) + if Accepts(RunFrom(s, front).value, ops[|ops| - 1], id, sub, l) then 1 else 0
  }

  lemma {:induction false} RunFromNotifies(s: State, ops: seq<Op>, id: int, sub: Option<string>, l: Listener)
    requires Inv(s) && RunFrom(s, ops).Some?
    ensures Outstanding(RunFrom(s, ops).value, id, sub, l) == Outstanding(s, id, sub, l) + AcceptedFrom(s, ops, id, sub, l)
  {
    hide Inv, Step, Admissible, Accepts, Outstanding;
    if ops != [] {
      var front, op := ops[..|ops| - 1], ops[|ops| - 1];
      RunFromNotifies(s, front, id, sub, l);
      RunFromBalances(s, front, 0, Read);
      StepNotifies(RunFrom(s, front).value, op, id, sub, l);
    }
  }

  /**
    Over every run a listener's accepted subscriptions are those still pending
    plus its notifications: none is lost, none is answered twice.
   */
  lemma OneNotificationEach(ops: seq<Op>, id: int, sub: Option<string>, l: Listener)
    requires After(ops).Some?
    ensures Outstanding(After(ops).value, id, sub, l) == AcceptedFrom(EMPTY, ops, id, sub, l)
  {
    EmptyOk(0, Read);
    assert Outstanding(EMPTY, id, sub, l) == 0;
    hide Inv, RunFrom, AcceptedFrom, Outstanding;
    RunFromNotifies(EMPTY, ops, id, sub, l);
  }

  /** Once a run has notified, closed data have no listeners left to notify. */
  lemma NobodyWaitsOnClosed(ops: seq<Op>, id: int)
    requires After(ops).Some? && id in After(ops).value.tds && After(ops).value.tds[id].write == 0
    ensures After(ops).value.tds[id].listeners == []
  {
    RunBalances(ops, 0, Read);
    assert DatumOk(After(ops).value.tds[id]);
  }

  // ---- Members of containers over runs ------------------------------------------

  // The content of an assigned member.
  predicate Assigned(s: State, id: int, key: string, v: Value) {
    && id in s.tds && IsContainer(s.tds[id])
    && ContentOf(Lookup(s.tds[id].value.value, Some(key))) == Some(v)
  }

  lemma SameContentAssigned(s: State, s': State, id: int, key: string, v: Value)
    requires Assigned(s, id, key, v) && id in s'.tds && ContentOf(s'.tds[id].value) == ContentOf(s.tds[id].value)
    ensures Assigned(s', id, key, v)
  {
    hide Lookup;
    SameContentLookup(s.tds[id].value.value, s'.tds[id].value.value, Some(key));
  }

  lemma CountAssigned(s: State, id: int, change: Refc, a: Acquire, j: int, key: string, v: Value)
    requires RefcIncr(s, id, change, a).Some? && Assigned(s, j, key, v)
    ensures var s' := RefcIncr(s, id, change, a).value; j in s'.tds ==> Assigned(s', j, key, v)
  {
    var s' := RefcIncr(s, id, change, a).value;
    RefcIncrFrame(s, id, change, a);
    if j != id {
      SameElsewhere(s, s', id, j);
    } else if id in s'.tds {
      RefcIncrKeepsContent(s, id, change, a);
      SameContentAssigned(s, s', id, key, v);
    }
  }

  lemma ServedAssigned(s: State, s': State, id: int, j: int, key: string, v: Value)
    requires Served(s, s', id) && Assigned(s, j, key, v)
    ensures Assigned(s', j, key, v)
  {
    hide Valid, ContentOf, Lookup;
    if j == id {
      SameContentAssigned(s, s', id, key, v);
    } else {
      SameElsewhere(s, s', id, j);
    }
  }

  lemma WrittenOnce(u: Value, sub: string, val: Option<Value>, key: string)
    requires u.Compound? && u.kind.ContainerKind? && StoreAt(u, sub, val).Stored? && Lookup(u, Some(key)).Some?
    ensures Lookup(StoreAt(u, sub, val).value, Some(key)) == Lookup(u, Some(key))
  {
    if key != sub {
      OtherMembers(u, sub, val, key);
    }
  }

  lemma AssignAssigned(s: State, id: int, sub: Option<string>, val: Value, read: nat, write: nat, j: int, key: string, v: Value)
    requires id in s.tds && Assign(s, id, sub, val, read, write).Done? && Assigned(s, j, key, v)
    ensures Assigned(Assign(s, id, sub, val, read, write).state, j, key, v)
  {
    hide StoreAt, Stamp, Merge, ContentOf, Lookup;
    if j == id {
      var u := s.tds[id].value.value;
      SomeContent(Lookup(u, Some(key)), v);
      if sub.None? {
        MemberFound(u, key);
        MergeKeepsMembers(u, Stamp(val, read, write), key);
        MergeKeepsKind(u, Stamp(val, read, write));
      } else {
        WrittenOnce(u, sub.value, Some(Stamp(val, read, write)), key);
        StoreKeepsKind(u, sub.value, Some(Stamp(val, read, write)));
      }
    }
  }

  lemma SomeContent(u: Option<Value>, v: Value)
    requires ContentOf(u) == Some(v)
    ensures u.Some?
  {
  }

  lemma MemberFound(u: Value, key: string)
    requires u.Compound? && u.kind.ContainerKind? && Lookup(u, Some(key)).Some?
    ensures Find(u.children, key) < |u.children|
  {
  }

  lemma StoreAssigned(s: State, id: int, sub: Option<string>, val: Value, drop: Refc, read: nat, write: nat, j: int, key: string, v: Value)
    requires Valid(s) && Store(s, id, sub, val, drop, read, write).Done? && Assigned(s, j, key, v)
    ensures var s' := Store(s, id, sub, val, drop, read, write).state; j in s'.tds ==> Assigned(s', j, key, v)
  {
    hide Assign, DrainAll, Items, RefcIncr, Store, Valid, Served, Assigned;
    var s1, s2 := StoreSteps(s, id, sub, val, drop, read, write);
    AssignValid(s, id, sub, val, read, write);
    OpenAfterAssign(s, id, sub, val, read, write);
    DrainAllServed(s1, id, Items(s, id, sub, val, read, write));
    AssignAssigned(s, id, sub, val, read, write, j, key, v);
    ServedAssigned(s1, s2, id, j, key, v);
    if drop != NO_REFC {
      CountAssigned(s2, id, Refc(-drop.r, -drop.w), NO_ACQUIRE, j, key, v);
    }
  }

  lemma ReferenceMembers(s: State, id: int, at: string, w: CRef, j: int, key: string, v: Value)
    requires Reference(s, id, at, w).Some?
    ensures var s' := Reference(s, id, at, w).value; Assigned(s, j, key, v) && j in s'.tds ==> Assigned(s', j, key, v)
    ensures var s' := Reference(s, id, at, w).value; HasKey(s, j, key) && j in s'.tds ==> HasKey(s', j, key)
  {
    hide RefcIncr, Lookup, Subscriptable, ContentOf;
    var found := Lookup(s.tds[id].value.value, Some(at));
    if found.Some? {
      var s0 := s.(refs := s.refs + [RefSet(w.id, w.sub, found.value, w.read, w.write, w.writeDecr)]);
      if Assigned(s, j, key, v) {
        CountAssigned(s0, id, Refc(-1, 0), Acquire(Some(at), w.read, w.write), j, key, v);
      }
      if HasKey(s, j, key) {
        RefcIncrKeepsKeys(s0, id, Refc(-1, 0), Acquire(Some(at), w.read, w.write), j, key);
      }
    }
  }

  lemma ReserveMembers(s: State, id: int, at: string, j: int, key: string, v: Value)
    requires InsertAtomic(s, id, at).Some?
    ensures Assigned(s, j, key, v) ==> Assigned(InsertAtomic(s, id, at).value.state, j, key, v)
    ensures HasKey(s, j, key) ==> HasKey(InsertAtomic(s, id, at).value.state, j, key)
  {
    hide StoreAt, Lookup, ContentOf;
    var u := s.tds[id].value.value;
    if StoreAt(u, at, None).Stored? {
      StoreKeepsKind(u, at, None);
      if j == id && Assigned(s, j, key, v) {
        SomeContent(Lookup(u, Some(key)), v);
        WrittenOnce(u, at, None, key);
      }
      if j == id && HasKey(s, j, key) {
        StoreAtKeepsKeys(u, at, None, key);
      }
    }
  }

  lemma RetrieveMembers(s: State, id: int, sub: Option<string>, decr: Refc, read: nat, write: nat, j: int, key: string, v: Value)
    requires Retrieve(s, id, sub, decr, read, write).Some?
    ensures var s' := Retrieve(s, id, sub, decr, read, write).value.state; Assigned(s, j, key, v) && j in s'.tds ==> Assigned(s', j, key, v)
    ensures var s' := Retrieve(s, id, sub, decr, read, write).value.state; HasKey(s, j, key) && j in s'.tds ==> HasKey(s', j, key)
  {
    hide RefcIncr, Lookup, Assigned, HasKey;
    if decr != NO_REFC || read != 0 || write != 0 {
      if Assigned(s, j, key, v) {
        CountAssigned(s, id, Refc(-decr.r, -decr.w), Acquire(sub, read, write), j, key, v);
      }
      if HasKey(s, j, key) {
        RefcIncrKeepsKeys(s, id, Refc(-decr.r, -decr.w), Acquire(sub, read, write), j, key);
      }
    }
  }

  lemma OtherStepMembers(s: State, op: Op, j: int, key: string, v: Value)
    requires (op.Creates? || op.Subscribes?) && Step(s, op).Some?
    ensures Assigned(s, j, key, v) ==> Assigned(Step(s, op).value, j, key, v)
    ensures HasKey(s, j, key) ==> HasKey(Step(s, op).value, j, key)
  {
    hide Lookup, Subscriptable, ContentOf;
  }

  // Membership does not depend on the notification lists.
  lemma ListsAside(s: State, s': State, j: int, key: string, v: Value)
    requires s'.tds == s.tds
    ensures Assigned(s', j, key, v) <==> Assigned(s, j, key, v)
    ensures HasKey(s', j, key) <==> HasKey(s, j, key)
  {
  }

  lemma SetMembers(s: State, r: RefSet, j: int, key: string, v: Value)
    requires Inv(s) && SetRef(s, r).Done? && j in SetRef(s, r).state.tds
    ensures Assigned(s, j, key, v) ==> Assigned(SetRef(s, r).state, j, key, v)
    ensures HasKey(s, j, key) ==> HasKey(SetRef(s, r).state, j, key)
  {
    hide Store, Assigned, HasKey, Valid, WaitersOk;
    if Assigned(s, j, key, v) {
      StoreAssigned(s, r.id, r.sub, r.value, Refc(0, r.writeDecr), r.read, r.write, j, key, v);
    }
    if HasKey(s, j, key) {
      MembersStay(s, r.id, r.sub, r.value, Refc(0, r.writeDecr), r.read, r.write, j, key);
    }
  }

  lemma CountMembers(s: State, id: int, change: Refc, j: int, key: string, v: Value)
    requires RefcIncr(s, id, change, NO_ACQUIRE).Some? && j in RefcIncr(s, id, change, NO_ACQUIRE).value.tds
    ensures Assigned(s, j, key, v) ==> Assigned(RefcIncr(s, id, change, NO_ACQUIRE).value, j, key, v)
    ensures HasKey(s, j, key) ==> HasKey(RefcIncr(s, id, change, NO_ACQUIRE).value, j, key)
  {
    hide RefcIncr, Assigned, HasKey;
    if Assigned(s, j, key, v) {
      CountAssigned(s, id, change, NO_ACQUIRE, j, key, v);
    }
    if HasKey(s, j, key) {
      RefcIncrKeepsKeys(s, id, change, NO_ACQUIRE, j, key);
    }
  }

  lemma QueueStepMembers(s: State, op: Op, j: int, key: string, v: Value)
    requires Internal(op) && Inv(s) && Step(s, op).Some? && j in Step(s, op).value.tds
    ensures Assigned(s, j, key, v) ==> Assigned(Step(s, op).value, j, key, v)
    ensures HasKey(s, j, key) ==> HasKey(Step(s, op).value, j, key)
  {
    hide RefcIncr, Store, Assigned, HasKey, Inv, TakenOff, Nonzero;
    var s' := Step(s, op).value;
    match op
    case AppliesChange(i) =>
      var c := s.refcs[i];
      CountMembers(s, c.id, c.rc, j, key, v);
      ListsAside(RefcIncr(s, c.id, c.rc, NO_ACQUIRE).value, s', j, key, v);
    case SetsRef(i) =>
      SetMembers(s, s.refs[i], j, key, v);
      ListsAside(SetRef(s, s.refs[i]).state, s', j, key, v);
    case SetsFirstRef =>
      var s0 := WithoutFirst(s);
      NotListsOnly(s, s0);
      ListsAside(s, s0, j, key, v);
      SetMembers(s0, s.refs[0], j, key, v);
    case _ => ListsAside(s, s', j, key, v);
  }

  /** No step replaces an assigned member, or removes one, while its container lives. */
  lemma StepMembers(s: State, op: Op, j: int, key: string, v: Value)
    requires Inv(s) && Admissible(s, op) && Step(s, op).Some? && j in Step(s, op).value.tds
    ensures Assigned(s, j, key, v) ==> Assigned(Step(s, op).value, j, key, v)
    ensures HasKey(s, j, key) ==> HasKey(Step(s, op).value, j, key)
  {
    hide Assigned, HasKey, Inv, RefcIncr, Store, Reference, Create, Subscribe, InsertAtomic,
      Retrieve, ChangeApplied, ChangeSent, Compacted, RefTaken, FrontSet, FrontForwarded;
    match op
    case Counts(id, change) => CountMembers(s, id, change, j, key, v);
    case Stores(id, sub, val, drop, read, write) =>
      InvValid(s);
      if Assigned(s, j, key, v) {
        StoreAssigned(s, id, sub, val, drop, read, write, j, key, v);
      }
      if HasKey(s, j, key) {
        MembersStay(s, id, sub, val, drop, read, write, j, key);
      }
    case References(id, at, w) => ReferenceMembers(s, id, at, w, j, key, v);
    case Reserves(id, at) => ReserveMembers(s, id, at, j, key, v);
    case Retrieves(id, sub, decr, read, write) => RetrieveMembers(s, id, sub, decr, read, write, j, key, v);
    case Creates(_, _, _, _, _, _) => OtherStepMembers(s, op, j, key, v);
    case Subscribes(_, _, _) => OtherStepMembers(s, op, j, key, v);
    case _ => QueueStepMembers(s, op, j, key, v);
  }

  // The datum is there after each of the first n to m operations.
  ghost predicate Lives(ops: seq<Op>, n: nat, m: nat, id: int)
    requires n <= m <= |ops|
  {
    forall i :: n <= i <= m ==> After(ops[..i]).Some? && id in After(ops[..i]).value.tds
  }

  /** Over every run, an assigned member keeps its value and a member that exists stays. */
  lemma {:induction false} MembersLast(ops: seq<Op>, n: nat, m: nat, id: int, key: string, v: Value)
    requires n <= m <= |ops| && Lives(ops, n, m, id)
    ensures Assigned(After(ops[..n]).value, id, key, v) ==> Assigned(After(ops[..m]).value, id, key, v)
    ensures HasKey(After(ops[..n]).value, id, key) ==> HasKey(After(ops[..m]).value, id, key)
    decreases m
  {
    hide Assigned, HasKey, Inv, Step, Admissible;
    if n < m {
      MembersLast(ops, n, m - 1, id, key, v);
      assert ops[..m][..m - 1] == ops[..m - 1];
      assert After(ops[..m]).Some? && After(ops[..m - 1]).Some?;
      RunBalances(ops[..m - 1], 0, Read);
      StepMembers(After(ops[..m - 1]).value, ops[m - 1], id, key, v);
    }
  }

  /** Of two reservations of the same member in one life of its container, the second creates nothing. */
  lemma CreatedOnce(ops: seq<Op>, n: nat, m: nat, id: int, key: string)
    requires n < m < |ops| && ops[n] == Reserves(id, key) && ops[m] == Reserves(id, key)
    requires Lives(ops, n, m, id) && InsertAtomic(After(ops[..m]).value, id, key).Some?
    ensures !InsertAtomic(After(ops[..m]).value, id, key).value.created
  {
    hide HasKey, InsertAtomic, Admissible;
    assert ops[..n + 1][..n] == ops[..n];
    assert After(ops[..n + 1]).Some? && After(ops[..n]).Some?;
    InsertAtomicCreates(After(ops[..n]).value, id, key);
    MembersLast(ops, n + 1, m, id, key, Scalar(0));
    InsertAtomicCreates(After(ops[..m]).value, id, key);
  }

  // ---- Closed data over runs --------------------------------------------------------

  // Datum j, if it is still there, is closed and has the same content.
  ghost predicate Frozen(s: State, s': State, j: int)
    requires j in s.tds
  {
    j in s'.tds ==> s'.tds[j].write == 0 && ContentOf(s'.tds[j].value) == ContentOf(s.tds[j].value)
  }

  lemma CountFrozen(s: State, id: int, change: Refc, a: Acquire, j: int)
    requires RefcIncr(s, id, change, a).Some? && j in s.tds && s.tds[j].write == 0
    ensures Frozen(s, RefcIncr(s, id, change, a).value, j)
  {
    hide ContentOf;
    var s' := RefcIncr(s, id, change, a).value;
    RefcIncrFrame(s, id, change, a);
    ClosedStaysClosed(s, id, change, a, j);
    hide RefcIncr;
    if j != id {
      SameElsewhere(s, s', id, j);
    } else if id in s'.tds {
      RefcIncrKeepsContent(s, id, change, a);
    }
  }

  lemma StoreFrozen(s: State, id: int, sub: Option<string>, val: Value, drop: Refc, read: nat, write: nat, j: int)
    requires Valid(s) && Store(s, id, sub, val, drop, read, write).Done? && j in s.tds && s.tds[j].write == 0
    ensures Frozen(s, Store(s, id, sub, val, drop, read, write).state, j)
  {
    hide Assign, DrainAll, Items, RefcIncr, Store, Valid, ContentOf;
    var s1, s2 := StoreSteps(s, id, sub, val, drop, read, write);
    AssignFrame(s, id, sub, val, read, write);
    AssignValid(s, id, sub, val, read, write);
    DrainAllServed(s1, id, Items(s, id, sub, val, read, write));
    SameElsewhere(s1, s2, id, j);
    if drop != NO_REFC {
      CountFrozen(s2, id, Refc(-drop.r, -drop.w), NO_ACQUIRE, j);
    }
  }

  lemma ReferenceFrozen(s: State, id: int, key: string, w: CRef, j: int)
    requires Reference(s, id, key, w).Some? && j in s.tds && s.tds[j].write == 0
    ensures Frozen(s, Reference(s, id, key, w).value, j)
  {
    hide RefcIncr, Lookup, Subscriptable, ContentOf;
    var found := Lookup(s.tds[id].value.value, Some(key));
    if found.Some? {
      var s0 := s.(refs := s.refs + [RefSet(w.id, w.sub, found.value, w.read, w.write, w.writeDecr)]);
      CountFrozen(s0, id, Refc(-1, 0), Acquire(Some(key), w.read, w.write), j);
    }
  }

  lemma RetrieveFrozen(s: State, id: int, sub: Option<string>, decr: Refc, read: nat, write: nat, j: int)
    requires Retrieve(s, id, sub, decr, read, write).Some? && j in s.tds && s.tds[j].write == 0
    ensures Frozen(s, Retrieve(s, id, sub, decr, read, write).value.state, j)
  {
    hide RefcIncr, Lookup, ContentOf;
    if decr != NO_REFC || read != 0 || write != 0 {
      CountFrozen(s, id, Refc(-decr.r, -decr.w), Acquire(sub, read, write), j);
    }
  }

  lemma QueueStepFrozen(s: State, op: Op, j: int)
    requires Internal(op) && Inv(s) && Step(s, op).Some? && j in s.tds && s.tds[j].write == 0
    ensures Frozen(s, Step(s, op).value, j)
  {
    InvValid(s);
    hide RefcIncr, Store, Inv, TakenOff, Nonzero, ContentOf;
    match op
    case AppliesChange(i) => CountFrozen(s, s.refcs[i].id, s.refcs[i].rc, NO_ACQUIRE, j);
    case SetsRef(i) =>
      var r := s.refs[i];
      StoreFrozen(s, r.id, r.sub, r.value, Refc(0, r.writeDecr), r.read, r.write, j);
    case SetsFirstRef =>
      var r := s.refs[0];
      assert Valid(WithoutFirst(s));
      StoreFrozen(WithoutFirst(s), r.id, r.sub, r.value, Refc(0, r.writeDecr), r.read, r.write, j);
    case _ =>
  }

  /** No step reopens a closed datum, and none but a reservation of a member changes its content. */
  lemma StepFrozen(s: State, op: Op, j: int)
    requires Inv(s) && Step(s, op).Some? && j in s.tds && s.tds[j].write == 0
    ensures j in Step(s, op).value.tds ==> Step(s, op).value.tds[j].write == 0
    ensures !(op.Reserves? && op.id == j) ==> Frozen(s, Step(s, op).value, j)
  {
    InvValid(s);
    hide RefcIncr, Store, Inv, Reference, Retrieve, ChangeApplied, RefTaken, FrontSet, ContentOf,
      Lookup, StoreAt, Subscriptable, EmptyValue;
    match op
    case Counts(id, change) => CountFrozen(s, id, change, NO_ACQUIRE, j);
    case Stores(id, sub, val, drop, read, write) => StoreFrozen(s, id, sub, val, drop, read, write, j);
    case References(id, at, w) => ReferenceFrozen(s, id, at, w, j);
    case Retrieves(id, sub, decr, read, write) => RetrieveFrozen(s, id, sub, decr, read, write, j);
    case Reserves(_, _) =>
    case Creates(_, _, _, _, _, _) =>
    case Subscribes(_, _, _) =>
    case _ => QueueStepFrozen(s, op, j);
  }

  /**
    Over every run a datum once closed stays closed while it lives; its content
    stays as it was unless members are reserved in it.
   */
  lemma {:induction false} ClosedLasts(ops: seq<Op>, n: nat, m: nat, id: int)
    requires n <= m <= |ops| && Lives(ops, n, m, id) && After(ops[..n]).value.tds[id].write == 0
    ensures After(ops[..m]).value.tds[id].write == 0
    ensures (forall i :: n <= i < m ==> !(ops[i].Reserves? && ops[i].id == id)) ==>
              ContentOf(After(ops[..m]).value.tds[id].value) == ContentOf(After(ops[..n]).value.tds[id].value)
    decreases m
  {
    hide Inv, Step, Admissible, ContentOf;
    if n < m {
      ClosedLasts(ops, n, m - 1, id);
      assert ops[..m][..m - 1] == ops[..m - 1];
      assert After(ops[..m]).Some? && After(ops[..m - 1]).Some?;
      RunBalances(ops[..m - 1], 0, Read);
      StepFrozen(After(ops[..m - 1]).value, ops[m - 1], id);
    }
  }
}
