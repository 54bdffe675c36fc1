/**
  Runs of the store's own steps: what a server may do when it works notifications
  off, when that leaves the clients' holdings exactly as they were, and when none
  of it can be refused.
 */
module WorkedOff {
  import opened Options
  import opened Refcount
  import opened Values
  import opened Sums
  import opened DataStore
  import opened StoreOps
  import opened ClientOps
  import opened Cascade
  import opened StoreRuns

  // A step that is called for: changes for data kept here are made here, in the
  // order they are listed, other changes are sent, and so with references.
  // Unless everything is to be worked off, only changes to be made beforehand are
  // sent, and no reference is.
  predicate Due(s: State, op: Op, local: int -> bool, all: bool) {
    match op
    case AppliesChange(i) =>
      && i < |s.refcs| && s.refcs[i].rc != NO_REFC && local(s.refcs[i].id)
      && forall j :: 0 <= j < i && local(s.refcs[j].id) ==> s.refcs[j].rc == NO_REFC
    case SendsChange(i) =>
      i < |s.refcs| && s.refcs[i].rc != NO_REFC && !local(s.refcs[i].id) && (all || s.refcs[i].preacquire)
    case CompactsChanges => true
    case SetsRef(i) => i < |s.refs| && local(s.refs[i].id)
    case SetsFirstRef => s.refs != [] && local(s.refs[0].id)
    case ForwardsFirstRef => all && s.refs != [] && !local(s.refs[0].id)
    case _ => false
  }

  // A run of due steps, of which only the last may be refused.
  ghost predicate WorkRun(s: State, ops: seq<Op>, local: int -> bool, all: bool) {
    forall n :: 0 <= n < |ops| ==> RunFrom(s, ops[..n]).Some? && Due(RunFrom(s, ops[..n]).value, ops[n], local, all)
  }

  lemma NoWork(s: State, local: int -> bool, all: bool)
    ensures WorkRun(s, [], local, all) && RunFrom(s, []) == Some(s)
  {
  }

  lemma WorkSnoc(s: State, ops: seq<Op>, op: Op, local: int -> bool, all: bool)
    requires WorkRun(s, ops, local, all) && RunFrom(s, ops).Some? && Due(RunFrom(s, ops).value, op, local, all)
    ensures WorkRun(s, ops + [op], local, all)
    ensures RunFrom(s, ops + [op]) == Step(RunFrom(s, ops).value, op)
  {
    hide Due, Step, RunFrom;
    var more := ops + [op];
    RunSnoc(s, ops, op);
    assert Admissible(RunFrom(s, ops).value, op) by {
      DueIsAdmissible(RunFrom(s, ops).value, op, local, all);
    }
    forall n | 0 <= n < |more|
      ensures RunFrom(s, more[..n]).Some? && Due(RunFrom(s, more[..n]).value, more[n], local, all)
    {
      assert more[..n] == ops[..n];
      assert n == |ops| ==> ops[..n] == ops;
    }
  }

  lemma WorkFront(s: State, ops: seq<Op>, local: int -> bool, all: bool)
    requires WorkRun(s, ops, local, all) && ops != []
    ensures var front := ops[..|ops| - 1];
            && WorkRun(s, front, local, all) && RunFrom(s, front).Some?
            && Due(RunFrom(s, front).value, ops[|ops| - 1], local, all)
  {
    hide Due, RunFrom;
    var front := ops[..|ops| - 1];
    forall n | 0 <= n < |front|
      ensures RunFrom(s, front[..n]).Some? && Due(RunFrom(s, front[..n]).value, front[n], local, all)
    {
      assert front[..n] == ops[..n] && front[n] == ops[n];
    }
  }

  lemma DueIsAdmissible(s: State, op: Op, local: int -> bool, all: bool)
    requires Due(s, op, local, all)
    ensures Admissible(s, op) && Internal(op)
  {
  }

  lemma {:induction false} WorkAppend(s: State, a: seq<Op>, b: seq<Op>, local: int -> bool, all: bool)
    requires WorkRun(s, a, local, all) && RunFrom(s, a).Some? && WorkRun(RunFrom(s, a).value, b, local, all)
    ensures WorkRun(s, a + b, local, all)
    ensures RunFrom(s, a + b) == RunFrom(RunFrom(s, a).value, b)
    decreases |b|
  {
    hide Due, Step;
    if b == [] {
      assert a + b == a;
    } else {
      var front, op, m := b[..|b| - 1], b[|b| - 1], RunFrom(s, a).value;
      WorkFront(m, b, local, all);
      WorkAppend(s, a, front, local, all);
      WorkSnoc(s, a + front, op, local, all);
      assert a + b == a + front + [op];
      DueIsAdmissible(RunFrom(m, front).value, op, local, all);
    }
  }

  // ---- When nothing drifts ----------------------------------------------------

  function RootIn(ws: seq<CRef>, x: int): nat {
    if ws == [] then 0 else (if ws[0].sub.None? && ws[0].id == x then 1 else 0) + RootIn(ws[1..], x)
  }

  function RootRefs(refs: seq<RefSet>, x: int): nat {
    if refs == [] then 0 else (if refs[0].sub.None? && refs[0].id == x then 1 else 0) + RootRefs(refs[1..], x)
  }

  function RootMap(crefs: map<Key, seq<CRef>>, x: int): (m: map<Key, int>)
    ensures forall q :: q in m ==> m[q] >= 0
  {
    map q | q in crefs :: RootIn(crefs[q], x)
  }

  // How many values, on their way or waited for, are to go to the root of datum x.
  ghost function RootDemand(s: State, x: int): int {
    SumValues(RootMap(s.crefs, x)) + RootRefs(s.refs, x)
  }

  predicate OneWrite(ws: seq<CRef>, local: int -> bool) {
    forall i :: 0 <= i < |ws| ==> local(ws[i].id) || ws[i].writeDecr == 1
  }

  predicate OneWriteRefs(refs: seq<RefSet>, local: int -> bool) {
    forall i :: 0 <= i < |refs| ==> local(refs[i].id) || refs[i].writeDecr == 1
  }

  // Targets on other servers come with one write count each.
  ghost predicate WritesOk(s: State, local: int -> bool) {
    OneWriteRefs(s.refs, local) && forall q :: q in s.crefs ==> OneWrite(s.crefs[q], local)
  }

  // No two values are to go to the root of the same datum, and none to one that is set.
  ghost predicate RootsOk(s: State) {
    forall x :: RootDemand(s, x) <= 1 && (RootDemand(s, x) == 1 && x in s.tds ==> s.tds[x].value.None?)
  }

  /** Everything on its way is a scalar or reference, for an unset place, bringing what is due. */
  ghost predicate Tidy(s: State, local: int -> bool) {
    KeysOk(s) && LeafRefs(s.refs) && RootsOk(s) && WritesOk(s, local)
  }

  lemma {:induction false} RootRefsAppend(a: seq<RefSet>, b: seq<RefSet>, x: int)
    ensures RootRefs(a + b, x) == RootRefs(a, x) + RootRefs(b, x)
  {
    if a == [] {
      assert a + b == b;
    } else {
      assert (a + b)[1..] == a[1..] + b;
      RootRefsAppend(a[1..], b, x);
    }
  }

  lemma {:induction false} RootsOfDrained(ws: seq<CRef>, val: Value, x: int)
    ensures RootRefs(RefSetsFor(ws, val), x) == RootIn(ws, x)
  {
    if ws != [] {
      assert RefSetsFor(ws, val)[1..] == RefSetsFor(ws[1..], val);
      RootsOfDrained(ws[1..], val, x);
    }
  }

  lemma RootMapRemove(crefs: map<Key, seq<CRef>>, key: Key, x: int)
    requires key in crefs
    ensures SumValues(RootMap(crefs - {key}, x)) == SumValues(RootMap(crefs, x)) - RootIn(crefs[key], x)
  {
    assert RootMap(crefs - {key}, x) == RootMap(crefs, x) - {key};
    SumRemove(RootMap(crefs, x), key);
  }

  // Serving waiters moves what is demanded from one list to the other.
  lemma DrainLists(s: State, id: int, sub: string, val: Value, x: int, local: int -> bool)
    requires Valid(s) && id in s.tds && s.tds[id].write > 0 && Drain(s, id, sub, val).Some?
    ensures RootDemand(Drain(s, id, sub, val).value, x) == RootDemand(s, x)
    ensures WritesOk(s, local) ==> WritesOk(Drain(s, id, sub, val).value, local)
  {
    DrainFrame(s, id, sub, val);
    DrainServesAll(s, id, sub, val);
    hide Drain, Valid, ContentOf, RootMap, RootRefs;
    if (id, sub) in s.crefs {
      var ws := s.crefs[(id, sub)];
      RootMapRemove(s.crefs, (id, sub), x);
      RootRefsAppend(s.refs, RefSetsFor(ws, val), x);
      RootsOfDrained(ws, val, x);
      if WritesOk(s, local) {
        assert OneWrite(ws, local);
        assert OneWriteRefs(RefSetsFor(ws, val), local);
      }
    } else {
      assert s.crefs - {(id, sub)} == s.crefs;
      assert s.refs + [] == s.refs;
    }
  }

  lemma {:induction false} DrainAllLists(s: State, id: int, items: seq<(string, Value)>, x: int, local: int -> bool)
    requires Valid(s) && id in s.tds && s.tds[id].write > 0 && DrainAll(s, id, items).Some?
    ensures RootDemand(DrainAll(s, id, items).value, x) == RootDemand(s, x)
    ensures WritesOk(s, local) ==> WritesOk(DrainAll(s, id, items).value, local)
    decreases |items|
  {
    hide Drain, Valid, ContentOf, RootDemand, WritesOk;
    if items != [] {
      DrainServed(s, id, items[0].0, items[0].1);
      DrainLists(s, id, items[0].0, items[0].1, x, local);
      DrainAllLists(Drain(s, id, items[0].0, items[0].1).value, id, items[1..], x, local);
    }
  }

  lemma SameLedgerLists(s: State, s': State, x: int, local: int -> bool)
    requires s'.crefs == s.crefs && s'.refs == s.refs
    ensures RootDemand(s', x) == RootDemand(s, x)
    ensures WritesOk(s', local) <==> WritesOk(s, local)
  {
  }

  lemma SetRefLists(s: State, r: RefSet, x: int, local: int -> bool)
    requires Valid(s) && SetRef(s, r).Done?
    ensures RootDemand(SetRef(s, r).state, x) == RootDemand(s, x)
    ensures WritesOk(s, local) ==> WritesOk(SetRef(s, r).state, local)
  {
    hide Assign, DrainAll, Items, RefcIncr, Store, Valid, ContentOf, RootDemand, WritesOk;
    var drop := Refc(0, r.writeDecr);
    var s1, s2 := StoreSteps(s, r.id, r.sub, r.value, drop, r.read, r.write);
    AssignFrame(s, r.id, r.sub, r.value, r.read, r.write);
    AssignValid(s, r.id, r.sub, r.value, r.read, r.write);
    SameLedgerLists(s, s1, x, local);
    DrainAllLists(s1, r.id, Items(s, r.id, r.sub, r.value, r.read, r.write), x, local);
    if drop != NO_REFC {
      RefcIncrFrame(s2, r.id, Refc(-drop.r, -drop.w), NO_ACQUIRE);
      SameLedgerLists(s2, SetRef(s, r).state, x, local);
    }
  }

  // Which data are unset, after a reference has been set.
  lemma SetRefUnset(s: State, r: RefSet, x: int)
    requires Valid(s) && SetRef(s, r).Done?
    requires x in SetRef(s, r).state.tds && (r.sub.Some? || x != r.id)
    ensures x in s.tds && (s.tds[x].value.None? ==> SetRef(s, r).state.tds[x].value.None?)
  {
    var drop := Refc(0, r.writeDecr);
    var s' := SetRef(s, r).state;
    var s1, s2 := StoreSteps(s, r.id, r.sub, r.value, drop, r.read, r.write);
    AssignFrame(s, r.id, r.sub, r.value, r.read, r.write);
    AssignValid(s, r.id, r.sub, r.value, r.read, r.write);
    if r.sub.Some? {
      SubscriptNeedsValue(s, r);
    }
    hide Assign, DrainAll, Items, RefcIncr, Store, Valid, ContentOf;
    DrainAllServed(s1, r.id, Items(s, r.id, r.sub, r.value, r.read, r.write));
    if drop != NO_REFC {
      RefcIncrFrame(s2, r.id, Refc(-drop.r, -drop.w), NO_ACQUIRE);
      if x != r.id {
        SameElsewhere(s2, s', r.id, x);
      }
    }
    if x != r.id {
      SameElsewhere(s1, s2, r.id, x);
    }
  }

  lemma SubscriptNeedsValue(s: State, r: RefSet)
    requires r.sub.Some? && SetRef(s, r).Done?
    ensures r.id in s.tds && s.tds[r.id].value.Some?
  {
    hide StoreAt, DrainAll, Items, RefcIncr, Stamp;
  }

  lemma SetRefKeys(s: State, r: RefSet)
    requires Valid(s) && KeysOk(s) && !r.value.Compound? && SetRef(s, r).Done?
    ensures KeysOk(SetRef(s, r).state)
  {
    hide Assign, DrainAll, Items, RefcIncr, Store, Valid, KeysOk, FreshKeys;
    var drop := Refc(0, r.writeDecr);
    var s1, s2 := StoreSteps(s, r.id, r.sub, r.value, drop, r.read, r.write);
    LeafWellKeyed(r.value);
    LeafIsFresh(s, r);
    AssignKeys(s, r.id, r.sub, r.value, r.read, r.write);
    AssignValid(s, r.id, r.sub, r.value, r.read, r.write);
    OpenAfterAssign(s, r.id, r.sub, r.value, r.read, r.write);
    DrainAllServed(s1, r.id, Items(s, r.id, r.sub, r.value, r.read, r.write));
    ServedKeys(s1, s2, r.id);
    if drop != NO_REFC {
      RefcIncrKeys(s2, r.id, Refc(-drop.r, -drop.w), NO_ACQUIRE);
    }
  }

  lemma LeafIsFresh(s: State, r: RefSet)
    requires !r.value.Compound?
    ensures FreshKeys(s, r.id, r.sub, r.value)
  {
  }

  lemma ServedKeys(s: State, s': State, id: int)
    requires KeysOk(s) && Served(s, s', id)
    ensures KeysOk(s')
  {
    hide Valid, WellKeyed, ContentOf;
    forall j | j in s'.tds && s'.tds[j].value.Some?
      ensures WellKeyed(s'.tds[j].value.value)
    {
      if j == id {
        SameContentSome(s.tds[id].value, s'.tds[id].value);
        SameContentWellKeyed(s.tds[id].value.value, s'.tds[id].value.value);
      } else {
        SameElsewhere(s, s', id, j);
      }
    }
  }

  // Setting the reference r keeps the rest tidy, where s is the state without it.
  lemma SetRefTidy(s: State, r: RefSet, local: int -> bool)
    requires Valid(s) && SetRef(s, r).Done? && !r.value.Compound?
    requires KeysOk(s) && LeafRefs(s.refs) && WritesOk(s, local)
    requires forall x :: RootDemand(s, x) + (if r.sub.None? && r.id == x then 1 else 0) <= 1
    requires forall x :: RootDemand(s, x) == 1 && x in s.tds ==> s.tds[x].value.None?
    ensures Tidy(SetRef(s, r).state, local)
  {
    hide Valid, KeysOk, LeafRefs, WritesOk, RootDemand, Store;
    SetRefKeys(s, r);
    StoreLeafRefs(s, r.id, r.sub, r.value, Refc(0, r.writeDecr), r.read, r.write);
    var s' := SetRef(s, r).state;
    SetRefLists(s, r, 0, local);
    forall x
      ensures RootDemand(s', x) <= 1 && (RootDemand(s', x) == 1 && x in s'.tds ==> s'.tds[x].value.None?)
    {
      SetRefLists(s, r, x, local);
      if RootDemand(s', x) == 1 && x in s'.tds {
        SetRefUnset(s, r, x);
      }
    }
  }

  // A tidy state without its first value, and without value i.
  lemma WithoutFirstTidy(s: State, local: int -> bool)
    requires Tidy(s, local) && s.refs != []
    ensures var s0, r := WithoutFirst(s), s.refs[0];
            && KeysOk(s0) && LeafRefs(s0.refs) && WritesOk(s0, local) && !r.value.Compound?
            && (local(r.id) || r.writeDecr == 1)
            && (forall x :: RootDemand(s0, x) + (if r.sub.None? && r.id == x then 1 else 0) == RootDemand(s, x))
  {
    hide WellKeyed;
  }

  lemma {:induction false} RootRefsUpdate(refs: seq<RefSet>, i: nat, r: RefSet, x: int)
    requires i < |refs|
    ensures RootRefs(refs[i := r], x) == RootRefs(refs, x) - RootRefs([refs[i]], x) + RootRefs([r], x)
  {
    assert refs == refs[..i] + [refs[i]] + refs[i + 1..];
    assert refs[i := r] == refs[..i] + [r] + refs[i + 1..];
    RootRefsAppend(refs[..i] + [refs[i]], refs[i + 1..], x);
    RootRefsAppend(refs[..i] + [r], refs[i + 1..], x);
    RootRefsAppend(refs[..i], [refs[i]], x);
    RootRefsAppend(refs[..i], [r], x);
  }

  lemma RootRefsTakenOff(refs: seq<RefSet>, i: nat, x: int)
    requires i < |refs|
    ensures RootRefs(TakenOff(refs, i), x) == RootRefs(refs, x) - RootRefs([refs[i]], x)
  {
    hide RootRefs;
    var n := |refs| - 1;
    var moved := refs[i := refs[n]];
    RootRefsUpdate(refs, i, refs[n], x);
    assert moved == moved[..n] + [refs[n]];
    RootRefsAppend(moved[..n], [refs[n]], x);
  }

  lemma RootRefsOne(r: RefSet, x: int)
    ensures RootRefs([r], x) == if r.sub.None? && r.id == x then 1 else 0
  {
    assert [r][1..] == [];
  }

  // Setting value i in place and then taking it off, against taking it off first.
  lemma RefTakenTidy(s: State, i: nat, local: int -> bool)
    requires Valid(s) && Tidy(s, local) && RefTaken(s, i).Some?
    ensures Tidy(RefTaken(s, i).value, local)
  {
    hide Valid, Store;
    var r, s1 := s.refs[i], SetRef(s, s.refs[i]).state;
    var s' := RefTaken(s, i).value;
    StoreDemand(s, r.id, r.sub, r.value, Refc(0, r.writeDecr), r.read, r.write);
    SetRefKeys(s, r);
    StoreLeafRefs(s, r.id, r.sub, r.value, Refc(0, r.writeDecr), r.read, r.write);
    SetRefLists(s, r, 0, local);
    hide WellKeyed, RootMap, RootRefs;
    assert s1.refs[i] == r;
    TakenOffWrites(s1.refs, i, local);
    forall x
      ensures RootDemand(s', x) <= 1 && (RootDemand(s', x) == 1 && x in s'.tds ==> s'.tds[x].value.None?)
    {
      SetRefLists(s, r, x, local);
      RootRefsTakenOff(s1.refs, i, x);
      RootRefsOne(r, x);
      if RootDemand(s', x) == 1 && x in s'.tds {
        SetRefUnset(s, r, x);
      }
    }
  }

  lemma TakenOffWrites(refs: seq<RefSet>, i: nat, local: int -> bool)
    requires i < |refs|
    ensures OneWriteRefs(refs, local) ==> OneWriteRefs(TakenOff(refs, i), local)
    ensures LeafRefs(refs) ==> LeafRefs(TakenOff(refs, i))
  {
  }

  lemma AppliedTidy(s: State, i: nat, local: int -> bool)
    requires Tidy(s, local) && ChangeApplied(s, i).Some?
    ensures Tidy(ChangeApplied(s, i).value, local)
  {
    var c, s' := s.refcs[i], ChangeApplied(s, i).value;
    var s1 := RefcIncr(s, c.id, c.rc, NO_ACQUIRE).value;
    RefcIncrFrame(s, c.id, c.rc, NO_ACQUIRE);
    RefcIncrKeys(s, c.id, c.rc, NO_ACQUIRE);
    if c.id in s1.tds {
      RefcIncrKeepsContent(s, c.id, c.rc, NO_ACQUIRE);
    }
    hide RefcIncr, WellKeyed, RootMap, RootRefs, LeafRefs, WritesOk;
    SameLedgerLists(s, s', 0, local);
    forall x
      ensures RootDemand(s', x) <= 1 && (RootDemand(s', x) == 1 && x in s'.tds ==> s'.tds[x].value.None?)
    {
      SameLedgerLists(s, s', x, local);
      if x != c.id {
        SameElsewhere(s, s', c.id, x);
      }
    }
  }

  lemma ListsTidy(s: State, s': State, local: int -> bool)
    requires Tidy(s, local) && s'.tds == s.tds && s'.crefs == s.crefs && s'.refs == s.refs
    ensures Tidy(s', local)
  {
    hide RootMap, RootRefs, LeafRefs, WritesOk, WellKeyed;
    SameLedgerLists(s, s', 0, local);
    forall x
      ensures RootDemand(s', x) == RootDemand(s, x)
    {
      SameLedgerLists(s, s', x, local);
    }
  }

  lemma FrontSetTidy(s: State, local: int -> bool)
    requires Valid(s) && Tidy(s, local) && FrontSet(s).Some?
    ensures Tidy(FrontSet(s).value, local)
  {
    WithoutFirstTidy(s, local);
    assert Valid(WithoutFirst(s));
    hide Valid, KeysOk, LeafRefs, WritesOk, RootDemand, Store;
    SetRefTidy(WithoutFirst(s), s.refs[0], local);
  }

  lemma FrontForwardedTidy(s: State, local: int -> bool)
    requires Tidy(s, local) && FrontForwarded(s).Some?
    ensures Tidy(FrontForwarded(s).value, local)
  {
    WithoutFirstTidy(s, local);
    hide KeysOk, LeafRefs, WritesOk, RootMap, RootRefs;
    var s0, s' := WithoutFirst(s), FrontForwarded(s).value;
    SameLedgerLists(s0, s', 0, local);
    assert KeysOk(s') by { SameKeys(s0, s'); }
    forall x
      ensures RootDemand(s', x) <= 1 && (RootDemand(s', x) == 1 && x in s'.tds ==> s'.tds[x].value.None?)
    {
      SameLedgerLists(s0, s', x, local);
      assert RootDemand(s, x) <= 1;
    }
  }

  lemma SameKeys(s: State, s': State)
    requires KeysOk(s) && s'.tds == s.tds
    ensures KeysOk(s')
  {
  }

  // The value a due step sets or forwards drifts by nothing if the state is tidy.
  lemma TidyStepIsExact(s: State, op: Op, local: int -> bool, all: bool, x: int, k: Access)
    requires Inv(s) && Tidy(s, local) && Due(s, op, local, all) && Step(s, op).Some?
    ensures HandedOver(s, op, x, k) == 0
  {
    hide Step, Drift, WaitersOk, RootMap, WellKeyed;
    match op
    case SetsRef(i) =>
      RootDemandAtLeast(s, i);
      NoDrift(s, s.refs[i], x, k);
    case SetsFirstRef =>
      RootDemandAtLeast(s, 0);
      assert Valid(WithoutFirst(s)) && KeysOk(WithoutFirst(s));
      NoDrift(WithoutFirst(s), s.refs[0], x, k);
    case _ =>
  }

  lemma {:induction false} RootRefsAtLeast(refs: seq<RefSet>, i: nat)
    requires i < |refs| && refs[i].sub.None?
    ensures RootRefs(refs, refs[i].id) >= 1
  {
    if i > 0 {
      RootRefsAtLeast(refs[1..], i - 1);
    }
  }

  lemma RootDemandAtLeast(s: State, i: nat)
    requires i < |s.refs|
    ensures s.refs[i].sub.None? ==> RootDemand(s, s.refs[i].id) >= 1
  {
    hide RootRefs;
    if s.refs[i].sub.None? {
      RootRefsAtLeast(s.refs, i);
      SumNonNegative(RootMap(s.crefs, s.refs[i].id));
    }
  }

  lemma TidyStepKeeps(s: State, op: Op, local: int -> bool, all: bool)
    requires Inv(s) && Tidy(s, local) && Due(s, op, local, all) && Step(s, op).Some?
    ensures Tidy(Step(s, op).value, local)
  {
    InvValid(s);
    hide Inv, Tidy, Valid, ChangeApplied, RefTaken, FrontSet, FrontForwarded, Nonzero;
    match op
    case AppliesChange(i) => AppliedTidy(s, i, local);
    case SetsRef(i) => RefTakenTidy(s, i, local);
    case SetsFirstRef => FrontSetTidy(s, local);
    case ForwardsFirstRef => FrontForwardedTidy(s, local);
    case SendsChange(_) => ListsTidy(s, Step(s, op).value, local);
    case CompactsChanges => ListsTidy(s, Step(s, op).value, local);
    case _ =>
  }

  /** From a tidy state no work moves what the clients own, and what is left is tidy. */
  lemma {:induction false} TidyWorkIsExact(s: State, ops: seq<Op>, local: int -> bool, all: bool, x: int, k: Access)
    requires Inv(s) && Tidy(s, local) && WorkRun(s, ops, local, all) && RunFrom(s, ops).Some?
    ensures Inv(RunFrom(s, ops).value) && Tidy(RunFrom(s, ops).value, local)
    ensures Clients(RunFrom(s, ops).value, x, k) == Clients(s, x, k)
    decreases |ops|
  {
    hide Inv, Tidy, Due, Step, HandedOver, Clients;
    if ops != [] {
      var front, op := ops[..|ops| - 1], ops[|ops| - 1];
      WorkFront(s, ops, local, all);
      TidyWorkIsExact(s, front, local, all, x, k);
      var t := RunFrom(s, front).value;
      DueIsAdmissible(t, op, local, all);
      TidyStepIsExact(t, op, local, all, x, k);
      TidyStepKeeps(t, op, local, all);
      StepKeeps(t, op);
      StepBalances(t, op, x, k);
    }
  }

  lemma {:induction false} WorkAcceptsNone(s: State, ops: seq<Op>, local: int -> bool, all: bool, id: int, sub: Option<string>, l: Listener)
    requires WorkRun(s, ops, local, all) && RunFrom(s, ops).Some?
    ensures AcceptedFrom(s, ops, id, sub, l) == 0
    decreases |ops|
  {
    hide Step, Due;
    if ops != [] {
      WorkFront(s, ops, local, all);
      var front := ops[..|ops| - 1];
      WorkAcceptsNone(s, front, local, all, id, sub, l);
      DueIsAdmissible(RunFrom(s, front).value, ops[|ops| - 1], local, all);
    }
  }

  /** Work keeps the store consistent and neither loses nor repeats a notification. */
  lemma WorkKeeps(s: State, ops: seq<Op>, local: int -> bool, all: bool)
    requires Inv(s) && WorkRun(s, ops, local, all) && RunFrom(s, ops).Some?
    ensures Inv(RunFrom(s, ops).value)
    ensures forall x: int, k: Access ::
              Clients(RunFrom(s, ops).value, x, k) == Clients(s, x, k) + HandedOverFrom(s, ops, x, k)
    ensures forall id: int, sub: Option<string>, l: Listener ::
              Outstanding(RunFrom(s, ops).value, id, sub, l) == Outstanding(s, id, sub, l)
    ensures Tidy(s, local) ==> Tidy(RunFrom(s, ops).value, local)
    ensures Tidy(s, local) ==> forall x: int, k: Access :: Clients(RunFrom(s, ops).value, x, k) == Clients(s, x, k)
  {
    hide Inv, RunFrom, HandedOverFrom, AcceptedFrom, Clients, Outstanding, Tidy, WorkRun;
    forall x: int, k: Access
      ensures Inv(RunFrom(s, ops).value)
      ensures Clients(RunFrom(s, ops).value, x, k) == Clients(s, x, k) + HandedOverFrom(s, ops, x, k)
      ensures Tidy(s, local) ==> Tidy(RunFrom(s, ops).value, local) && Clients(RunFrom(s, ops).value, x, k) == Clients(s, x, k)
    {
      RunFromBalances(s, ops, x, k);
      if Tidy(s, local) {
        TidyWorkIsExact(s, ops, local, all, x, k);
      }
    }
    RunFromBalances(s, ops, 0, Read);
    if Tidy(s, local) {
      TidyWorkIsExact(s, ops, local, all, 0, Read);
    }
    forall id: int, sub: Option<string>, l: Listener
      ensures Outstanding(RunFrom(s, ops).value, id, sub, l) == Outstanding(s, id, sub, l)
    {
      RunFromNotifies(s, ops, id, sub, l);
      WorkAcceptsNone(s, ops, local, all, id, sub, l);
    }
  }

  // ---- When nothing is refused -----------------------------------------------------

  // No client has dropped counts of data kept here that it did not own.
  ghost predicate Solvent(s: State, local: int -> bool) {
    forall x: int, k: Access :: local(x) ==> Clients(s, x, k) >= 0
  }

  predicate Adds(c: Change) {
    c.rc.r > 0 || c.rc.w > 0
  }

  predicate Takes(c: Change) {
    c.rc.r < 0 || c.rc.w < 0
  }

  // Counts are added only where there are some.
  predicate Backed(tds: map<int, Datum>, c: Change) {
    (c.rc.r > 0 ==> Count(tds, c.id, Read) > 0) && (c.rc.w > 0 ==> Count(tds, c.id, Write) > 0)
  }

  // Of the changes to a datum kept here, those that add are listed before those
  // that take, and none is on its way.
  ghost predicate Ordered(s: State, local: int -> bool) {
    && (forall i :: 0 <= i < |s.refcs| && local(s.refcs[i].id) ==> Backed(s.tds, s.refcs[i]))
    && (forall i, j :: 0 <= i < j < |s.refcs| && local(s.refcs[i].id) && s.refcs[i].id == s.refcs[j].id && Adds(s.refcs[j]) ==>
          !Takes(s.refcs[i]))
    && (forall i :: 0 <= i < |s.sentChanges| && local(s.sentChanges[i].id) ==> !Adds(s.sentChanges[i]))
  }

  lemma {:induction false} PendingAtMost(cs: seq<Change>, x: int, k: Access)
    requires forall i :: 0 <= i < |cs| && cs[i].id == x ==> !Adds(cs[i])
    ensures Pending(cs, x, k) <= 0
  {
    if cs != [] {
      PendingAtMost(cs[1..], x, k);
    }
  }

  lemma {:induction false} PendingStruck(cs: seq<Change>, x: int, k: Access)
    requires forall i :: 0 <= i < |cs| && cs[i].id == x ==> cs[i].rc == NO_REFC
    ensures Pending(cs, x, k) == 0
  {
    if cs != [] {
      PendingStruck(cs[1..], x, k);
    }
  }

  // The first change still to be made to a datum, if none after it adds.
  lemma PendingFirst(cs: seq<Change>, i: nat, k: Access)
    requires i < |cs| && forall j :: 0 <= j < i && cs[j].id == cs[i].id ==> cs[j].rc == NO_REFC
    requires forall j :: i < j < |cs| && cs[j].id == cs[i].id ==> !Adds(cs[j])
    ensures Pending(cs, cs[i].id, k) <= cs[i].rc.Of(k)
  {
    hide Pending;
    var x := cs[i].id;
    assert cs == cs[..i] + [cs[i]] + cs[i + 1..];
    PendingAppend(cs[..i] + [cs[i]], cs[i + 1..], x, k);
    PendingAppend(cs[..i], [cs[i]], x, k);
    PendingOne(cs[i], x, k);
    PendingStruck(cs[..i], x, k);
    PendingAtMost(cs[i + 1..], x, k);
  }

  lemma {:induction false} InFlightAtLeast(refs: seq<RefSet>, x: int, k: Access)
    ensures InFlight(refs, x, k) >= 0
    ensures forall i :: 0 <= i < |refs| && refs[i].id == x && k.Write? ==> InFlight(refs, x, k) >= refs[i].writeDecr
  {
    hide Refs;
    if refs != [] {
      InFlightAtLeast(refs[1..], x, k);
      var n := Refc(refs[0].read, refs[0].write).Of(k);
      assert n * Refs(refs[0].value, x) >= 0;
      assert forall i :: 0 < i < |refs| ==> refs[i] == refs[1..][i - 1];
    }
  }

  lemma CellsNonNegative(s: State, x: int, k: Access)
    ensures Cells(s.tds, x, k) >= 0 && Waiting(s.crefs, x, k) >= 0
  {
    assert forall j :: j in s.tds ==> DatumHeld(s.tds[j], x, k) >= 0;
    SumNonNegative(CellMap(s.tds, x, k));
    assert forall q :: q in s.crefs ==> WaitFor(q, s.crefs[q], x, k) >= 0;
    SumNonNegative(WaitMap(s.crefs, x, k));
  }

  // What a datum has, with the changes listed to it, covers all its owners.
  lemma CountCovers(s: State, local: int -> bool, x: int, k: Access)
    requires Solvent(s, local) && Ordered(s, local) && local(x)
    ensures Cells(s.tds, x, k) >= 0
    ensures Count(s.tds, x, k) + Pending(s.refcs, x, k) >= Cells(s.tds, x, k) + InFlight(s.refs, x, k)
  {
    assert Clients(s, x, k) >= 0;
    hide Cells, Waiting, InFlight, Pending, Count, Solvent, Backed;
    PendingAtMost(s.sentChanges, x, k);
    InFlightAtLeast(s.sentStores, x, k);
    CellsNonNegative(s, x, k);
  }

  /** No cell owns a count of a datum kept here that is gone. */
  lemma NothingDangles(s: State, local: int -> bool, x: int, k: Access)
    requires Solvent(s, local) && Ordered(s, local) && local(x) && x !in s.tds
    ensures Cells(s.tds, x, k) == 0
  {
    hide Clients, Cells, Solvent, InFlight, Pending;
    CountCovers(s, local, x, k);
    PendingAtMost(s.refcs, x, k);
    InFlightAtLeast(s.refs, x, k);
  }

  // The datum has the counts that its next listed change takes.
  lemma NextChangeAllowed(s: State, local: int -> bool, i: nat)
    requires Valid(s) && Solvent(s, local) && Ordered(s, local) && Due(s, AppliesChange(i), local, true)
    ensures s.refcs[i].id in s.tds && CountsAllow(s.tds[s.refcs[i].id], s.refcs[i].rc)
  {
    var c := s.refcs[i];
    assert c.rc.Of(Read) == c.rc.r && c.rc.Of(Write) == c.rc.w;
    hide Clients, Cells, Solvent, InFlight, Pending;
    if Takes(c) {
      CountCovers(s, local, c.id, Read);
      CountCovers(s, local, c.id, Write);
      PendingFirst(s.refcs, i, Read);
      PendingFirst(s.refcs, i, Write);
      InFlightAtLeast(s.refs, c.id, Read);
      InFlightAtLeast(s.refs, c.id, Write);
    }
    assert Backed(s.tds, c);
    if c.id in s.tds {
      assert DatumOk(s.tds[c.id]);
    }
  }

  // What an allowed change lists takes counts away.
  lemma AllowedOnlyTakes(s: State, id: int, change: Refc)
    requires Valid(s) && id in s.tds && CountsAllow(s.tds[id], change)
    ensures RefcIncr(s, id, change, NO_ACQUIRE).Some?
    ensures s.refcs <= RefcIncr(s, id, change, NO_ACQUIRE).value.refcs
    ensures OnlyTakes(RefcIncr(s, id, change, NO_ACQUIRE).value.refcs[|s.refcs|..])
  {
    hide Cleanup, NotifsFor;
    var d := s.tds[id];
    assert DatumOk(d);
    if d.value.Some? {
      ReleaseOnlyTakes(d.value.value, true, true);
      ReleaseOnlyTakes(d.value.value, false, true);
      ReleaseOnlyTakes(d.value.value, false, false);
    }
  }

  // Counts after a change of those of one datum.
  lemma CountsAfter(s: State, id: int, change: Refc, y: int)
    requires RefcIncr(s, id, change, NO_ACQUIRE).Some?
    ensures var s' := RefcIncr(s, id, change, NO_ACQUIRE).value;
            && Count(s'.tds, y, Read) == Count(s.tds, y, Read) + (if y == id then change.r else 0)
            && Count(s'.tds, y, Write) == Count(s.tds, y, Write) + (if y == id then change.w else 0)
  {
    var s' := RefcIncr(s, id, change, NO_ACQUIRE).value;
    RefcIncrFrame(s, id, change, NO_ACQUIRE);
    if y != id {
      SameElsewhere(s, s', id, y);
    } else if id in s'.tds {
      RefcIncrKeepsContent(s, id, change, NO_ACQUIRE);
    }
    hide RefcIncr;
  }

  // Lists that grow at the end by changes that take stay in order, as long as
  // the counts that additions rest on stay.
  lemma StaysOrdered(s: State, s': State, local: int -> bool)
    requires Ordered(s, local) && s'.sentChanges == s.sentChanges && |s.refcs| <= |s'.refcs|
    requires forall j :: 0 <= j < |s.refcs| ==> s'.refcs[j] == s.refcs[j] || s'.refcs[j] == s.refcs[j].(rc := NO_REFC)
    requires OnlyTakes(s'.refcs[|s.refcs|..])
    requires forall j :: 0 <= j < |s.refcs| && local(s.refcs[j].id) && s'.refcs[j] == s.refcs[j] ==> Backed(s'.tds, s.refcs[j])
    ensures Ordered(s', local)
  {
    forall j | |s.refcs| <= j < |s'.refcs|
      ensures !Adds(s'.refcs[j])
    {
      assert s'.refcs[j] == s'.refcs[|s.refcs|..][j - |s.refcs|];
    }
  }

  /** The next listed change to a datum kept here is not refused. */
  lemma ChangeNotRefused(s: State, local: int -> bool, i: nat)
    requires Valid(s) && Solvent(s, local) && Ordered(s, local) && Due(s, AppliesChange(i), local, true)
    ensures ChangeApplied(s, i).Some? && Ordered(ChangeApplied(s, i).value, local)
  {
    var c := s.refcs[i];
    NextChangeAllowed(s, local, i);
    AllowedOnlyTakes(s, c.id, c.rc);
    RefcIncrFrame(s, c.id, c.rc, NO_ACQUIRE);
    hide RefcIncr, Clients, Solvent, Valid, OnlyTakes;
    var s1 := RefcIncr(s, c.id, c.rc, NO_ACQUIRE).value;
    var s' := Struck(s1, i);
    forall j | 0 <= j < |s.refcs| && local(s.refcs[j].id) && s'.refcs[j] == s.refcs[j]
      ensures Backed(s'.tds, s.refcs[j])
    {
      CountsAfter(s, c.id, c.rc, s.refcs[j].id);
      assert Backed(s.tds, s.refcs[j]);
      if s.refcs[j].id == c.id && Adds(s.refcs[j]) {
        assert j > i;
      }
    }
    assert s'.refcs[|s.refcs|..] == s1.refcs[|s.refcs|..];
    StaysOrdered(s, s', local);
  }

  // Steps on the list of changes alone.
  predicate OnChanges(op: Op) {
    op.AppliesChange? || op.SendsChange? || op.CompactsChanges?
  }

  // What is said of every two changes in order is said of those left.
  lemma {:induction false} NonzeroOrdered(cs: seq<Change>, local: int -> bool)
    requires forall i, j :: 0 <= i < j < |cs| && local(cs[i].id) && cs[i].id == cs[j].id && Adds(cs[j]) ==> !Takes(cs[i])
    ensures var ds := Nonzero(cs);
            forall i, j :: 0 <= i < j < |ds| && local(ds[i].id) && ds[i].id == ds[j].id && Adds(ds[j]) ==> !Takes(ds[i])
  {
    if cs != [] {
      var front, last := cs[..|cs| - 1], cs[|cs| - 1];
      NonzeroOrdered(front, local);
      NonzeroPending(front, 0, Read);
      var ds := Nonzero(front);
      forall i | 0 <= i < |ds| && local(ds[i].id) && ds[i].id == last.id && Adds(last)
        ensures !Takes(ds[i])
      {
        assert ds[i] in front;
        var j :| 0 <= j < |front| && front[j] == ds[i];
        assert cs[j] == ds[i];
      }
    }
  }

  lemma CompactedOrdered(s: State, local: int -> bool)
    requires Ordered(s, local)
    ensures Ordered(Compacted(s), local)
  {
    hide Nonzero, Backed;
    NonzeroOrdered(s.refcs, local);
    NonzeroPending(s.refcs, 0, Read);
    var ds := Nonzero(s.refcs);
    forall i | 0 <= i < |ds| && local(ds[i].id)
      ensures Backed(s.tds, ds[i])
    {
      assert ds[i] in s.refcs;
    }
  }

  lemma SentOrdered(s: State, local: int -> bool, i: nat, all: bool)
    requires Ordered(s, local) && Due(s, SendsChange(i), local, all)
    ensures Ordered(ChangeSent(s, i).value, local)
  {
    hide Backed;
  }

  lemma ChangeStepOrdered(s: State, op: Op, local: int -> bool, all: bool)
    requires Valid(s) && Solvent(s, local) && Ordered(s, local) && OnChanges(op) && Due(s, op, local, all)
    ensures Step(s, op).Some? && Ordered(Step(s, op).value, local)
  {
    hide Valid, Solvent, Ordered, ChangeApplied, Compacted;
    match op
    case AppliesChange(i) => ChangeNotRefused(s, local, i);
    case SendsChange(i) => SentOrdered(s, local, i, all);
    case CompactsChanges => CompactedOrdered(s, local);
    case _ =>
  }

  lemma ChangeStepSolvent(s: State, op: Op, local: int -> bool)
    requires Inv(s) && Solvent(s, local) && OnChanges(op) && Admissible(s, op) && Step(s, op).Some?
    ensures Solvent(Step(s, op).value, local)
  {
    hide Inv, Step, HandedOver, Clients;
    forall x: int, k: Access | local(x)
      ensures Clients(Step(s, op).value, x, k) >= 0
    {
      StepBalances(s, op, x, k);
      NothingHandedOver(s, op, x, k);
    }
  }

  /** With solvent clients, and counts added before any are taken, no run of changes is refused. */
  lemma {:induction false} ChangesNotRefused(s: State, ops: seq<Op>, local: int -> bool, all: bool)
    requires Inv(s) && Solvent(s, local) && Ordered(s, local) && WorkRun(s, ops, local, all)
    requires forall i :: 0 <= i < |ops| ==> OnChanges(ops[i])
    ensures RunFrom(s, ops).Some? && Inv(RunFrom(s, ops).value)
    ensures Solvent(RunFrom(s, ops).value, local) && Ordered(RunFrom(s, ops).value, local)
    decreases |ops|
  {
    hide Inv, Due, Step, Ordered, Solvent, OnChanges;
    if ops != [] {
      var front, op := ops[..|ops| - 1], ops[|ops| - 1];
      WorkFront(s, ops, local, all);
      ChangesNotRefused(s, front, local, all);
      var t := RunFrom(s, front).value;
      DueIsAdmissible(t, op, local, all);
      InvValid(t);
      ChangeStepOrdered(t, op, local, all);
      StepKeeps(t, op);
      ChangeStepSolvent(t, op, local);
    }
  }

  // Every cell of what is left names a datum that is still there.
  ghost predicate NoneDangling(s: State, local: int -> bool) {
    forall x: int, k: Access :: local(x) && x !in s.tds ==> Cells(s.tds, x, k) == 0
  }

  /** So only a change whose counts nobody owned, or made too soon, is refused; and no datum a cell names is freed. */
  lemma ChangesSettle(s: State, ops: seq<Op>, local: int -> bool, all: bool)
    requires Inv(s) && WorkRun(s, ops, local, all) && Solvent(s, local) && Ordered(s, local)
    requires forall n :: 0 <= n < |ops| ==> OnChanges(ops[n])
    ensures RunFrom(s, ops).Some? && NoneDangling(RunFrom(s, ops).value, local)
  {
    hide RunFrom, WorkRun, Inv, Solvent, Ordered, Cells;
    ChangesNotRefused(s, ops, local, all);
    forall x: int, k: Access | local(x) && x !in RunFrom(s, ops).value.tds
      ensures Cells(RunFrom(s, ops).value.tds, x, k) == 0
    {
      NothingDangles(RunFrom(s, ops).value, local, x, k);
    }
  }

  lemma NothingHandedOver(s: State, op: Op, x: int, k: Access)
    requires OnChanges(op)
    ensures HandedOver(s, op, x, k) == 0
  {
  }
}
