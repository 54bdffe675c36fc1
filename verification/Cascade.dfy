/**
  Working off notifications: reference-count changes free and close data, which
  lists further changes; values on their way are stored, which serves further
  waiters.  This module gives the measures under which both stop, and what one
  step of each does to the ledger.
 */
module Cascade {
  import opened Options
  import opened Refcount
  import opened Values
  import opened Sums
  import opened DataStore
  import opened StoreOps

  // ---- Changes use up the counters of cells ---------------------------------

  function DatumNonZero(d: Datum): nat {
    if d.value.None? then 0 else NonZero(d.value.value)
  }

  function CounterMap(tds: map<int, Datum>): (m: map<int, int>)
    ensures forall i :: i in m ==> m[i] >= 0
  {
    map i | i in tds :: DatumNonZero(tds[i])
  }

  // The nonzero counters in all cells of the store.
  ghost function Counters(tds: map<int, Datum>): (n: int)
    ensures n >= 0
  {
    SumNonNegative(CounterMap(tds));
    SumValues(CounterMap(tds))
  }

  lemma CountersUpdate(tds: map<int, Datum>, id: int, d: Datum)
    requires id in tds
    ensures Counters(tds[id := d]) == Counters(tds) - DatumNonZero(tds[id]) + DatumNonZero(d)
  {
    assert CounterMap(tds[id := d]) == CounterMap(tds)[id := DatumNonZero(d)];
    SumUpdate(CounterMap(tds), id, DatumNonZero(d));
  }

  lemma CountersRemove(tds: map<int, Datum>, id: int)
    requires id in tds
    ensures Counters(tds - {id}) == Counters(tds) - DatumNonZero(tds[id])
  {
    assert CounterMap(tds - {id}) == CounterMap(tds) - {id};
    SumRemove(CounterMap(tds), id);
  }

  /** Applying a change lists no more new changes than it empties counters. */
  lemma ChangeUsesCounters(s: State, id: int, change: Refc)
    requires RefcIncr(s, id, change, NO_ACQUIRE).Some?
    ensures var s' := RefcIncr(s, id, change, NO_ACQUIRE).value;
            |s'.refcs| + Counters(s'.tds) <= |s.refcs| + Counters(s.tds)
  {
    hide Cleanup, Counters, NonZero;
    var d, s' := s.tds[id], RefcIncr(s, id, change, NO_ACQUIRE).value;
    var release := Closes(d, change) && d.releaseWrite;
    if id !in s'.tds {
      CountersRemove(s.tds, id);
      if d.value.Some? {
        ReleaseUsesCounters(d.value.value, true, true);
      }
    } else {
      CountersUpdate(s.tds, id, s'.tds[id]);
      if release && d.value.Some? {
        ReleaseUsesCounters(d.value.value, false, true);
      }
    }
  }

  lemma {:induction false} PendingUpdate(cs: seq<Change>, i: nat, c: Change, x: int, k: Access)
    requires i < |cs|
    ensures Pending(cs[i := c], x, k) == Pending(cs, x, k) - Pending([cs[i]], x, k) + Pending([c], x, k)
  {
    assert cs == cs[..i] + [cs[i]] + cs[i + 1..];
    assert cs[i := c] == cs[..i] + [c] + cs[i + 1..];
    PendingAppend(cs[..i] + [cs[i]], cs[i + 1..], x, k);
    PendingAppend(cs[..i] + [c], cs[i + 1..], x, k);
    PendingAppend(cs[..i], [cs[i]], x, k);
    PendingAppend(cs[..i], [c], x, k);
  }

  lemma PendingOne(c: Change, x: int, k: Access)
    ensures Pending([c], x, k) == if c.id == x then c.rc.Of(k) else 0
  {
    assert [c][1..] == [];
  }

  // A change struck off the list after it has been applied, here or elsewhere.
  function Struck(s: State, i: nat): State
    requires i < |s.refcs|
  {
    s.(refcs := s.refcs[i := s.refcs[i].(rc := NO_REFC)])
  }

  lemma StruckBalances(s: State, i: nat, x: int, k: Access)
    requires i < |s.refcs|
    ensures Clients(Struck(s, i), x, k) == Clients(s, x, k) - if s.refcs[i].id == x then s.refcs[i].rc.Of(k) else 0
  {
    hide Cells, Waiting, InFlight, Pending;
    PendingUpdate(s.refcs, i, s.refcs[i].(rc := NO_REFC), x, k);
    PendingOne(s.refcs[i], x, k);
    PendingOne(s.refcs[i].(rc := NO_REFC), x, k);
  }

  /** Applying a listed change leaves the clients' holdings as they were. */
  lemma AppliedBalances(s: State, i: nat, x: int, k: Access)
    requires Valid(s) && i < |s.refcs| && RefcIncr(s, s.refcs[i].id, s.refcs[i].rc, NO_ACQUIRE).Some?
    ensures var s' := RefcIncr(s, s.refcs[i].id, s.refcs[i].rc, NO_ACQUIRE).value;
            && i < |s'.refcs| && s'.refcs[i] == s.refcs[i]
            && Clients(Struck(s', i), x, k) == Clients(s, x, k)
  {
    var c := s.refcs[i];
    RefcIncrFrame(s, c.id, c.rc, NO_ACQUIRE);
    RefcIncrBalances(s, c.id, c.rc, NO_ACQUIRE, x, k);
    hide RefcIncr, Clients, DatumRefsAt;
    StruckBalances(RefcIncr(s, c.id, c.rc, NO_ACQUIRE).value, i, x, k);
  }

  function Nonzero(cs: seq<Change>): seq<Change> {
    if cs == [] then []
    else
      var rest := Nonzero(cs[..|cs| - 1]);
      if cs[|cs| - 1].rc == NO_REFC then rest else rest + [cs[|cs| - 1]]
  }

  // Dropping struck-off changes loses nothing and keeps the rest in order.
  lemma {:induction false} NonzeroPending(cs: seq<Change>, x: int, k: Access)
    ensures Pending(Nonzero(cs), x, k) == Pending(cs, x, k)
    ensures forall c :: c in Nonzero(cs) <==> c in cs && c.rc != NO_REFC
  {
    if cs != [] {
      var front, last := cs[..|cs| - 1], cs[|cs| - 1];
      assert cs == front + [last];
      NonzeroPending(front, x, k);
      PendingAppend(front, [last], x, k);
      PendingAppend(Nonzero(front), [last], x, k);
      PendingOne(last, x, k);
    }
  }

  lemma {:induction false} NonzeroAll(cs: seq<Change>)
    requires forall i :: 0 <= i < |cs| ==> cs[i].rc != NO_REFC
    ensures Nonzero(cs) == cs
  {
    if cs != [] {
      NonzeroAll(cs[..|cs| - 1]);
    }
  }

  // ---- Stores use up waiters --------------------------------------------------

  function WaiterMap(crefs: map<Key, seq<CRef>>): (m: map<Key, int>)
    ensures forall q :: q in m ==> m[q] >= 0
  {
    map q | q in crefs :: |crefs[q]|
  }

  ghost function Waiters(crefs: map<Key, seq<CRef>>): (n: int)
    ensures n >= 0
  {
    SumNonNegative(WaiterMap(crefs));
    SumValues(WaiterMap(crefs))
  }

  // Waiters, and values already on their way to one.
  ghost function Demand(s: State): int {
    Waiters(s.crefs) + |s.refs|
  }

  lemma WaitersRemove(crefs: map<Key, seq<CRef>>, key: Key)
    requires key in crefs
    ensures Waiters(crefs - {key}) == Waiters(crefs) - |crefs[key]|
  {
    assert WaiterMap(crefs - {key}) == WaiterMap(crefs) - {key};
    SumRemove(WaiterMap(crefs), key);
  }

  lemma DrainDemand(s: State, id: int, sub: string, val: Value)
    requires Valid(s) && id in s.tds && s.tds[id].write > 0 && Drain(s, id, sub, val).Some?
    ensures Demand(Drain(s, id, sub, val).value) == Demand(s)
  {
    DrainFrame(s, id, sub, val);
    DrainServesAll(s, id, sub, val);
    hide Drain, Waiters, Valid, ContentOf;
    if (id, sub) in s.crefs {
      WaitersRemove(s.crefs, (id, sub));
    } else {
      assert s.crefs - {(id, sub)} == s.crefs;
    }
  }

  lemma {:induction false} DrainAllDemand(s: State, id: int, items: seq<(string, Value)>)
    requires Valid(s) && id in s.tds && s.tds[id].write > 0 && DrainAll(s, id, items).Some?
    ensures Demand(DrainAll(s, id, items).value) == Demand(s)
    decreases |items|
  {
    hide Drain, Demand, Valid, ContentOf;
    if items != [] {
      DrainDemand(s, id, items[0].0, items[0].1);
      DrainServed(s, id, items[0].0, items[0].1);
      DrainAllDemand(Drain(s, id, items[0].0, items[0].1).value, id, items[1..]);
    }
  }

  /** A store serves waiters but makes none: what is demanded stays the same. */
  lemma StoreDemand(s: State, id: int, sub: Option<string>, val: Value, drop: Refc, read: nat, write: nat)
    requires Valid(s) && Store(s, id, sub, val, drop, read, write).Done?
    ensures var s' := Store(s, id, sub, val, drop, read, write).state;
            Demand(s') == Demand(s) && s.refs <= s'.refs && s.refcs <= s'.refcs
  {
    hide Assign, DrainAll, Items, RefcIncr, Store, Valid, ContentOf, Waiters;
    var s1, s2 := StoreSteps(s, id, sub, val, drop, read, write);
    AssignFrame(s, id, sub, val, read, write);
    AssignValid(s, id, sub, val, read, write);
    DrainAllDemand(s1, id, Items(s, id, sub, val, read, write));
    DrainAllServed(s1, id, Items(s, id, sub, val, read, write));
    if drop != NO_REFC {
      RefcIncrFrame(s2, id, Refc(-drop.r, -drop.w), NO_ACQUIRE);
    }
  }

  // ---- Values on their way ----------------------------------------------------

  // Every value on its way is a scalar or a reference.
  predicate LeafRefs(refs: seq<RefSet>) {
    forall i :: 0 <= i < |refs| ==> !refs[i].value.Compound?
  }

  lemma {:induction false} DrainAllLeafRefs(s: State, id: int, items: seq<(string, Value)>)
    requires Valid(s) && id in s.tds && s.tds[id].write > 0 && DrainAll(s, id, items).Some?
    requires LeafRefs(s.refs) && forall i :: 0 <= i < |items| ==> !items[i].1.Compound?
    ensures LeafRefs(DrainAll(s, id, items).value.refs)
    decreases |items|
  {
    hide Drain, Valid, ContentOf;
    if items != [] {
      DrainServed(s, id, items[0].0, items[0].1);
      DrainServesAll(s, id, items[0].0, items[0].1);
      DrainAllLeafRefs(Drain(s, id, items[0].0, items[0].1).value, id, items[1..]);
    }
  }

  lemma LeafItems(s: State, id: int, sub: Option<string>, val: Value, read: nat, write: nat)
    requires id in s.tds && !val.Compound?
    ensures forall i :: 0 <= i < |Items(s, id, sub, val, read, write)| ==> !Items(s, id, sub, val, read, write)[i].1.Compound?
  {
    hide Assign, Addressed, EndsInContainer;
    if sub.None? {
      LeafAtRoot(s, id, val, read, write);
    } else {
      assert Nested(Some(sub.value), val) == [];
    }
  }

  lemma StoreLeafRefs(s: State, id: int, sub: Option<string>, val: Value, drop: Refc, read: nat, write: nat)
    requires Valid(s) && !val.Compound? && LeafRefs(s.refs) && Store(s, id, sub, val, drop, read, write).Done?
    ensures LeafRefs(Store(s, id, sub, val, drop, read, write).state.refs)
  {
    hide Assign, DrainAll, Items, RefcIncr, Store, Valid, ContentOf, LeafRefs;
    var s1, s2 := StoreSteps(s, id, sub, val, drop, read, write);
    AssignFrame(s, id, sub, val, read, write);
    AssignValid(s, id, sub, val, read, write);
    LeafItems(s, id, sub, val, read, write);
    DrainAllLeafRefs(s1, id, Items(s, id, sub, val, read, write));
    if drop != NO_REFC {
      RefcIncrFrame(s2, id, Refc(-drop.r, -drop.w), NO_ACQUIRE);
    }
  }

  // A value is taken off the list and the last one moved into its place.
  function TakenOff(refs: seq<RefSet>, i: nat): seq<RefSet>
    requires i < |refs|
  {
    if i == |refs| - 1 then refs[..i] else refs[i := refs[|refs| - 1]][..|refs| - 1]
  }

  lemma {:induction false} InFlightUpdate(refs: seq<RefSet>, i: nat, r: RefSet, x: int, k: Access)
    requires i < |refs|
    ensures InFlight(refs[i := r], x, k) == InFlight(refs, x, k) - Carried(refs[i], x, k) + Carried(r, x, k)
  {
    hide Carried;
    if i == 0 {
      assert refs[i := r][1..] == refs[1..];
    } else {
      assert refs[i := r][1..] == refs[1..][i - 1 := r];
      InFlightUpdate(refs[1..], i - 1, r, x, k);
    }
  }

  lemma InFlightLast(refs: seq<RefSet>, x: int, k: Access)
    requires refs != []
    ensures InFlight(refs[..|refs| - 1], x, k) == InFlight(refs, x, k) - Carried(refs[|refs| - 1], x, k)
  {
    hide Carried;
    var front, last := refs[..|refs| - 1], refs[|refs| - 1];
    assert refs == front + [last];
    InFlightAppend(front, [last], x, k);
    assert [last][1..] == [];
  }

  lemma TakenOffInFlight(refs: seq<RefSet>, i: nat, x: int, k: Access)
    requires i < |refs|
    ensures InFlight(TakenOff(refs, i), x, k) == InFlight(refs, x, k) - Carried(refs[i], x, k)
  {
    hide Carried, InFlight;
    InFlightLast(refs, x, k);
    if i < |refs| - 1 {
      var moved := refs[i := refs[|refs| - 1]];
      InFlightUpdate(refs, i, refs[|refs| - 1], x, k);
      InFlightLast(moved, x, k);
    }
  }

  // How far setting one reference moves the clients' holdings: what an
  // overwritten cell owned, less what waiters it served went short of.
  function Drift(s: State, r: RefSet, x: int, k: Access): int {
    Overwritten(s, r.id, r.sub, r.value, x, k) - StoreShort(s, r.id, r.sub, r.value, r.read, r.write, x, k)
  }

  function SetRef(s: State, r: RefSet): Outcome {
    Store(s, r.id, r.sub, r.value, Refc(0, r.writeDecr), r.read, r.write)
  }

  lemma SetRefCosts(s: State, r: RefSet, x: int, k: Access)
    requires Valid(s) && SetRef(s, r).Done?
    ensures Clients(SetRef(s, r).state, x, k) + Carried(r, x, k) == Clients(s, x, k) + Drift(s, r, x, k)
  {
    hide Store, Clients, Overwritten, StoreShort, Refs, Valid;
    StoreBalances(s, r.id, r.sub, r.value, Refc(0, r.writeDecr), r.read, r.write, x, k);
  }

  lemma OtherRefs(s: State, refs: seq<RefSet>, x: int, k: Access)
    ensures Clients(s.(refs := refs), x, k) == Clients(s, x, k) + InFlight(s.refs, x, k) - InFlight(refs, x, k)
  {
    hide Cells, Waiting, InFlight, Pending;
  }

  /** Setting a reference turns what the value carried into counts its new cells own. */
  lemma SetRefBalances(s: State, i: nat, x: int, k: Access)
    requires Valid(s) && i < |s.refs| && SetRef(s, s.refs[i]).Done?
    ensures var s' := SetRef(s, s.refs[i]).state;
            && i < |s'.refs| && s'.refs[i] == s.refs[i]
            && Clients(s'.(refs := TakenOff(s'.refs, i)), x, k) == Clients(s, x, k) + Drift(s, s.refs[i], x, k)
  {
    var r := s.refs[i];
    StoreDemand(s, r.id, r.sub, r.value, Refc(0, r.writeDecr), r.read, r.write);
    hide Store, InFlight, TakenOff, Clients, Drift, Carried, Demand;
    var s' := SetRef(s, r).state;
    SetRefCosts(s, r, x, k);
    OtherRefs(s', TakenOff(s'.refs, i), x, k);
    TakenOffInFlight(s'.refs, i, x, k);
  }

  /** Nothing drifts when a scalar or reference is stored where nothing was. */
  lemma NoDrift(s: State, r: RefSet, x: int, k: Access)
    requires Valid(s) && KeysOk(s) && !r.value.Compound?
    requires r.sub.None? && r.id in s.tds ==> s.tds[r.id].value.None?
    ensures Drift(s, r, x, k) == 0
  {
    hide StoreShort;
    LeafStoreIsNotShort(s, r.id, r.sub, r.value, r.read, r.write, x, k);
  }

  // ---- The steps of working notifications off -----------------------------------

  // A listed change applied here and struck off.
  function ChangeApplied(s: State, i: nat): Option<State> {
    if i >= |s.refcs| then None
    else
      var s' := RefcIncr(s, s.refcs[i].id, s.refcs[i].rc, NO_ACQUIRE);
      if s'.None? || i >= |s'.value.refcs| then None else Some(Struck(s'.value, i))
  }

  // A listed change sent to another server and struck off.
  function ChangeSent(s: State, i: nat): Option<State> {
    if i >= |s.refcs| then None else Some(Struck(s.(sentChanges := s.sentChanges + [s.refcs[i]]), i))
  }

  // Changes struck off leave the list.
  function Compacted(s: State): State {
    s.(refcs := Nonzero(s.refcs))
  }

  // A value stored here and taken off the list, the last one moving into its place.
  function RefTaken(s: State, i: nat): Option<State> {
    if i >= |s.refs| then None
    else
      var s' := SetRef(s, s.refs[i]);
      if s'.Failed? || i >= |s'.state.refs| then None else Some(s'.state.(refs := TakenOff(s'.state.refs, i)))
  }

  function WithoutFirst(s: State): State
    requires s.refs != []
  {
    s.(refs := s.refs[1..])
  }

  // The first value taken off the list and stored here.
  function FrontSet(s: State): Option<State> {
    if s.refs == [] then None
    else
      var s' := SetRef(WithoutFirst(s), s.refs[0]);
      if s'.Failed? then None else Some(s'.state)
  }

  // The first value taken off the list and sent to the server of its target,
  // which drops one write count there whatever number came with it.
  function FrontForwarded(s: State): Option<State> {
    if s.refs == [] then None
    else Some(WithoutFirst(s).(sentStores := s.sentStores + [s.refs[0].(writeDecr := 1)]))
  }

  lemma AppliedStepBalances(s: State, i: nat, x: int, k: Access)
    requires Valid(s) && ChangeApplied(s, i).Some?
    ensures Clients(ChangeApplied(s, i).value, x, k) == Clients(s, x, k)
  {
    hide Clients, RefcIncr, Struck;
    AppliedBalances(s, i, x, k);
  }

  lemma SentBalances(s: State, i: nat, x: int, k: Access)
    requires ChangeSent(s, i).Some?
    ensures Clients(ChangeSent(s, i).value, x, k) == Clients(s, x, k)
  {
    var c := s.refcs[i];
    var s1 := s.(sentChanges := s.sentChanges + [c]);
    StruckBalances(s1, i, x, k);
    hide Cells, Waiting, InFlight, Pending, Struck;
    PendingAppend(s.sentChanges, [c], x, k);
    PendingOne(c, x, k);
  }

  lemma CompactedBalances(s: State, x: int, k: Access)
    ensures Clients(Compacted(s), x, k) == Clients(s, x, k)
  {
    hide Cells, Waiting, InFlight, Pending, Nonzero;
    NonzeroPending(s.refcs, x, k);
  }

  lemma RefTakenBalances(s: State, i: nat, x: int, k: Access)
    requires Valid(s) && RefTaken(s, i).Some?
    ensures i < |s.refs| && Clients(RefTaken(s, i).value, x, k) == Clients(s, x, k) + Drift(s, s.refs[i], x, k)
  {
    hide Clients, Store, TakenOff, Drift;
    SetRefBalances(s, i, x, k);
  }

  lemma FirstInFlight(refs: seq<RefSet>, x: int, k: Access)
    requires refs != []
    ensures InFlight(refs, x, k) == Carried(refs[0], x, k) + InFlight(refs[1..], x, k)
  {
  }

  lemma FrontSetBalances(s: State, x: int, k: Access)
    requires Valid(s) && FrontSet(s).Some?
    ensures s.refs != [] && Clients(FrontSet(s).value, x, k) == Clients(s, x, k) + Drift(WithoutFirst(s), s.refs[0], x, k)
  {
    hide Clients, Store, Drift, InFlight, Carried;
    var s0 := WithoutFirst(s);
    OtherRefs(s, s.refs[1..], x, k);
    FirstInFlight(s.refs, x, k);
    SetRefCosts(s0, s.refs[0], x, k);
  }

  // What a forwarded value's waiter brought beyond the one write count dropped.
  function Excess(r: RefSet, x: int, k: Access): int {
    if k.Write? && x == r.id then r.writeDecr - 1 else 0
  }

  lemma FrontForwardedBalances(s: State, x: int, k: Access)
    requires FrontForwarded(s).Some?
    ensures s.refs != [] && Clients(FrontForwarded(s).value, x, k) == Clients(s, x, k) + Excess(s.refs[0], x, k)
  {
    var r, r1 := s.refs[0], s.refs[0].(writeDecr := 1);
    assert Carried(r, x, k) == Carried(r1, x, k) + Excess(r, x, k);
    hide InFlight, Carried, Cells, Waiting, Pending;
    FirstInFlight(s.refs, x, k);
    InFlightAppend(s.sentStores, [r1], x, k);
    LastInFlight(r1, x, k);
  }

  lemma LastInFlight(r: RefSet, x: int, k: Access)
    ensures InFlight([r], x, k) == Carried(r, x, k)
  {
    assert [r][1..] == [];
  }

  // ---- Stores do not look at the values on their way -------------------------------

  // The same state with more values on their way, before the others.
  function Before(p: seq<RefSet>, s: State): State {
    s.(refs := p + s.refs)
  }

  function BeforeAll(p: seq<RefSet>, s: Option<State>): Option<State> {
    if s.None? then None else Some(Before(p, s.value))
  }

  lemma RefcIncrBefore(p: seq<RefSet>, s: State, id: int, change: Refc, a: Acquire)
    ensures RefcIncr(Before(p, s), id, change, a) == BeforeAll(p, RefcIncr(s, id, change, a))
  {
    hide Cleanup, NotifsFor;
  }

  lemma DrainBefore(p: seq<RefSet>, s: State, id: int, sub: string, val: Value)
    ensures Drain(Before(p, s), id, sub, val) == BeforeAll(p, Drain(s, id, sub, val))
  {
    hide RefcIncr, NotifsFor, RefSetsFor, Wanted;
    if (id, sub) in s.crefs {
      var ws := s.crefs[(id, sub)];
      var s0 := s.(crefs := s.crefs - {(id, sub)}, refs := s.refs + RefSetsFor(ws, val));
      var a := Acquire(Some(sub), Wanted(ws, Read), Wanted(ws, Write));
      assert p + (s.refs + RefSetsFor(ws, val)) == p + s.refs + RefSetsFor(ws, val);
      RefcIncrBefore(p, s0, id, Refc(-1, 0), a);
    }
  }

  lemma {:induction false} DrainAllBefore(p: seq<RefSet>, s: State, id: int, items: seq<(string, Value)>)
    ensures DrainAll(Before(p, s), id, items) == BeforeAll(p, DrainAll(s, id, items))
    decreases |items|
  {
    hide Drain;
    if items != [] && id in s.tds {
      DrainBefore(p, s, id, items[0].0, items[0].1);
      if Drain(s, id, items[0].0, items[0].1).Some? {
        DrainAllBefore(p, Drain(s, id, items[0].0, items[0].1).value, id, items[1..]);
      }
    }
  }

  lemma AssignBefore(p: seq<RefSet>, s: State, id: int, sub: Option<string>, val: Value, read: nat, write: nat)
    requires id in s.tds
    ensures var a := Assign(s, id, sub, val, read, write);
            Assign(Before(p, s), id, sub, val, read, write) == if a.Failed? then a else Done(Before(p, a.state))
    ensures Items(Before(p, s), id, sub, val, read, write) == Items(s, id, sub, val, read, write)
  {
    hide StoreAt, Stamp, Merge, ServedBy, Nested;
  }

  /** The outcome of a store is the same whatever values are on their way before the others. */
  lemma SetRefBefore(p: seq<RefSet>, s: State, r: RefSet)
    ensures SetRef(s, r).Failed? <==> SetRef(Before(p, s), r).Failed?
    ensures SetRef(s, r).Done? ==> SetRef(Before(p, s), r) == Done(Before(p, SetRef(s, r).state))
  {
    hide Assign, Items, DrainAll, RefcIncr;
    if r.id in s.tds {
      AssignBefore(p, s, r.id, r.sub, r.value, r.read, r.write);
      var a := Assign(s, r.id, r.sub, r.value, r.read, r.write);
      if a.Done? {
        var items := Items(s, r.id, r.sub, r.value, r.read, r.write);
        DrainAllBefore(p, a.state, r.id, items);
        var s2 := DrainAll(a.state, r.id, items);
        if s2.Some? {
          var drop := Refc(0, r.writeDecr);
          RefcIncrBefore(p, s2.value, r.id, Refc(-drop.r, -drop.w), NO_ACQUIRE);
        }
      }
    }
  }
}
