/**
  The data store of one server: data with their reference counts, waiters on
  subscripts, and the notifications being collected.  Each operation is a
  function from one state to the next; `None` is an error return.
 */
module DataStore {
  import opened Options
  import opened Refcount
  import opened Values
  import opened Sums

  datatype Listener = Listener(rank: int, workType: int)

  datatype Datum = Datum(value: Option<Value>, listeners: seq<Listener>, read: int, write: int,
                         releaseWrite: bool, subNotifs: bool)

  // A waiter on an unassigned subscript: where its value is to be stored.
  datatype CRef = CRef(id: int, sub: Option<string>, read: nat, write: nat, writeDecr: nat)

  // A value on its way to where a waiter wanted it, with the counts it carries.
  datatype RefSet = RefSet(id: int, sub: Option<string>, value: Value, read: nat, write: nat, writeDecr: nat)

  datatype Notif = Notif(id: int, sub: Option<string>, listener: Listener)

  type Key = (int, string)

  // `sentChanges` and `sentStores` are messages to other servers.
  datatype State = State(tds: map<int, Datum>, crefs: map<Key, seq<CRef>>, ixl: map<Key, seq<Listener>>,
                         refcs: seq<Change>, refs: seq<RefSet>, ranks: seq<Notif>,
                         sentChanges: seq<Change>, sentStores: seq<RefSet>)

  function NotifsFor(id: int, sub: Option<string>, ls: seq<Listener>): (r: seq<Notif>)
    ensures |r| == |ls|
  {
    seq(|ls|, i requires 0 <= i < |ls| => Notif(id, sub, ls[i]))
  }

  predicate Closes(d: Datum, change: Refc) {
    change.w != 0 && d.write + change.w == 0
  }

  predicate CountsAllow(d: Datum, change: Refc) {
    && (change.r != 0 ==> d.read >= 0 && d.read + change.r >= 0)
    && (change.w != 0 ==> d.write > 0 && d.write + change.w >= 0)
  }

  // The datum after its own counts have changed.
  function Counted(d: Datum, change: Refc): Datum {
    d.(read := d.read + change.r, write := d.write + change.w,
       listeners := if Closes(d, change) then [] else d.listeners)
  }

  /**
    Changes a datum's counts, handing out counts its cells own.  Closing it
    notifies its listeners; when both counts are gone the datum goes too and
    everything its cells own is released.
   */
  function RefcIncr(s: State, id: int, change: Refc, a: Acquire): Option<State> {
    if id !in s.tds then None
    else
      var d := s.tds[id];
      if !CountsAllow(d, change) then None
      else
        var d1 := Counted(d, change);
        var ranks := if Closes(d, change) then s.ranks + NotifsFor(id, None, d.listeners) else s.ranks;
        var free := d1.read == 0 && d1.write == 0;
        var release := Closes(d, change) && d.releaseWrite;
        if free && d1.listeners != [] then None
        else if free && d.value.None? then Some(s.(tds := s.tds - {id}, ranks := ranks))
        else if free then
          var c := Cleanup(d.value.value, true, true, a);
          if c.None? then None
          else Some(s.(tds := s.tds - {id}, refcs := s.refcs + c.value.changes, ranks := ranks))
        else if (!release || d.value.None?) && a.read == 0 && a.write == 0 then Some(s.(tds := s.tds[id := d1], ranks := ranks))
        else if d.value.None? then None
        else
          var c := Cleanup(d.value.value, false, release, a);
          if c.None? then None
          else Some(s.(tds := s.tds[id := d1.(value := Some(c.value.value))],
                       refcs := s.refcs + c.value.changes, ranks := ranks))
  }

  function RefSetsFor(ws: seq<CRef>, val: Value): (r: seq<RefSet>)
    ensures |r| == |ws|
  {
    seq(|ws|, i requires 0 <= i < |ws| =>
      RefSet(ws[i].id, ws[i].sub, val, ws[i].read, ws[i].write, ws[i].writeDecr))
  }

  function Wanted(ws: seq<CRef>, k: Access): nat {
    if ws == [] then 0 else (if k.Read? then ws[0].read else ws[0].write) + Wanted(ws[1..], k)
  }

  // Hands a newly assigned value to whoever waits for it.
  function Drain(s: State, id: int, sub: string, val: Value): Option<State> {
    var key := (id, sub);
    var s1 :=
      if key !in s.crefs then Some(s)
      else
        var ws := s.crefs[key];
        RefcIncr(s.(crefs := s.crefs - {key}, refs := s.refs + RefSetsFor(ws, val)),
                 id, Refc(-1, 0), Acquire(Some(sub), Wanted(ws, Read), Wanted(ws, Write)));
    if s1.None? || key !in s.ixl then s1
    else Some(s1.value.(ixl := s1.value.ixl - {key}, ranks := s1.value.ranks + NotifsFor(id, Some(sub), s.ixl[key])))
  }

  // ---- The ledger: who owns the counts of datum x -------------------------

  function Count(tds: map<int, Datum>, x: int, k: Access): int {
    if x !in tds then 0 else if k.Read? then tds[x].read else tds[x].write
  }

  function DatumHeld(d: Datum, x: int, k: Access): int {
    if d.value.None? then 0 else Held(d.value.value, x, k)
  }

  function CellMap(tds: map<int, Datum>, x: int, k: Access): map<int, int> {
    map i | i in tds :: DatumHeld(tds[i], x, k)
  }

  ghost function Cells(tds: map<int, Datum>, x: int, k: Access): int {
    SumValues(CellMap(tds, x, k))
  }

  function WritesFor(ws: seq<CRef>, x: int): nat {
    if ws == [] then 0 else (if ws[0].id == x then ws[0].writeDecr else 0) + WritesFor(ws[1..], x)
  }

  function WaitFor(key: Key, ws: seq<CRef>, x: int, k: Access): int {
    if k.Write? then WritesFor(ws, x) else if key.0 == x then 1 else 0
  }

  // One read count per waited-for subscript; the write counts waiters brought.
  ghost function Waiting(crefs: map<Key, seq<CRef>>, x: int, k: Access): int {
    SumValues(WaitMap(crefs, x, k))
  }

  function WaitMap(crefs: map<Key, seq<CRef>>, x: int, k: Access): map<Key, int> {
    map q | q in crefs :: WaitFor(q, crefs[q], x, k)
  }

  function Carried(r: RefSet, x: int, k: Access): int {
    Refc(r.read, r.write).Of(k) * Refs(r.value, x) + (if k.Write? && r.id == x then r.writeDecr else 0)
  }

  function InFlight(refs: seq<RefSet>, x: int, k: Access): int {
    if refs == [] then 0 else Carried(refs[0], x, k) + InFlight(refs[1..], x, k)
  }

  /** The counts of datum x that neither the store nor a pending notification or message owns: the clients' own. */
  ghost function Clients(s: State, x: int, k: Access): int {
    Count(s.tds, x, k) + Pending(s.refcs, x, k) - Cells(s.tds, x, k) - Waiting(s.crefs, x, k) - InFlight(s.refs, x, k)
    + Pending(s.sentChanges, x, k) - InFlight(s.sentStores, x, k)
  }

  lemma CellsUpdate(tds: map<int, Datum>, id: int, d: Datum, x: int, k: Access)
    ensures Cells(tds[id := d], x, k) ==
            Cells(tds, x, k) - (if id in tds then DatumHeld(tds[id], x, k) else 0) + DatumHeld(d, x, k)
  {
    var m := CellMap(tds, x, k);
    assert CellMap(tds[id := d], x, k) == m[id := DatumHeld(d, x, k)];
    SumUpdate(m, id, DatumHeld(d, x, k));
  }

  lemma CellsRemove(tds: map<int, Datum>, id: int, x: int, k: Access)
    requires id in tds
    ensures Cells(tds - {id}, x, k) == Cells(tds, x, k) - DatumHeld(tds[id], x, k)
  {
    var m := CellMap(tds, x, k);
    assert CellMap(tds - {id}, x, k) == m - {id};
    SumRemove(m, id);
  }

  lemma WaitingUpdate(crefs: map<Key, seq<CRef>>, key: Key, ws: seq<CRef>, x: int, k: Access)
    ensures Waiting(crefs[key := ws], x, k) ==
            Waiting(crefs, x, k) - (if key in crefs then WaitFor(key, crefs[key], x, k) else 0) + WaitFor(key, ws, x, k)
  {
    var m := WaitMap(crefs, x, k);
    assert WaitMap(crefs[key := ws], x, k) == m[key := WaitFor(key, ws, x, k)];
    SumUpdate(m, key, WaitFor(key, ws, x, k));
  }

  lemma WaitingRemove(crefs: map<Key, seq<CRef>>, key: Key, x: int, k: Access)
    requires key in crefs
    ensures Waiting(crefs - {key}, x, k) == Waiting(crefs, x, k) - WaitFor(key, crefs[key], x, k)
  {
    var m := WaitMap(crefs, x, k);
    assert WaitMap(crefs - {key}, x, k) == m - {key};
    SumRemove(m, key);
  }

  lemma {:induction false} InFlightAppend(a: seq<RefSet>, b: seq<RefSet>, x: int, k: Access)
    ensures InFlight(a + b, x, k) == InFlight(a, x, k) + InFlight(b, x, k)
  {
    if a == [] {
      assert a + b == b;
    } else {
      assert (a + b)[1..] == a[1..] + b;
      InFlightAppend(a[1..], b, x, k);
    }
  }

  lemma SumTimes(p: int, q: int, n: int)
    ensures (p + q) * n == p * n + q * n
  {
  }

  // A drained list carries what it asks for at each cell, and the write counts its waiters brought.
  lemma {:induction false} DrainedCarry(ws: seq<CRef>, val: Value, x: int, k: Access)
    ensures InFlight(RefSetsFor(ws, val), x, k) ==
            Wanted(ws, k) * Refs(val, x) + (if k.Write? then WritesFor(ws, x) else 0)
  {
    hide Refs;
    if ws != [] {
      assert RefSetsFor(ws, val)[1..] == RefSetsFor(ws[1..], val);
      DrainedCarry(ws[1..], val, x, k);
      SumTimes(Refc(ws[0].read, ws[0].write).Of(k), Wanted(ws[1..], k), Refs(val, x));
    }
  }

  // ---- What every operation keeps ---------------------------------------

  predicate DatumOk(d: Datum) {
    && d.read >= 0 && d.write >= 0 && d.read + d.write > 0
    && (d.listeners != [] ==> d.write > 0)
  }

  predicate Valid(s: State) {
    forall id :: id in s.tds ==> DatumOk(s.tds[id])
  }

  // The keys of every container in the store are distinct.
  predicate KeysOk(s: State) {
    forall id :: id in s.tds && s.tds[id].value.Some? ==> WellKeyed(s.tds[id].value.value)
  }

  function DatumRefsAt(d: Datum, sub: Option<string>, x: int): nat {
    if d.value.None? then 0 else RefsAt(d.value.value, sub, x)
  }

  /**
    Changing a datum's counts moves the clients' holdings by exactly the change
    asked for and the counts handed out with the selected part of the value.
   */
  lemma RefcIncrBalances(s: State, id: int, change: Refc, a: Acquire, x: int, k: Access)
    requires Valid(s) && RefcIncr(s, id, change, a).Some?
    ensures Clients(RefcIncr(s, id, change, a).value, x, k) ==
            Clients(s, x, k) + (if x == id then change.Of(k) else 0) + a.Of(k) * DatumRefsAt(s.tds[id], a.sub, x)
  {
    hide RefcIncr, Cleanup, RefsAt, Clients, Held, Pending, Closes;
    var changes := RefcIncrShape(s, id, change, a);
    var s', d := RefcIncr(s, id, change, a).value, s.tds[id];
    NothingPending(x, k);
    if id !in s'.tds {
      if d.value.Some? {
        CleanupBalances(d.value.value, true, true, a, x, k);
        CleanupReleases(d.value.value, true, true, a, x, k);
      }
      RemovedLedger(s, s', id, changes, x, k);
    } else {
      if s'.tds[id].value != d.value || changes != [] || a.read != 0 || a.write != 0 {
        CleanupBalances(d.value.value, false, Closes(d, change) && d.releaseWrite, a, x, k);
      }
      UpdatedLedger(s, s', id, s'.tds[id], changes, x, k);
    }
  }

  // The parts of the state that a change of counts touches, and how.
  lemma RefcIncrShape(s: State, id: int, change: Refc, a: Acquire) returns (changes: seq<Change>)
    requires RefcIncr(s, id, change, a).Some?
    ensures var s' := RefcIncr(s, id, change, a).value;
            && id in s.tds && s'.refcs == s.refcs + changes
            && s'.crefs == s.crefs && s'.refs == s.refs && s'.sentChanges == s.sentChanges && s'.sentStores == s.sentStores
            && s'.tds == if id in s'.tds then s.tds[id := s'.tds[id]] else s.tds - {id}
    ensures var s', d := RefcIncr(s, id, change, a).value, s.tds[id];
            id !in s'.tds ==>
              && d.read + change.r == 0 && d.write + change.w == 0
              && (d.value.None? ==> changes == [])
              && (d.value.Some? ==> Cleanup(d.value.value, true, true, a).Some?
                                    && changes == Cleanup(d.value.value, true, true, a).value.changes)
    ensures var s', d := RefcIncr(s, id, change, a).value, s.tds[id];
            id in s'.tds ==>
              var d', release := s'.tds[id], Closes(d, change) && d.releaseWrite;
              && d'.read == d.read + change.r && d'.write == d.write + change.w
              && (|| (d'.value == d.value && changes == [] && a.read == 0 && a.write == 0)
                  || (&& d.value.Some? && Cleanup(d.value.value, false, release, a).Some?
                      && d'.value == Some(Cleanup(d.value.value, false, release, a).value.value)
                      && changes == Cleanup(d.value.value, false, release, a).value.changes))
  {
    hide Cleanup, NotifsFor;
    changes := RefcIncr(s, id, change, a).value.refcs[|s.refcs|..];
  }

  lemma NothingPending(x: int, k: Access)
    ensures Pending([], x, k) == 0
  {
  }

  function CountOf(d: Datum, k: Access): int {
    if k.Read? then d.read else d.write
  }

  // The ledger when one datum changes and changes are listed.
  lemma UpdatedLedger(s: State, s': State, id: int, d: Datum, changes: seq<Change>, x: int, k: Access)
    requires id in s.tds && s'.tds == s.tds[id := d] && s'.refcs == s.refcs + changes
    requires s'.crefs == s.crefs && s'.refs == s.refs && s'.sentChanges == s.sentChanges && s'.sentStores == s.sentStores
    ensures Clients(s', x, k) ==
            Clients(s, x, k) + (if x == id then CountOf(d, k) - CountOf(s.tds[id], k) else 0)
            + Pending(changes, x, k) - DatumHeld(d, x, k) + DatumHeld(s.tds[id], x, k)
  {
    hide Pending, Cells, Waiting, InFlight, DatumHeld;
    CellsUpdate(s.tds, id, d, x, k);
    PendingAppend(s.refcs, changes, x, k);
  }

  lemma RemovedLedger(s: State, s': State, id: int, changes: seq<Change>, x: int, k: Access)
    requires id in s.tds && s'.tds == s.tds - {id} && s'.refcs == s.refcs + changes
    requires s'.crefs == s.crefs && s'.refs == s.refs && s'.sentChanges == s.sentChanges && s'.sentStores == s.sentStores
    ensures Clients(s', x, k) ==
            Clients(s, x, k) - (if x == id then CountOf(s.tds[id], k) else 0)
            + Pending(changes, x, k) + DatumHeld(s.tds[id], x, k)
  {
    hide Pending, Cells, Waiting, InFlight, DatumHeld;
    CellsRemove(s.tds, id, x, k);
    PendingAppend(s.refcs, changes, x, k);
  }

  lemma RefcIncrValid(s: State, id: int, change: Refc, a: Acquire)
    requires Valid(s) && RefcIncr(s, id, change, a).Some?
    ensures Valid(RefcIncr(s, id, change, a).value)
  {
    hide Cleanup;
  }

  lemma RefcIncrKeys(s: State, id: int, change: Refc, a: Acquire)
    requires KeysOk(s) && RefcIncr(s, id, change, a).Some?
    ensures KeysOk(RefcIncr(s, id, change, a).value)
  {
    hide Cleanup, WellKeyed;
    var s' := RefcIncr(s, id, change, a).value;
    if id in s'.tds && s'.tds[id].value.Some? {
      RefcIncrKeepsContent(s, id, change, a);
      SameContentWellKeyed(s.tds[id].value.value, s'.tds[id].value.value);
    }
  }

  // What RefcIncr leaves alone.
  lemma RefcIncrFrame(s: State, id: int, change: Refc, a: Acquire)
    requires RefcIncr(s, id, change, a).Some?
    ensures var s' := RefcIncr(s, id, change, a).value;
            && s'.crefs == s.crefs && s'.ixl == s.ixl && s'.refs == s.refs
            && s.refcs <= s'.refcs && s'.sentChanges == s.sentChanges && s'.sentStores == s.sentStores
            && s'.tds - {id} == s.tds - {id}
            && id in s.tds
            && (id !in s'.tds <==> s.tds[id].read + change.r == 0 && s.tds[id].write + change.w == 0)
  {
    hide Cleanup;
  }

  lemma RefcIncrKeepsContent(s: State, id: int, change: Refc, a: Acquire)
    requires RefcIncr(s, id, change, a).Some? && id in RefcIncr(s, id, change, a).value.tds
    ensures var d, d' := s.tds[id], RefcIncr(s, id, change, a).value.tds[id];
            && ContentOf(d'.value) == ContentOf(d.value) && d'.subNotifs == d.subNotifs
            && d'.read == d.read + change.r && d'.write == d.write + change.w
  {
    hide Cleanup, Content;
    var d := s.tds[id];
    var release := Closes(d, change) && d.releaseWrite;
    if d.value.Some? && Cleanup(d.value.value, false, release, a).Some? {
      CleanupKeepsContent(d.value.value, false, release, a);
    }
  }

  /** A closed datum stays closed: its write count never rises again from zero. */
  lemma ClosedStaysClosed(s: State, id: int, change: Refc, a: Acquire, j: int)
    requires RefcIncr(s, id, change, a).Some?
    requires j in s.tds && s.tds[j].write == 0
    ensures var s' := RefcIncr(s, id, change, a).value; j in s'.tds ==> s'.tds[j].write == 0
  {
    hide Cleanup;
  }

  // ---- Notifications: one for each subscription -------------------------

  function ListenersOf(s: State, id: int, sub: Option<string>): seq<Listener> {
    if sub.None? then (if id in s.tds then s.tds[id].listeners else [])
    else (if (id, sub.value) in s.ixl then s.ixl[(id, sub.value)] else [])
  }

  // Subscriptions of one listener to one datum or subscript, pending or notified.
  ghost function Outstanding(s: State, id: int, sub: Option<string>, l: Listener): nat {
    multiset(ListenersOf(s, id, sub))[l] + multiset(s.ranks)[Notif(id, sub, l)]
  }

  lemma {:induction false} NotifCount(id: int, sub: Option<string>, ls: seq<Listener>, n: Notif)
    ensures multiset(NotifsFor(id, sub, ls))[n] ==
            if n.id == id && n.sub == sub then multiset(ls)[n.listener] else 0
  {
    if ls != [] {
      var rest := ls[..|ls| - 1];
      NotifCount(id, sub, rest, n);
      assert NotifsFor(id, sub, ls) == NotifsFor(id, sub, rest) + [Notif(id, sub, ls[|ls| - 1])];
      assert ls == rest + [ls[|ls| - 1]];
    } else {
      assert NotifsFor(id, sub, ls) == [];
    }
  }

  lemma RefcIncrNotifs(s: State, id: int, change: Refc, a: Acquire)
    requires Valid(s) && RefcIncr(s, id, change, a).Some?
    ensures var s' := RefcIncr(s, id, change, a).value;
            var out := if Closes(s.tds[id], change) then s.tds[id].listeners else [];
            && s'.ranks == s.ranks + NotifsFor(id, None, out)
            && ListenersOf(s', id, None) == if out == [] then s.tds[id].listeners else []
  {
    hide Cleanup, WellKeyed;
    assert s.ranks + NotifsFor(id, None, []) == s.ranks;
  }

  lemma ListenersElsewhere(s: State, s': State, id: int, x: int, sub: Option<string>)
    requires s'.tds - {id} == s.tds - {id} && s'.ixl == s.ixl && (x != id || sub.Some?)
    ensures ListenersOf(s', x, sub) == ListenersOf(s, x, sub)
  {
    if sub.None? {
      assert x in s.tds <==> x in s.tds - {id};
      assert x in s'.tds <==> x in s'.tds - {id};
      assert x in s.tds ==> s.tds[x] == (s.tds - {id})[x];
      assert x in s'.tds ==> s'.tds[x] == (s'.tds - {id})[x];
    }
  }

  lemma RanksGrow(ranks: seq<Notif>, id: int, sub: Option<string>, ls: seq<Listener>, n: Notif)
    ensures multiset(ranks + NotifsFor(id, sub, ls))[n] ==
            multiset(ranks)[n] + if n.id == id && n.sub == sub then multiset(ls)[n.listener] else 0
  {
    hide NotifsFor;
    NotifCount(id, sub, ls, n);
  }

  /** No change of counts loses or repeats a notification. */
  lemma RefcIncrNotifiesOnce(s: State, id: int, change: Refc, a: Acquire, x: int, sub: Option<string>, l: Listener)
    requires Valid(s) && RefcIncr(s, id, change, a).Some?
    ensures Outstanding(RefcIncr(s, id, change, a).value, x, sub, l) == Outstanding(s, x, sub, l)
  {
    var s' := RefcIncr(s, id, change, a).value;
    RefcIncrFrame(s, id, change, a);
    RefcIncrNotifs(s, id, change, a);
    hide RefcIncr, NotifsFor, ListenersOf;
    var out := if Closes(s.tds[id], change) then s.tds[id].listeners else [];
    RanksGrow(s.ranks, id, None, out, Notif(x, sub, l));
    if x != id || sub.Some? {
      ListenersElsewhere(s, s', id, x, sub);
    }
  }

  /** A datum is never freed under a listener, so that check cannot fail. */
  lemma FreedWithoutListeners(s: State, id: int, change: Refc)
    requires Valid(s) && id in s.tds && CountsAllow(s.tds[id], change)
    ensures var d1 := Counted(s.tds[id], change); d1.write == 0 ==> d1.listeners == []
  {
  }

  // ---- Handing a value to its waiters -------------------------------------

  // What the waiters on a subscript ask for beyond what the store hands out.
  function Shortfall(s: State, id: int, sub: string, val: Value, x: int, k: Access): int {
    if (id, sub) !in s.crefs || id !in s.tds then 0
    else Wanted(s.crefs[(id, sub)], k) * (Refs(val, x) - DatumRefsAt(s.tds[id], Some(sub), x))
  }

  lemma DrainedBalances(s: State, id: int, sub: string, val: Value, x: int, k: Access)
    requires (id, sub) in s.crefs
    ensures var ws := s.crefs[(id, sub)];
            var s0 := s.(crefs := s.crefs - {(id, sub)}, refs := s.refs + RefSetsFor(ws, val));
            Clients(s0, x, k) ==
            Clients(s, x, k) + (if k.Read? && x == id then 1 else 0) - Wanted(ws, k) * Refs(val, x)
  {
    hide Cells, Waiting, InFlight, Refs, RefSetsFor, Wanted, Pending;
    var ws := s.crefs[(id, sub)];
    WaitingRemove(s.crefs, (id, sub), x, k);
    InFlightAppend(s.refs, RefSetsFor(ws, val), x, k);
    DrainedCarry(ws, val, x, k);
  }

  /**
    Serving waiters costs the clients exactly the shortfall: nothing when the
    store finds, under the subscript, the references it gives away.
   */
  lemma DrainBalances(s: State, id: int, sub: string, val: Value, x: int, k: Access)
    requires Valid(s) && id in s.tds && Drain(s, id, sub, val).Some?
    ensures Clients(Drain(s, id, sub, val).value, x, k) == Clients(s, x, k) - Shortfall(s, id, sub, val, x, k)
  {
    hide RefcIncr, Cells, Waiting, InFlight, Refs, RefsAt, RefSetsFor, Wanted, Pending;
    if (id, sub) in s.crefs {
      var ws := s.crefs[(id, sub)];
      var s0 := s.(crefs := s.crefs - {(id, sub)}, refs := s.refs + RefSetsFor(ws, val));
      var a := Acquire(Some(sub), Wanted(ws, Read), Wanted(ws, Write));
      DrainedBalances(s, id, sub, val, x, k);
      RefcIncrBalances(s0, id, Refc(-1, 0), a, x, k);
      assert a.Of(k) == Wanted(ws, k);
      TimesDifference(Wanted(ws, k), Refs(val, x), DatumRefsAt(s.tds[id], Some(sub), x));
    }
  }

  lemma TimesDifference(n: int, p: int, q: int)
    ensures n * (p - q) == n * p - n * q
  {
  }

  lemma NoShortfall(s: State, id: int, sub: string, val: Value, x: int, k: Access)
    requires id in s.tds && s.tds[id].value.Some? && WellKeyed(s.tds[id].value.value)
    requires ContentOf(Lookup(s.tds[id].value.value, Some(sub))) == Some(Content(val))
    ensures Shortfall(s, id, sub, val, x, k) == 0
  {
    hide Content, Lookup, Wanted, WellKeyed, RefsAt;
    RefsAtLookup(s.tds[id].value.value, Some(sub), x);
    SameContentRefs(Lookup(s.tds[id].value.value, Some(sub)).value, val, x);
  }

  // What serving waiters leaves alone, while the datum is open.
  lemma DrainFrame(s: State, id: int, sub: string, val: Value)
    requires Valid(s) && id in s.tds && s.tds[id].write > 0 && Drain(s, id, sub, val).Some?
    ensures var s' := Drain(s, id, sub, val).value;
            && Valid(s')
            && s'.tds - {id} == s.tds - {id}
            && s'.crefs == s.crefs - {(id, sub)} && s'.ixl == s.ixl - {(id, sub)}
            && s.refs <= s'.refs && s.refcs <= s'.refcs
            && s'.sentChanges == s.sentChanges && s'.sentStores == s.sentStores
            && id in s'.tds && s'.tds[id].write == s.tds[id].write
            && ContentOf(s'.tds[id].value) == ContentOf(s.tds[id].value) && s'.tds[id].subNotifs == s.tds[id].subNotifs
  {
    hide RefcIncr, Content, Wanted, RefSetsFor;
    assert (id, sub) !in s.ixl ==> s.ixl - {(id, sub)} == s.ixl;
    if (id, sub) in s.crefs {
      var ws := s.crefs[(id, sub)];
      var s0 := s.(crefs := s.crefs - {(id, sub)}, refs := s.refs + RefSetsFor(ws, val));
      var a := Acquire(Some(sub), Wanted(ws, Read), Wanted(ws, Write));
      RefcIncrValid(s0, id, Refc(-1, 0), a);
      RefcIncrFrame(s0, id, Refc(-1, 0), a);
      RefcIncrKeepsContent(s0, id, Refc(-1, 0), a);
    } else {
      assert s.crefs - {(id, sub)} == s.crefs;
    }
  }

  // Each waiter becomes one value on its way.
  lemma DrainServesAll(s: State, id: int, sub: string, val: Value)
    requires Drain(s, id, sub, val).Some?
    ensures Drain(s, id, sub, val).value.refs ==
            s.refs + if (id, sub) in s.crefs then RefSetsFor(s.crefs[(id, sub)], val) else []
  {
    hide RefcIncr, Wanted, RefSetsFor;
    if (id, sub) in s.crefs {
      var ws := s.crefs[(id, sub)];
      RefcIncrFrame(s.(crefs := s.crefs - {(id, sub)}, refs := s.refs + RefSetsFor(ws, val)), id, Refc(-1, 0),
                    Acquire(Some(sub), Wanted(ws, Read), Wanted(ws, Write)));
    } else {
      assert s.refs + [] == s.refs;
    }
  }

  /** Serving a subscript turns each of its subscriptions into one notification. */
  lemma DrainNotifiesOnce(s: State, id: int, sub: string, val: Value, x: int, at: Option<string>, l: Listener)
    requires Valid(s) && Drain(s, id, sub, val).Some?
    ensures Outstanding(Drain(s, id, sub, val).value, x, at, l) == Outstanding(s, x, at, l)
  {
    hide RefcIncr, RefSetsFor, Wanted, NotifsFor;
    var key := (id, sub);
    var s1 := s;
    if key in s.crefs {
      var ws := s.crefs[key];
      var s0 := s.(crefs := s.crefs - {key}, refs := s.refs + RefSetsFor(ws, val));
      var a := Acquire(Some(sub), Wanted(ws, Read), Wanted(ws, Write));
      s1 := RefcIncr(s0, id, Refc(-1, 0), a).value;
      RefcIncrNotifiesOnce(s0, id, Refc(-1, 0), a, x, at, l);
      RefcIncrFrame(s0, id, Refc(-1, 0), a);
    }
    if key in s.ixl {
      RanksGrow(s1.ranks, id, Some(sub), s.ixl[key], Notif(x, at, l));
    }
  }

  // The waiters on (id, sub) are not on a key of the container itself.
  predicate WaitedInside(s: State, id: int, sub: string) {
    && id in s.tds && s.tds[id].value.Some?
    && s.tds[id].value.value.Compound? && s.tds[id].value.value.kind.ContainerKind?
    && Find(s.tds[id].value.value.children, sub) == |s.tds[id].value.value.children|
    && (id, sub) in s.crefs
  }

  /**
    A container inside a container: a waiter on an inner key is served, but no
    count is taken for it, because the subscript that finds it among the waiters
    is not a key of the outer container.  The whole demand is a shortfall.
   */
  lemma NestedWaiterGoesShort(s: State, id: int, sub: string, val: Value, x: int, k: Access)
    requires Valid(s) && WaitedInside(s, id, sub) && s.tds[id].read > 0 && s.tds[id].write > 0
    ensures Drain(s, id, sub, val).Some?
    ensures Shortfall(s, id, sub, val, x, k) == Wanted(s.crefs[(id, sub)], k) * Refs(val, x)
  {
    hide Wanted, RefSetsFor, Refs;
    KeyedAbsent(s.tds[id].value.value.children, sub, x);
    var ws, cs := s.crefs[(id, sub)], s.tds[id].value.value.children;
    IdleCleanupIn(cs, ChildAcquires(ContainerKind, cs, Acquire(Some(sub), Wanted(ws, Read), Wanted(ws, Write))).value);
  }
}
