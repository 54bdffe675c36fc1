/**
  The data store as the server runs it: tables and notification lists updated
  in place, and the loops that work notifications off.  Single operations are
  proved equal to the functions of `DataStore` and `StoreOps`.  The loops are
  proved to stop, to leave nothing behind, and to do a run of due steps, which
  they return: what `WorkedOff` says of such runs holds of them.
 */
module DataServer {
  import opened Options
  import opened Refcount
  import opened DataStore
  import opened StoreOps
  import opened ClientOps
  import opened Cascade
  import opened StoreRuns
  import opened WorkedOff
  import opened Completion

  class Server {
    // Which data live on this server.
    const local: int -> bool

    var tds: map<int, Datum>
    var crefs: map<Key, seq<CRef>>
    var ixl: map<Key, seq<Listener>>
    var refcs: seq<Change>
    var refs: seq<RefSet>
    var ranks: seq<Notif>

    // Changes and stores sent to other servers.
    var sentChanges: seq<Change>
    var sentStores: seq<RefSet>

    constructor (local: int -> bool)
      ensures St() == EMPTY && Inv(St()) && this.local == local && fresh(this)
    {
      this.local := local;
      tds, crefs, ixl, refcs, refs, ranks := map[], map[], map[], [], [], [];
      sentChanges, sentStores := [], [];
    }

    function St(): State
      reads this
    {
      State(tds, crefs, ixl, refcs, refs, ranks, sentChanges, sentStores)
    }

    // A run of due steps has been done; it failed exactly if its last step was refused.
    ghost predicate Did(was: State, trace: seq<Op>, all: bool, ok: bool)
      reads this
    {
      && WorkRun(was, trace, local, all)
      && (ok <==> RunFrom(was, trace).Some?)
      && (ok ==> RunFrom(was, trace) == Some(St()))
    }

    method AppendNotifs(id: int, sub: Option<string>, ls: seq<Listener>)
      modifies this`ranks
      ensures ranks == old(ranks) + NotifsFor(id, sub, ls)
    {
      for i := 0 to |ls|
        invariant ranks == old(ranks) + NotifsFor(id, sub, ls[..i])
      {
        ranks := ranks + [Notif(id, sub, ls[i])];
        assert NotifsFor(id, sub, ls[..i + 1]) == NotifsFor(id, sub, ls[..i]) + [Notif(id, sub, ls[i])];
      }
      assert ls[..|ls|] == ls;
    }

    // The datum's own counts; closing it notifies and forgets its listeners.
    method ChangeCounts(id: int, was: Datum, change: Refc) returns (ok: bool, d: Datum, closed: bool)
      modifies this`ranks
      ensures ok <==> CountsAllow(was, change)
      ensures ok ==> d == Counted(was, change) && closed == Closes(was, change)
      ensures ranks == if ok && closed then old(ranks) + NotifsFor(id, None, was.listeners) else old(ranks)
    {
      ok, d, closed := false, was, false;
      if change.r != 0 {
        if d.read < 0 || d.read + change.r < 0 {
          return;
        }
        d := d.(read := d.read + change.r);
      }
      if change.w != 0 {
        if d.write <= 0 || d.write + change.w < 0 {
          return;
        }
        d := d.(write := d.write + change.w);
        if d.write == 0 {
          AppendNotifs(id, None, d.listeners);
          d := d.(listeners := []);
          closed := true;
        }
      }
      ok := true;
    }

    method RefcIncr(id: int, change: Refc, a: Acquire) returns (ok: bool)
      modifies this`tds, this`refcs, this`ranks
      ensures ok <==> DataStore.RefcIncr(old(St()), id, change, a).Some?
      ensures ok ==> St() == DataStore.RefcIncr(old(St()), id, change, a).value
    {
      hide Cleanup, CountsAllow, Closes, NotifsFor;
      if id !in tds {
        return false;
      }
      var d, closed;
      ok, d, closed := ChangeCounts(id, tds[id], change);
      if !ok {
        return;
      }
      var free := d.read == 0 && d.write == 0;
      var release := closed && d.releaseWrite;
      if free && d.listeners != [] {
        return false;
      }
      var acquire := a.read != 0 || a.write != 0;
      if !free && acquire && d.value.None? {
        return false;
      }
      if d.value.Some? && (free || release || acquire) {
        var c := DatumCleanup(d.value.value, free, free || release, a);
        if c.None? {
          return false;
        }
        refcs := refcs + c.value.changes;
        d := d.(value := Some(c.value.value));
      }
      tds := if free then tds - {id} else tds[id := d];
    }

    method ProcessRefList(ws: seq<CRef>, val: Value) returns (read: nat, write: nat)
      modifies this`refs
      ensures refs == old(refs) + RefSetsFor(ws, val)
      ensures read == Wanted(ws, Read) && write == Wanted(ws, Write)
    {
      read, write := 0, 0;
      for i := 0 to |ws|
        invariant refs == old(refs) + RefSetsFor(ws[..i], val)
        invariant read + Wanted(ws[i..], Read) == Wanted(ws, Read)
        invariant write + Wanted(ws[i..], Write) == Wanted(ws, Write)
      {
        var r := RefSet(ws[i].id, ws[i].sub, val, ws[i].read, ws[i].write, ws[i].writeDecr);
        refs := refs + [r];
        assert RefSetsFor(ws[..i + 1], val) == RefSetsFor(ws[..i], val) + [r];
        read, write := read + ws[i].read, write + ws[i].write;
        assert ws[i..][1..] == ws[i + 1..];
      }
      assert ws[..|ws|] == ws;
    }

    method Drain(id: int, sub: string, val: Value) returns (ok: bool)
      modifies this`tds, this`crefs, this`ixl, this`refcs, this`refs, this`ranks
      ensures ok <==> DataStore.Drain(old(St()), id, sub, val).Some?
      ensures ok ==> St() == DataStore.Drain(old(St()), id, sub, val).value
    {
      hide DataStore.RefcIncr, RefSetsFor, NotifsFor, Wanted;
      var key := (id, sub);
      if key in crefs {
        var ws := crefs[key];
        crefs := crefs - {key};
        var read, write := ProcessRefList(ws, val);
        ghost var s0 := St();
        ok := RefcIncr(id, Refc(-1, 0), Acquire(Some(sub), read, write));
        if !ok {
          return;
        }
        RefcIncrFrame(s0, id, Refc(-1, 0), Acquire(Some(sub), read, write));
      }
      if key in ixl {
        var ls := ixl[key];
        ixl := ixl - {key};
        AppendNotifs(id, Some(sub), ls);
      }
      ok := true;
    }

    method DrainAll(id: int, items: seq<(string, Value)>) returns (ok: bool)
      modifies this`tds, this`crefs, this`ixl, this`refcs, this`refs, this`ranks
      ensures ok <==> StoreOps.DrainAll(old(St()), id, items).Some?
      ensures ok ==> St() == StoreOps.DrainAll(old(St()), id, items).value
    {
      hide DataStore.Drain;
      var i := 0;
      assert items[0..] == items;
      while i < |items| && id in tds
        invariant 0 <= i <= |items|
        invariant StoreOps.DrainAll(old(St()), id, items) == StoreOps.DrainAll(St(), id, items[i..])
      {
        assert items[i..][1..] == items[i + 1..];
        ok := Drain(id, items[i].0, items[i].1);
        if !ok {
          return;
        }
        i := i + 1;
      }
      ok := true;
    }

    method Store(id: int, sub: Option<string>, val: Value, drop: Refc, read: nat, write: nat) returns (ok: bool)
      modifies this`tds, this`crefs, this`ixl, this`refcs, this`refs, this`ranks
      ensures ok <==> StoreOps.Store(old(St()), id, sub, val, drop, read, write).Done?
      ensures ok ==> St() == StoreOps.Store(old(St()), id, sub, val, drop, read, write).state
    {
      hide Assign, Items, DataStore.RefcIncr, StoreOps.DrainAll;
      if id !in tds {
        return false;
      }
      var items := Items(St(), id, sub, val, read, write);
      var a := Assign(St(), id, sub, val, read, write);
      if a.Failed? {
        return false;
      }
      AssignFrame(St(), id, sub, val, read, write);
      tds := tds[id := a.state.tds[id]];
      ok := DrainAll(id, items);
      if ok && drop != NO_REFC {
        ok := RefcIncr(id, Refc(-drop.r, -drop.w), NO_ACQUIRE);
      }
    }

    // Applies the change at i if it is due; a change for another server is sent there.
    method ApplyChange(i: nat, all: bool) returns (ok: bool, applied: bool, ghost trace: seq<Op>)
      requires i < |refcs| && forall j :: 0 <= j < i ==> refcs[j].rc == NO_REFC || !IsDue(refcs[j], all)
      modifies this`tds, this`refcs, this`ranks, this`sentChanges
      ensures Did(old(St()), trace, all, ok)
      ensures forall n :: 0 <= n < |trace| ==> OnChanges(trace[n])
      ensures ok ==> i < |refcs| && refcs[..i] == old(refcs[..i])
      ensures ok ==> |refcs| + Counters(tds) <= old(|refcs| + Counters(tds))
      ensures ok ==> if applied then refcs[i].rc == NO_REFC else refcs[i].rc != NO_REFC && !IsDue(refcs[i], all)
    {
      hide DataStore.RefcIncr, Counters, RunFrom, WorkRun;
      ghost var s0 := St();
      trace := [];
      NoWork(s0, local, all);
      var c := refcs[i];
      applied := c.rc == NO_REFC || IsDue(c, all);
      ok := true;
      if c.rc != NO_REFC && applied {
        if local(c.id) {
          trace := [] + [AppliesChange(i)];
          WorkSnoc(s0, [], AppliesChange(i), local, all);
          ok := RefcIncr(c.id, c.rc, NO_ACQUIRE);
          if !ok {
            return;
          }
          RefcIncrFrame(s0, c.id, c.rc, NO_ACQUIRE);
          ChangeUsesCounters(s0, c.id, c.rc);
        } else {
          trace := [] + [SendsChange(i)];
          WorkSnoc(s0, [], SendsChange(i), local, all);
          sentChanges := sentChanges + [c];
        }
        refcs := refcs[i := refcs[i].(rc := NO_REFC)];
      }
    }

    // All changes; or those for this server and those to be made beforehand.
    predicate IsDue(c: Change, all: bool)
    {
      all || c.preacquire || local(c.id)
    }

    /**
      Applies every change that is due, and every change this gives rise to.
      No value is put on its way by this, and nothing is refused while clients
      own what they drop and counts are added before any are taken.
     */
    method ApplyChanges(all: bool) returns (ok: bool, ghost trace: seq<Op>)
      requires Inv(St())
      modifies this`tds, this`refcs, this`ranks, this`sentChanges
      ensures Did(old(St()), trace, all, ok)
      ensures forall n :: 0 <= n < |trace| ==> OnChanges(trace[n])
      ensures old(Solvent(St(), local) && Ordered(St(), local)) ==> ok && NoneDangling(St(), local)
      ensures ok && all ==> refcs == []
      ensures ok ==> forall c :: c in refcs ==> c.rc != NO_REFC && !IsDue(c, all)
    {
      hide Counters, RunFrom, WorkRun, Inv, Nonzero, Solvent, Ordered, NoneDangling;
      ghost var s0 := St();
      var i, any := 0, false;
      trace := [];
      NoWork(s0, local, all);
      while i < |refcs|
        invariant 0 <= i <= |refcs| && Did(s0, trace, all, true)
        invariant forall n :: 0 <= n < |trace| ==> OnChanges(trace[n])
        invariant forall j :: 0 <= j < i ==> refcs[j].rc == NO_REFC || !IsDue(refcs[j], all)
        invariant !any ==> forall j :: 0 <= j < i ==> refcs[j].rc != NO_REFC
        decreases |refcs| - i + Counters(tds)
      {
        ghost var before, done := refcs, trace;
        var applied;
        ghost var more;
        ok, applied, more := ApplyChange(i, all);
        trace := done + more;
        WorkAppend(s0, done, more, local, all);
        if !ok {
          if Solvent(s0, local) && Ordered(s0, local) {
            ChangesSettle(s0, trace, local, all);
          }
          return;
        }
        assert forall j :: 0 <= j < i ==> refcs[j] == refcs[..i][j] == before[..i][j] == before[j];
        any := any || applied;
        i := i + 1;
      }
      ghost var done := trace;
      trace := done + [CompactsChanges];
      WorkSnoc(s0, done, CompactsChanges, local, all);
      NonzeroPending(refcs, 0, Read);
      if all {
        assert Nonzero(refcs) == [];
        refcs := [];
      } else if any {
        DropStruck();
      } else {
        NonzeroAll(refcs);
      }
      if Solvent(s0, local) && Ordered(s0, local) {
        ChangesSettle(s0, trace, local, all);
      }
      ok := true;
    }

    // Closes up the list over changes already made, in place and in order.
    method DropStruck()
      modifies this`refcs
      ensures refcs == Nonzero(old(refcs))
    {
      var insert := 0;
      for i := 0 to |refcs|
        invariant insert <= i && |refcs| == |old(refcs)| && refcs[i..] == old(refcs)[i..]
        invariant refcs[..insert] == Nonzero(old(refcs)[..i])
      {
        assert old(refcs)[..i + 1][..i] == old(refcs)[..i];
        assert refcs[i] == refcs[i..][0] == old(refcs)[i];
        if refcs[i].rc != NO_REFC {
          if i != insert {
            refcs := refcs[insert := refcs[i]];
          }
          insert := insert + 1;
        }
        assert refcs[i + 1..] == old(refcs)[i + 1..];
      }
      assert old(refcs)[..|refcs|] == old(refcs);
      refcs := refcs[..insert];
    }

    // Stores the value at i here.
    method SetRefAt(i: nat) returns (ok: bool)
      requires i < |refs|
      modifies this`tds, this`crefs, this`ixl, this`refcs, this`refs, this`ranks
      ensures ok <==> SetRef(old(St()), old(refs[i])).Done?
      ensures ok ==> St() == SetRef(old(St()), old(refs[i])).state
    {
      var r := refs[i];
      ok := Store(r.id, r.sub, r.value, Refc(0, r.writeDecr), r.read, r.write);
    }

    /** Sets every reference to a datum on this server, and those this gives rise to. */
    method SetLocalRefs() returns (ok: bool, ghost trace: seq<Op>)
      requires Inv(St())
      modifies this`tds, this`crefs, this`ixl, this`refcs, this`refs, this`ranks
      ensures Did(old(St()), trace, false, ok)
      ensures ok ==> forall i :: 0 <= i < |refs| ==> !local(refs[i].id)
    {
      hide Demand, RunFrom, WorkRun, Inv, TakenOff, SetRef;
      ghost var s0 := St();
      var i := 0;
      trace := [];
      NoWork(s0, local, false);
      DemandAtLeast(St());
      while i < |refs|
        invariant 0 <= i <= |refs| <= Demand(St()) && Did(s0, trace, false, true) && Inv(St())
        invariant forall j :: 0 <= j < i ==> !local(refs[j].id)
        decreases Demand(St()) - i
      {
        if local(refs[i].id) {
          ghost var s, done := St(), trace;
          trace := done + [SetsRef(i)];
          WorkSnoc(s0, done, SetsRef(i), local, false);
          ok := SetRefAt(i);
          SetRefGrows(s, i);
          if !ok {
            return;
          }
          refs := TakenOff(refs, i);
          DemandAtLeast(St());
          assert forall j :: 0 <= j < i ==> refs[j] == refs[..i][j] == s.refs[..i][j] == s.refs[j];
        } else {
          i := i + 1;
        }
      }
      ok := true;
    }

    // Sends the store at i to the server of its target, which drops one write
    // count there whatever number the waiter brought.
    method ForwardRefAt(i: nat)
      requires i < |refs|
      modifies this`sentStores
      ensures Some(Rest(St(), i + 1)) == FrontForwarded(Rest(old(St()), i))
    {
      sentStores := sentStores + [refs[i].(writeDecr := 1)];
      assert refs[i..][1..] == refs[i + 1..];
    }

    /** Sets every reference, here or by a message, and those this gives rise to. */
    method SetAllRefs() returns (ok: bool, ghost trace: seq<Op>)
      requires Inv(St())
      modifies this`tds, this`crefs, this`ixl, this`refcs, this`refs, this`ranks, this`sentStores
      ensures Did(old(St()), trace, true, ok)
      ensures ok ==> refs == []
    {
      hide Demand, RunFrom, WorkRun, Inv, SetRef, FrontSet, FrontForwarded;
      ghost var s0 := St();
      var i := 0;
      trace := [];
      NoWork(s0, local, true);
      DemandAtLeast(St());
      while i < |refs|
        invariant 0 <= i <= |refs| <= Demand(St()) && Inv(St())
        invariant WorkRun(s0, trace, local, true) && RunFrom(s0, trace) == Some(Rest(St(), i))
        decreases Demand(St()) - i
      {
        ghost var s, done := St(), trace;
        if local(refs[i].id) {
          trace := done + [SetsFirstRef];
          WorkSnoc(s0, done, SetsFirstRef, local, true);
          RestSet(s, i);
          ok := SetRefAt(i);
          if !ok {
            return;
          }
          SetRefDemand(s, s.refs[i]);
          DemandAtLeast(St());
        } else {
          trace := done + [ForwardsFirstRef];
          WorkSnoc(s0, done, ForwardsFirstRef, local, true);
          ForwardRefAt(i);
          NotListsOnly(s, St());
          SameDemand(s, St());
        }
        i := i + 1;
      }
      assert refs[i..] == [];
      refs := [];
      ok := true;
    }

    /**
      Works off what this server can by itself.  One round always suffices,
      because applying changes puts no value on its way.
     */
    method ProcessLocalNotifs() returns (ok: bool, ghost trace: seq<Op>)
      requires Inv(St())
      modifies this`tds, this`crefs, this`ixl, this`refcs, this`refs, this`ranks, this`sentChanges
      ensures Did(old(St()), trace, false, ok)
      ensures old(Settleable(St(), local)) ==> ok && Settleable(St(), local)
      ensures ok ==> Inv(St())
      ensures ok ==> forall x: int, k: Access ::
                Clients(St(), x, k) == Clients(old(St()), x, k) + HandedOverFrom(old(St()), trace, x, k)
      ensures ok && old(Tidy(St(), local)) ==> forall x: int, k: Access :: Clients(St(), x, k) == Clients(old(St()), x, k)
      ensures ok ==> forall id: int, sub: Option<string>, l: Listener ::
                Outstanding(St(), id, sub, l) == Outstanding(old(St()), id, sub, l)
      ensures ok ==> forall i :: 0 <= i < |refs| ==> !local(refs[i].id)
      ensures ok ==> forall c :: c in refcs ==> c.rc != NO_REFC && !c.preacquire && !local(c.id)
    {
      hide RunFrom, HandedOverFrom, WorkRun, Inv, Tidy, Settleable, Clients, Outstanding;
      ghost var s0 := St();
      trace := [];
      NoWork(s0, local, false);
      var again, rounds := true, 0;
      while again
        invariant again <==> rounds == 0
        invariant Did(s0, trace, false, true) && Inv(St())
        invariant rounds > 0 ==> forall i :: 0 <= i < |refs| ==> !local(refs[i].id)
        invariant rounds > 0 ==> forall c :: c in refcs ==> c.rc != NO_REFC && !IsDue(c, false)
        decreases again
      {
        ghost var done, more;
        done := trace;
        ok, more := SetLocalRefs();
        trace := done + more;
        WorkAppend(s0, done, more, local, false);
        if Settleable(s0, local) {
          WorkGoesThrough(s0, trace, local, false);
        }
        if !ok {
          return;
        }
        RunFromBalances(s0, trace, 0, Read);
        var count := |refs|;
        done := trace;
        ok, more := ApplyChanges(false);
        trace := done + more;
        WorkAppend(s0, done, more, local, false);
        if Settleable(s0, local) {
          WorkGoesThrough(s0, trace, local, false);
        }
        if !ok {
          return;
        }
        RunFromBalances(s0, trace, 0, Read);
        if |refs| == count {
          again := false;
        }
        rounds := rounds + 1;
      }
      WorkKeeps(s0, trace, local, false);
      if Settleable(s0, local) {
        WorkGoesThrough(s0, trace, local, false);
      }
      ok := true;
    }

    /** Works off every reference and every change; at most two rounds are needed. */
    method NotifyAll() returns (ok: bool, ghost trace: seq<Op>)
      requires Inv(St())
      modifies this`tds, this`crefs, this`ixl, this`refcs, this`refs, this`ranks, this`sentChanges, this`sentStores
      ensures Did(old(St()), trace, true, ok)
      ensures old(Settleable(St(), local)) ==> ok && Settleable(St(), local)
      ensures ok ==> Inv(St())
      ensures ok ==> forall x: int, k: Access ::
                Clients(St(), x, k) == Clients(old(St()), x, k) + HandedOverFrom(old(St()), trace, x, k)
      ensures ok && old(Tidy(St(), local)) ==> forall x: int, k: Access :: Clients(St(), x, k) == Clients(old(St()), x, k)
      ensures ok ==> forall id: int, sub: Option<string>, l: Listener ::
                Outstanding(St(), id, sub, l) == Outstanding(old(St()), id, sub, l)
      ensures ok ==> refs == [] && refcs == []
    {
      hide RunFrom, HandedOverFrom, WorkRun, Inv, Tidy, Settleable, Clients, Outstanding;
      ghost var s0 := St();
      trace := [];
      NoWork(s0, local, true);
      var again := true;
      while again
        invariant Did(s0, trace, true, true) && Inv(St())
        invariant !again ==> refs == [] && refcs == []
        decreases again, refs != []
      {
        ghost var done, more;
        if refcs != [] {
          done := trace;
          ok, more := ApplyChanges(true);
          trace := done + more;
          WorkAppend(s0, done, more, local, true);
          if Settleable(s0, local) {
            WorkGoesThrough(s0, trace, local, true);
          }
          if !ok {
            return;
          }
          RunFromBalances(s0, trace, 0, Read);
        }
        if refs != [] {
          done := trace;
          ok, more := SetAllRefs();
          trace := done + more;
          WorkAppend(s0, done, more, local, true);
          if Settleable(s0, local) {
            WorkGoesThrough(s0, trace, local, true);
          }
          if !ok {
            return;
          }
          RunFromBalances(s0, trace, 0, Read);
        }
        again := refcs != [];
      }
      WorkKeeps(s0, trace, local, true);
      if Settleable(s0, local) {
        WorkGoesThrough(s0, trace, local, true);
      }
      ok := true;
    }
  }

  // ---- Measures and positions ---------------------------------------------------

  lemma DemandAtLeast(s: State)
    ensures |s.refs| <= Demand(s)
  {
  }

  lemma SetRefDemand(s: State, r: RefSet)
    requires Inv(s) && SetRef(s, r).Done?
    ensures Demand(SetRef(s, r).state) == Demand(s) && s.refs <= SetRef(s, r).state.refs && Inv(SetRef(s, r).state)
  {
    hide StoreOps.Store, Demand, Valid, WaitersOk;
    StoreDemand(s, r.id, r.sub, r.value, Refc(0, r.writeDecr), r.read, r.write);
    StoreKeeps(s, r.id, r.sub, r.value, Refc(0, r.writeDecr), r.read, r.write);
  }

  // The value just stored is still in its place, so that it can be taken off.
  lemma SetRefGrows(s: State, i: nat)
    requires Inv(s) && i < |s.refs|
    ensures RefTaken(s, i).Some? <==> SetRef(s, s.refs[i]).Done?
    ensures RefTaken(s, i).Some? ==>
              var s', t := SetRef(s, s.refs[i]).state, RefTaken(s, i).value;
              && i < |s'.refs| && t == s'.(refs := TakenOff(s'.refs, i))
              && Demand(t) == Demand(s) - 1 && i <= |t.refs| && t.refs[..i] == s.refs[..i] && Inv(t)
  {
    hide SetRef, Waiters, Inv;
    if SetRef(s, s.refs[i]).Done? {
      SetRefDemand(s, s.refs[i]);
      var s' := SetRef(s, s.refs[i]).state;
      assert s'.refs[..i] == s.refs[..i];
      RefTakenKeeps(s, i);
    }
  }

  lemma SameDemand(s: State, s': State)
    requires s'.refs == s.refs && s'.crefs == s.crefs
    ensures Demand(s') == Demand(s)
  {
  }

  // The state without the first i values, which have been seen to.
  function Rest(s: State, i: nat): State
    requires i <= |s.refs|
  {
    s.(refs := s.refs[i..])
  }

  // Storing value i in place is storing the first of the rest.
  lemma RestSet(s: State, i: nat)
    requires i < |s.refs|
    ensures SetRef(s, s.refs[i]).Done? <==> FrontSet(Rest(s, i)).Some?
    ensures SetRef(s, s.refs[i]).Done? ==>
              var s' := SetRef(s, s.refs[i]).state;
              i + 1 <= |s'.refs| && FrontSet(Rest(s, i)) == Some(Rest(s', i + 1))
  {
    hide SetRef;
    var p, s0 := s.refs[..i + 1], WithoutFirst(Rest(s, i));
    assert s.refs[i..][1..] == s.refs[i + 1..];
    assert p + s0.refs == s.refs;
    assert Before(p, s0) == s;
    SetRefBefore(p, s0, s.refs[i]);
    if SetRef(s0, s.refs[i]).Done? {
      var t := SetRef(s0, s.refs[i]).state;
      assert (p + t.refs)[i + 1..] == t.refs;
    }
  }
}
