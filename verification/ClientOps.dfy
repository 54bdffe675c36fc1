/**
  The remaining client operations, and what they promise together with
  `StoreOps.Store`: waiters only while a member is unassigned, members assigned
  and reserved once, one notification per subscription.
 */
module ClientOps {
  import opened Options
  import opened Parse
  import opened Refcount
  import opened Values
  import opened DataStore
  import opened StoreOps

  // The subscript names a place in the value, assigned or not.
  predicate Subscriptable(v: Value, sub: string)
    decreases v
  {
    match v
    case Compound(ContainerKind, _) => true
    case Compound(StructKind, cs) =>
      && sub != ""
      && var p := StructPop(sub);
         && p.Some? && p.value.index < |cs|
         && (p.value.rest.Some? && cs[p.value.index].val.Some? ==>
               Subscriptable(cs[p.value.index].val.value, p.value.rest.value))
    case _ => false
  }

  // A waiter joins those on an unassigned subscript.  The first brings the read
  // count the list keeps; a later one's read count is dropped.
  function Wait(s: State, id: int, sub: string, w: CRef): Option<State>
    requires id in s.tds
  {
    var d, key := s.tds[id], (id, sub);
    if d.write <= 0 || d.read <= 0 then None
    else if key !in s.crefs then
      Some(s.(crefs := s.crefs[key := [w]], tds := s.tds[id := d.(subNotifs := true)]))
    else if d.read < 2 then None
    else Some(s.(crefs := s.crefs[key := s.crefs[key] + [w]], tds := s.tds[id := d.(read := d.read - 1)]))
  }

  /** Asks for the value of a subscript to be stored where `w` says, now or when it is assigned. */
  function Reference(s: State, id: int, sub: string, w: CRef): Option<State> {
    if id !in s.tds || s.tds[id].value.None? || !Subscriptable(s.tds[id].value.value, sub) then None
    else
      var found := Lookup(s.tds[id].value.value, Some(sub));
      if found.None? then Wait(s, id, sub, w)
      else
        RefcIncr(s.(refs := s.refs + [RefSet(w.id, w.sub, found.value, w.read, w.write, w.writeDecr)]),
                 id, Refc(-1, 0), Acquire(Some(sub), w.read, w.write))
  }

  lemma {:induction false} WritesForAppend(ws: seq<CRef>, w: CRef, x: int)
    ensures WritesFor(ws + [w], x) == WritesFor(ws, x) + if w.id == x then w.writeDecr else 0
  {
    if ws == [] {
      assert ws + [w] == [w];
    } else {
      assert (ws + [w])[1..] == ws[1..] + [w];
      WritesForAppend(ws[1..], w, x);
    }
  }

  lemma WaitBalances(s: State, id: int, sub: string, w: CRef, x: int, k: Access)
    requires id in s.tds && Wait(s, id, sub, w).Some?
    ensures Clients(Wait(s, id, sub, w).value, x, k) ==
            Clients(s, x, k) - (if k.Read? && x == id then 1 else 0) - (if k.Write? && x == w.id then w.writeDecr else 0)
  {
    hide Cells, Waiting, InFlight, Pending, Held, WritesFor;
    var s', key := Wait(s, id, sub, w).value, (id, sub);
    CellsUpdate(s.tds, id, s'.tds[id], x, k);
    WaitingUpdate(s.crefs, key, s'.crefs[key], x, k);
    var ws := if key in s.crefs then s.crefs[key] else [];
    assert [] + [w] == [w];
    WritesForAppend(ws, w, x);
    NoWrites(x);
  }

  lemma NoWrites(x: int)
    ensures WritesFor([], x) == 0
  {
  }

  lemma OneInFlight(r: RefSet, x: int, k: Access)
    ensures InFlight([r], x, k) == Carried(r, x, k)
  {
    assert [r][1..] == [];
  }

  // What handing out counts under a subscript takes beyond the references of the
  // value found there: those of other members under the same key.
  function Surplus(s: State, id: int, sub: Option<string>, read: nat, write: nat, x: int, k: Access): int {
    if id !in s.tds || s.tds[id].value.None? || Lookup(s.tds[id].value.value, sub).None? then 0
    else Refc(read, write).Of(k) * (RefsAt(s.tds[id].value.value, sub, x) - Refs(Lookup(s.tds[id].value.value, sub).value, x))
  }

  /** With distinct keys there is none. */
  lemma NoSurplus(s: State, id: int, sub: Option<string>, read: nat, write: nat, x: int, k: Access)
    requires KeysOk(s)
    ensures Surplus(s, id, sub, read, write, x, k) == 0
  {
    hide WellKeyed, Lookup, RefsAt, Refs;
    if id in s.tds && s.tds[id].value.Some? && Lookup(s.tds[id].value.value, sub).Some? {
      RefsAtLookup(s.tds[id].value.value, sub, x);
    }
  }

  /**
    Whether served at once or made to wait, a reference costs the client one
    read count of the container and the write counts it brings for its target.
   */
  lemma ReferenceBalances(s: State, id: int, sub: string, w: CRef, x: int, k: Access)
    requires Valid(s) && Reference(s, id, sub, w).Some?
    ensures Clients(Reference(s, id, sub, w).value, x, k) ==
            Clients(s, x, k) - (if k.Read? && x == id then 1 else 0) - (if k.Write? && x == w.id then w.writeDecr else 0)
            + Surplus(s, id, Some(sub), w.read, w.write, x, k)
  {
    hide RefcIncr, Cells, Waiting, InFlight, Pending, Refs, RefsAt, Lookup, Subscriptable, Wait;
    var found := Lookup(s.tds[id].value.value, Some(sub));
    if found.None? {
      WaitBalances(s, id, sub, w, x, k);
    } else {
      var r := RefSet(w.id, w.sub, found.value, w.read, w.write, w.writeDecr);
      var s0 := s.(refs := s.refs + [r]);
      InFlightAppend(s.refs, [r], x, k);
      OneInFlight(r, x, k);
      RefcIncrBalances(s0, id, Refc(-1, 0), Acquire(Some(sub), w.read, w.write), x, k);
      TimesDifference(Refc(w.read, w.write).Of(k), RefsAt(s.tds[id].value.value, Some(sub), x), Refs(found.value, x));
    }
  }

  lemma ReferenceValid(s: State, id: int, sub: string, w: CRef)
    requires Valid(s) && Reference(s, id, sub, w).Some?
    ensures Valid(Reference(s, id, sub, w).value)
  {
    hide RefcIncr, Lookup, Subscriptable, WellKeyed;
    var found := Lookup(s.tds[id].value.value, Some(sub));
    if found.Some? {
      var r := RefSet(w.id, w.sub, found.value, w.read, w.write, w.writeDecr);
      RefcIncrValid(s.(refs := s.refs + [r]), id, Refc(-1, 0), Acquire(Some(sub), w.read, w.write));
    }
  }

  // ---- Waiters only while unassigned --------------------------------------

  predicate IsContainer(d: Datum) {
    d.value.Some? && d.value.value.Compound? && d.value.value.kind.ContainerKind?
  }

  // Waiters on this member of this container are accounted for: the datum
  // knows it has some, and the member has no value.
  predicate WaiterOk(s: State, key: Key) {
    key.0 in s.tds && IsContainer(s.tds[key.0]) ==>
      s.tds[key.0].subNotifs && Lookup(s.tds[key.0].value.value, Some(key.1)).None?
  }

  ghost predicate WaitersOk(s: State) {
    forall key :: key in s.crefs ==> WaiterOk(s, key)
  }

  lemma WaiterStays(s: State, s': State, key: Key)
    requires WaiterOk(s, key)
    requires key.0 in s'.tds ==> key.0 in s.tds && ContentOf(s'.tds[key.0].value) == ContentOf(s.tds[key.0].value)
                                 && s'.tds[key.0].subNotifs == s.tds[key.0].subNotifs
    ensures WaiterOk(s', key)
  {
    hide Lookup;
    if key.0 in s'.tds && IsContainer(s'.tds[key.0]) {
      SameContentLookup(s.tds[key.0].value.value, s'.tds[key.0].value.value, Some(key.1));
    }
  }

  lemma SameElsewhere(s: State, s': State, id: int, j: int)
    requires s'.tds - {id} == s.tds - {id} && j != id
    ensures (j in s'.tds <==> j in s.tds) && (j in s.tds ==> s'.tds[j] == s.tds[j])
  {
    assert j in s.tds <==> j in s.tds - {id};
    assert j in s'.tds <==> j in s'.tds - {id};
    assert j in s.tds ==> s.tds[j] == (s.tds - {id})[j];
  }

  lemma RefcIncrWaiters(s: State, id: int, change: Refc, a: Acquire)
    requires WaitersOk(s) && RefcIncr(s, id, change, a).Some?
    ensures WaitersOk(RefcIncr(s, id, change, a).value)
  {
    var s' := RefcIncr(s, id, change, a).value;
    RefcIncrFrame(s, id, change, a);
    if id in s'.tds {
      RefcIncrKeepsContent(s, id, change, a);
    }
    hide RefcIncr, ContentOf, WaiterOk;
    forall key | key in s'.crefs
      ensures WaiterOk(s', key)
    {
      if key.0 != id {
        SameElsewhere(s, s', id, key.0);
      }
      WaiterStays(s, s', key);
    }
  }

  // Assigning one member of a container leaves the others as they were.
  lemma {:induction false} OtherMembers(v: Value, sub: string, val: Option<Value>, at: string)
    requires v.Compound? && v.kind.ContainerKind? && at != sub && StoreAt(v, sub, val).Stored?
    ensures Lookup(StoreAt(v, sub, val).value, Some(at)) == Lookup(v, Some(at))
  {
    var cs, i := v.children, Find(v.children, sub);
    if i < |cs| {
      FindUpdated(cs, i, Child(sub, val), at);
    } else {
      var after, j := cs + [Child(sub, val)], Find(cs, at);
      assert forall m :: 0 <= m < |cs| ==> after[m] == cs[m];
      if j < |cs| {
        FindUnique(after, at, j);
      } else {
        assert forall m :: 0 <= m < |after| ==> after[m].key != at;
      }
    }
  }

  lemma AssignedWaiter(s: State, id: int, sub: string, val: Value, read: nat, write: nat, key: Key)
    requires id in s.tds && Assign(s, id, Some(sub), val, read, write).Done?
    requires WaiterOk(s, key) && key != (id, sub)
    ensures WaiterOk(Assign(s, id, Some(sub), val, read, write).state, key)
  {
    hide Lookup, StoreAt, Stamp;
    if key.0 == id && IsContainer(s.tds[id]) {
      OtherMembers(s.tds[id].value.value, sub, Some(Stamp(val, read, write)), key.1);
    } else if key.0 == id {
      StoreKeepsKind(s.tds[id].value.value, sub, Some(Stamp(val, read, write)));
    }
  }

  lemma StoreKeepsKind(v: Value, sub: string, val: Option<Value>)
    requires StoreAt(v, sub, val).Stored?
    ensures v.Compound? && StoreAt(v, sub, val).value.Compound? && StoreAt(v, sub, val).value.kind == v.kind
  {
  }

  /** After a store no one is left waiting for a member that has a value. */
  lemma StoreWaiters(s: State, id: int, sub: Option<string>, val: Value, drop: Refc, read: nat, write: nat)
    requires Valid(s) && WaitersOk(s) && Store(s, id, sub, val, drop, read, write).Done?
    ensures WaitersOk(Store(s, id, sub, val, drop, read, write).state)
  {
    hide Assign, DrainAll, Items, RefcIncr, Store, Valid, WaiterOk, Served;
    var s1, s2 := StoreSteps(s, id, sub, val, drop, read, write);
    AssignValid(s, id, sub, val, read, write);
    OpenAfterAssign(s, id, sub, val, read, write);
    DrainAllServed(s1, id, Items(s, id, sub, val, read, write));
    AssignThenServe(s, s1, s2, id, sub, val, read, write);
    if drop != NO_REFC {
      RefcIncrWaiters(s2, id, Refc(-drop.r, -drop.w), NO_ACQUIRE);
    }
  }

  lemma AssignThenServe(s: State, s1: State, s2: State, id: int, sub: Option<string>, val: Value, read: nat, write: nat)
    requires WaitersOk(s) && id in s.tds && Assign(s, id, sub, val, read, write) == Done(s1) && Valid(s1)
    requires DrainAll(s1, id, Items(s, id, sub, val, read, write)) == Some(s2) && Served(s1, s2, id)
    ensures WaitersOk(s2)
  {
    AssignFrame(s, id, sub, val, read, write);
    hide Assign, DrainAll, Valid, Lookup, ContentOf, Items;
    forall key | key in s2.crefs
      ensures WaiterOk(s2, key)
    {
      assert WaiterOk(s, key);
      if key.0 != id {
        SameElsewhere(s1, s2, id, key.0);
      } else if sub.Some? {
        SubscriptWaiter(s, s1, s2, id, sub.value, val, read, write, key);
      } else {
        RootWaiter(s, s1, s2, id, val, read, write, key);
      }
    }
  }

  lemma SubscriptWaiter(s: State, s1: State, s2: State, id: int, sub: string, val: Value, read: nat, write: nat, key: Key)
    requires id in s.tds && Assign(s, id, Some(sub), val, read, write) == Done(s1) && Valid(s1)
    requires DrainAll(s1, id, Items(s, id, Some(sub), val, read, write)) == Some(s2) && Served(s1, s2, id)
    requires WaiterOk(s, key) && key.0 == id && key in s2.crefs
    ensures WaiterOk(s2, key)
  {
    hide DrainAll, Valid, StoreAt, Stamp, Lookup, ContentOf, EndsInContainer, Addressed, Nested;
    if key != (id, sub) {
      AssignedWaiter(s, id, sub, val, read, write, key);
      WaiterStays(s1, s2, key);
    } else if IsContainer(s.tds[id]) {
      ContainerServes(s.tds[id], sub, val);
      OpenAfterAssign(s, id, Some(sub), val, read, write);
      DrainAllEmpties(s1, id, Items(s, id, Some(sub), val, read, write), 0);
    } else {
      StoreKeepsKind(s.tds[id].value.value, sub, Some(Stamp(val, read, write)));
      WaiterStays(s1, s2, key);
    }
  }

  // A merge serves every member that then has a value.
  lemma RootWaiter(s: State, s1: State, s2: State, id: int, val: Value, read: nat, write: nat, key: Key)
    requires id in s.tds && Assign(s, id, None, val, read, write) == Done(s1) && Valid(s1)
    requires DrainAll(s1, id, Items(s, id, None, val, read, write)) == Some(s2) && Served(s1, s2, id)
    requires WaiterOk(s, key) && key.0 == id && key in s2.crefs
    ensures WaiterOk(s2, key)
  {
    hide DrainAll, Valid, Stamp, Lookup, ContentOf, Nested;
    if IsContainer(s1.tds[id]) {
      RootWasContainer(s, id, val, read, write);
      assert s.tds[id].subNotifs && s1.tds[id].subNotifs;
      var v := s1.tds[id].value.value;
      if Lookup(v, Some(key.1)).Some? {
        var i := NestedHasMember(v.children, key.1);
        OpenAfterAssign(s, id, None, val, read, write);
        DrainAllEmpties(s1, id, Items(s, id, None, val, read, write), i);
        assert false;
      }
    }
    WaiterStays(s1, s2, key);
  }

  lemma RootWasContainer(s: State, id: int, val: Value, read: nat, write: nat)
    requires id in s.tds && Assign(s, id, None, val, read, write).Done?
    requires IsContainer(Assign(s, id, None, val, read, write).state.tds[id])
    ensures IsContainer(s.tds[id])
  {
  }

  lemma {:induction false} NestedHasMember(cs: seq<Child>, key: string) returns (i: nat)
    requires Lookup(Compound(ContainerKind, cs), Some(key)).Some?
    ensures i < |Nested(None, Compound(ContainerKind, cs))| && Nested(None, Compound(ContainerKind, cs))[i].0 == key
  {
    i := MemberItem(cs, 0, key, Find(cs, key));
  }

  lemma {:induction false} MemberItem(cs: seq<Child>, n: nat, key: string, j: nat) returns (i: nat)
    requires j < |cs| && cs[j].key == key && cs[j].val.Some?
    ensures i < |NestedIn(None, ContainerKind, cs, n)| && NestedIn(None, ContainerKind, cs, n)[i].0 == key
  {
    hide Nested;
    var rest := NestedIn(None, ContainerKind, cs[1..], n + 1);
    if j == 0 {
      i := 0;
    } else {
      var r := MemberItem(cs[1..], n + 1, key, j - 1);
      if cs[0].val.None? {
        i := r;
      } else {
        var head := [(cs[0].key, cs[0].val.value)] + Nested(Some(cs[0].key), cs[0].val.value);
        i := |head| + r;
        assert NestedIn(None, ContainerKind, cs, n) == head + rest;
      }
    }
  }

  // A store into a container that anyone waits on serves the member assigned.
  lemma ContainerServes(d: Datum, sub: string, val: Value)
    requires IsContainer(d) && d.subNotifs
    ensures ServedBy(d, sub, val) != [] && ServedBy(d, sub, val)[0] == (sub, val)
  {
  }

  lemma ReferenceWaiters(s: State, id: int, sub: string, w: CRef)
    requires WaitersOk(s) && Reference(s, id, sub, w).Some?
    ensures WaitersOk(Reference(s, id, sub, w).value)
  {
    hide RefcIncr, Lookup, Subscriptable;
    var found := Lookup(s.tds[id].value.value, Some(sub));
    if found.Some? {
      var s0 := s.(refs := s.refs + [RefSet(w.id, w.sub, found.value, w.read, w.write, w.writeDecr)]);
      assert forall key :: key in s0.crefs ==> WaiterOk(s, key) && WaiterOk(s0, key);
      RefcIncrWaiters(s0, id, Refc(-1, 0), Acquire(Some(sub), w.read, w.write));
    } else {
      var s' := Reference(s, id, sub, w).value;
      forall key | key in s'.crefs
        ensures WaiterOk(s', key)
      {
        if key != (id, sub) {
          assert WaiterOk(s, key);
        } else if key in s.crefs {
          assert WaiterOk(s, key);
        }
      }
    }
  }

  // The two subscripts, whatever their spelling, name the same place.
  predicate SamePlace(v: Value, a: string, b: string)
    decreases v
  {
    match v
    case Compound(ContainerKind, _) => a == b
    case Compound(StructKind, cs) =>
      && a != "" && b != ""
      && var p, q := StructPop(a), StructPop(b);
         && p.Some? && q.Some? && p.value.index == q.value.index < |cs|
         && (p.value.rest.None? <==> q.value.rest.None?)
         && (p.value.rest.Some? ==>
               && cs[p.value.index].val.Some?
               && SamePlace(cs[p.value.index].val.value, p.value.rest.value, q.value.rest.value))
    case _ => false
  }

  // A field number means the same with and without the closing NUL.
  lemma TwoSpellings(cs: seq<Child>)
    requires cs != []
    ensures SamePlace(Compound(StructKind, cs), "0", ['0', '\0'])
  {
    assert Int64Of("0") == Some(0) by {
      assert "0"[..0] == "";
    }
    assert ['0', '\0'][..1] == "0";
    NoDot("0");
    NoDot(['0', '\0']);
  }

  lemma {:induction false} StoreThenLookupAlike(v: Value, sub: string, val: Option<Value>, at: string)
    requires StoreAt(v, sub, val).Stored? && SamePlace(v, sub, at)
    ensures Lookup(StoreAt(v, sub, val).value, Some(at)) == val
    decreases v
  {
    if v.kind.ContainerKind? {
      StoreThenLookup(v, sub, val);
    } else {
      hide StructPop;
      var p, q := StructPop(sub).value, StructPop(at).value;
      if p.rest.Some? {
        StoreThenLookupAlike(v.children[p.index].val.value, p.rest.value, val, q.rest.value);
      }
    }
  }

  // Exactly the waiters on served subscripts leave.
  lemma {:induction false} DrainAllLeaves(s: State, id: int, items: seq<(string, Value)>, at: string)
    requires Valid(s) && id in s.tds && s.tds[id].write > 0 && DrainAll(s, id, items).Some?
    ensures (id, at) in DrainAll(s, id, items).value.crefs <==>
            (id, at) in s.crefs && forall i :: 0 <= i < |items| ==> items[i].0 != at
    decreases |items|
  {
    hide Drain, Valid, ContentOf;
    if items != [] {
      var s1 := Drain(s, id, items[0].0, items[0].1).value;
      DrainFrame(s, id, items[0].0, items[0].1);
      DrainAllLeaves(s1, id, items[1..], at);
      assert forall i :: 0 <= i < |items| - 1 ==> items[1..][i] == items[i + 1];
      assert forall i :: 0 < i < |items| ==> items[i] == items[1..][i - 1];
    }
  }

  /**
    Waiters are found by the text of the subscript, wherever in nested structs it
    leads: one who waits for the place assigned, whose value a lookup now finds, is
    left waiting exactly when no subscript served is spelled as its own is.
   */
  lemma LeftWaitingExactlyWhen(s: State, id: int, sub: string, val: Value, drop: Refc, read: nat, write: nat, at: string)
    requires Valid(s) && Store(s, id, Some(sub), val, drop, read, write).Done?
    requires SamePlace(s.tds[id].value.value, sub, at) && (id, at) in s.crefs
    ensures var s' := Store(s, id, Some(sub), val, drop, read, write).state;
            var items := Items(s, id, Some(sub), val, read, write);
            && (id in s'.tds ==> s'.tds[id].value.Some? && Lookup(s'.tds[id].value.value, Some(at)).Some?)
            && ((id, at) in s'.crefs <==> forall i :: 0 <= i < |items| ==> items[i].0 != at)
  {
    var s1, s2 := StoreSteps(s, id, Some(sub), val, drop, read, write);
    AssignFrame(s, id, Some(sub), val, read, write);
    AssignValid(s, id, Some(sub), val, read, write);
    OpenAfterAssign(s, id, Some(sub), val, read, write);
    hide DrainAll, RefcIncr, Valid, StructPop, SamePlace, Items, StoreAt, Lookup, ContentOf, Store;
    StoreThenLookupAlike(s.tds[id].value.value, sub, Some(Stamp(val, read, write)), at);
    var items := Items(s, id, Some(sub), val, read, write);
    DrainAllServed(s1, id, items);
    DrainAllLeaves(s1, id, items, at);
    StillFound(s1.tds[id].value, s2.tds[id].value, at);
    if drop != NO_REFC {
      var s' := Store(s, id, Some(sub), val, drop, read, write).state;
      RefcIncrFrame(s2, id, Refc(-drop.r, -drop.w), NO_ACQUIRE);
      if id in s'.tds {
        RefcIncrKeepsContent(s2, id, Refc(-drop.r, -drop.w), NO_ACQUIRE);
        StillFound(s2.tds[id].value, s'.tds[id].value, at);
      }
    }
  }

  lemma StillFound(v: Option<Value>, w: Option<Value>, at: string)
    requires ContentOf(v) == ContentOf(w) && v.Some? && Lookup(v.value, Some(at)).Some?
    ensures w.Some? && Lookup(w.value, Some(at)).Some?
  {
    hide Lookup;
    SameContentLookup(v.value, w.value, Some(at));
    SameContentSome(Lookup(v.value, Some(at)), Lookup(w.value, Some(at)));
  }

  lemma SameContentSome(v: Option<Value>, w: Option<Value>)
    requires ContentOf(v) == ContentOf(w)
    ensures v.Some? <==> w.Some?
    ensures v.Some? ==> Content(v.value) == Content(w.value)
  {
  }

  // ---- Subscriptions ------------------------------------------------------

  datatype Subscribed = Subscribed(state: State, yes: bool)

  /** Subscribes to a datum's closing, or to the assignment of a subscript. */
  function Subscribe(s: State, id: int, sub: Option<string>, l: Listener): Option<Subscribed> {
    if id !in s.tds then None
    else
      var d := s.tds[id];
      if sub.None? then
        if d.write == 0 then Some(Subscribed(s, false))
        else Some(Subscribed(s.(tds := s.tds[id := d.(listeners := d.listeners + [l])]), true))
      else if d.value.None? || !Subscriptable(d.value.value, sub.value) then None
      else if Lookup(d.value.value, sub).Some? then Some(Subscribed(s, false))
      else
        var key := (id, sub.value);
        var ls := if key in s.ixl then s.ixl[key] else [];
        Some(Subscribed(s.(ixl := s.ixl[key := ls + [l]], tds := s.tds[id := d.(subNotifs := true)]), true))
  }

  /** A subscription is refused exactly when its event has happened, and counts once. */
  lemma SubscribeCounts(s: State, id: int, sub: Option<string>, l: Listener, x: int, at: Option<string>, m: Listener)
    requires Subscribe(s, id, sub, l).Some?
    ensures var r := Subscribe(s, id, sub, l).value;
            && (r.yes <==> if sub.None? then s.tds[id].write != 0 else Lookup(s.tds[id].value.value, sub).None?)
            && Outstanding(r.state, x, at, m) ==
               Outstanding(s, x, at, m) + if r.yes && x == id && at == sub && m == l then 1 else 0
  {
    hide Lookup, Subscriptable, ListenersOf;
    SubscribeAppends(s, id, sub, l, x, at);
    var ls := ListenersOf(s, x, at);
    assert multiset(ls + [l])[m] == multiset(ls)[m] + if m == l then 1 else 0;
  }

  lemma SubscribeAppends(s: State, id: int, sub: Option<string>, l: Listener, x: int, at: Option<string>)
    requires Subscribe(s, id, sub, l).Some?
    ensures var r := Subscribe(s, id, sub, l).value;
            && r.state.ranks == s.ranks
            && ListenersOf(r.state, x, at) ==
               if r.yes && x == id && at == sub then ListenersOf(s, x, at) + [l] else ListenersOf(s, x, at)
  {
    hide Lookup, Subscriptable;
  }

  lemma SubscribeKeeps(s: State, id: int, sub: Option<string>, l: Listener, x: int, k: Access)
    requires Valid(s) && WaitersOk(s) && Subscribe(s, id, sub, l).Some?
    ensures var s' := Subscribe(s, id, sub, l).value.state;
            Valid(s') && WaitersOk(s') && Clients(s', x, k) == Clients(s, x, k)
  {
    hide Lookup, Subscriptable, Cells, Waiting, InFlight, Pending;
    var s' := Subscribe(s, id, sub, l).value.state;
    CellsUpdate(s.tds, id, s'.tds[id], x, k);
    assert s.tds[id := s.tds[id]] == s.tds;
    forall key | key in s'.crefs
      ensures WaiterOk(s', key)
    {
      assert WaiterOk(s, key);
    }
  }

  // ---- Reserving a member ---------------------------------------------------

  datatype Inserted = Inserted(state: State, created: bool, present: bool)

  /** Reserves a member of a container unless it is reserved or assigned already. */
  function InsertAtomic(s: State, id: int, sub: string): Option<Inserted> {
    if id !in s.tds || !IsContainer(s.tds[id]) then None
    else
      var d := s.tds[id];
      match StoreAt(d.value.value, sub, None)
      case Stored(v) => Some(Inserted(s.(tds := s.tds[id := d.(value := Some(v))]), true, false))
      case DoubleWrite => Some(Inserted(s, false, Lookup(d.value.value, Some(sub)).Some?))
      case Invalid => None
  }

  predicate HasKey(s: State, id: int, key: string) {
    && id in s.tds && IsContainer(s.tds[id])
    && Find(s.tds[id].value.value.children, key) < |s.tds[id].value.value.children|
  }

  /** A reservation succeeds exactly when the member does not exist, and then it exists unassigned. */
  lemma InsertAtomicCreates(s: State, id: int, sub: string)
    requires InsertAtomic(s, id, sub).Some?
    ensures var r := InsertAtomic(s, id, sub).value;
            && (r.created <==> !HasKey(s, id, sub))
            && HasKey(r.state, id, sub)
            && (r.present <==> Lookup(s.tds[id].value.value, Some(sub)).Some?)
            && Lookup(r.state.tds[id].value.value, Some(sub)) == Lookup(s.tds[id].value.value, Some(sub))
  {
    var v := s.tds[id].value.value;
    if !HasKey(s, id, sub) {
      FindAppended(v.children, sub, None);
      StoreThenLookup(v, sub, None);
    }
  }

  lemma InsertAtomicKeeps(s: State, id: int, sub: string, x: int, k: Access)
    requires Valid(s) && WaitersOk(s) && InsertAtomic(s, id, sub).Some?
    ensures var s' := InsertAtomic(s, id, sub).value.state;
            Valid(s') && WaitersOk(s') && Clients(s', x, k) == Clients(s, x, k)
  {
    hide Lookup, Cells, Waiting, InFlight, Pending, StoreAt, Held;
    var s', v := InsertAtomic(s, id, sub).value.state, s.tds[id].value.value;
    if InsertAtomic(s, id, sub).value.created {
      CellsUpdate(s.tds, id, s'.tds[id], x, k);
      StoreHeld(v, sub, None, x, k);
      StoreKeepsKind(v, sub, None);
      InsertAtomicCreates(s, id, sub);
      forall key | key in s'.crefs
        ensures WaiterOk(s', key)
      {
        assert WaiterOk(s, key);
        if key.0 == id && key.1 != sub {
          OtherMembers(v, sub, None, key.1);
        }
      }
    }
  }

  lemma SameContentKeys(s: State, s': State, id: int, key: string)
    requires HasKey(s, id, key) && id in s'.tds && ContentOf(s'.tds[id].value) == ContentOf(s.tds[id].value)
    ensures HasKey(s', id, key)
  {
    var v, v' := s.tds[id].value.value, s'.tds[id].value.value;
    FindInStamp(v.children, key);
    FindInStamp(v'.children, key);
  }

  lemma StoreAtKeepsKeys(v: Value, sub: string, val: Option<Value>, key: string)
    requires v.Compound? && v.kind.ContainerKind? && StoreAt(v, sub, val).Stored?
    requires Find(v.children, key) < |v.children|
    ensures Find(StoreAt(v, sub, val).value.children, key) < |StoreAt(v, sub, val).value.children|
  {
    var cs, i, j := v.children, Find(v.children, sub), Find(v.children, key);
    if i < |cs| {
      FindUpdated(cs, i, Child(sub, val), key);
    } else {
      var after := cs + [Child(sub, val)];
      assert forall m :: 0 <= m < |cs| ==> after[m] == cs[m];
      FindUnique(after, key, j);
    }
  }

  /** While its container lives a member, once there, stays: it is created at most once. */
  lemma MembersStay(s: State, id: int, sub: Option<string>, val: Value, drop: Refc, read: nat, write: nat, j: int, key: string)
    requires Valid(s) && Store(s, id, sub, val, drop, read, write).Done? && HasKey(s, j, key)
    ensures var s' := Store(s, id, sub, val, drop, read, write).state; j in s'.tds ==> HasKey(s', j, key)
  {
    hide Assign, DrainAll, Items, RefcIncr, Store, Valid, Served, HasKey;
    var s' := Store(s, id, sub, val, drop, read, write).state;
    var s1, s2 := StoreSteps(s, id, sub, val, drop, read, write);
    AssignValid(s, id, sub, val, read, write);
    OpenAfterAssign(s, id, sub, val, read, write);
    DrainAllServed(s1, id, Items(s, id, sub, val, read, write));
    AssignKeepsKeys(s, id, sub, val, read, write, j, key);
    ServedKeepsKeys(s1, s2, id, j, key);
    if drop != NO_REFC {
      RefcIncrKeepsKeys(s2, id, Refc(-drop.r, -drop.w), NO_ACQUIRE, j, key);
    }
  }

  lemma AssignKeepsKeys(s: State, id: int, sub: Option<string>, val: Value, read: nat, write: nat, j: int, key: string)
    requires id in s.tds && Assign(s, id, sub, val, read, write).Done? && HasKey(s, j, key)
    ensures HasKey(Assign(s, id, sub, val, read, write).state, j, key)
  {
    hide StoreAt, Stamp, Merge;
    if j == id && sub.None? {
      MergeKeepsMembers(s.tds[id].value.value, Stamp(val, read, write), key);
      MergeKeepsKind(s.tds[id].value.value, Stamp(val, read, write));
    } else if j == id {
      StoreAtKeepsKeys(s.tds[id].value.value, sub.value, Some(Stamp(val, read, write)), key);
      StoreKeepsKind(s.tds[id].value.value, sub.value, Some(Stamp(val, read, write)));
    }
  }

  lemma MergeKeepsKind(v: Value, w: Value)
    requires Merge(v, w).Some?
    ensures v.Compound? && Merge(v, w).value.Compound? && Merge(v, w).value.kind == v.kind
    ensures v.kind.ContainerKind? ==> |v.children| <= |Merge(v, w).value.children|
  {
  }

  lemma ServedKeepsKeys(s: State, s': State, id: int, j: int, key: string)
    requires Served(s, s', id) && HasKey(s, j, key)
    ensures HasKey(s', j, key)
  {
    hide Valid, ContentOf;
    if j == id {
      SameContentKeys(s, s', id, key);
    } else {
      SameElsewhere(s, s', id, j);
    }
  }

  lemma RefcIncrKeepsKeys(s: State, id: int, change: Refc, a: Acquire, j: int, key: string)
    requires RefcIncr(s, id, change, a).Some? && HasKey(s, j, key)
    ensures var s' := RefcIncr(s, id, change, a).value; j in s'.tds ==> HasKey(s', j, key)
  {
    var s' := RefcIncr(s, id, change, a).value;
    RefcIncrFrame(s, id, change, a);
    if j != id {
      SameElsewhere(s, s', id, j);
    } else if id in s'.tds {
      RefcIncrKeepsContent(s, id, change, a);
      SameContentKeys(s, s', id, key);
    }
  }

  // ---- Retrieving and creating ----------------------------------------------

  datatype Retrieved = Retrieved(state: State, value: Value)

  function Retrieve(s: State, id: int, sub: Option<string>, decr: Refc, read: nat, write: nat): Option<Retrieved> {
    if id !in s.tds || s.tds[id].value.None? then None
    else
      var found := Lookup(s.tds[id].value.value, sub);
      if found.None? then None
      else if decr == NO_REFC && read == 0 && write == 0 then Some(Retrieved(s, found.value))
      else
        var s' := RefcIncr(s, id, Refc(-decr.r, -decr.w), Acquire(sub, read, write));
        if s'.None? then None else Some(Retrieved(s'.value, found.value))
  }

  /** A reader gives up the counts it drops and gains those it asked for on every reference it reads. */
  lemma RetrieveBalances(s: State, id: int, sub: Option<string>, decr: Refc, read: nat, write: nat, x: int, k: Access)
    requires Valid(s) && Retrieve(s, id, sub, decr, read, write).Some?
    ensures var r := Retrieve(s, id, sub, decr, read, write).value;
            Clients(r.state, x, k) ==
            Clients(s, x, k) - (if x == id then decr.Of(k) else 0) + Refc(read, write).Of(k) * Refs(r.value, x)
            + Surplus(s, id, sub, read, write, x, k)
  {
    hide RefcIncr, Clients, Refs, RefsAt, Lookup;
    TimesDifference(Refc(read, write).Of(k), RefsAt(s.tds[id].value.value, sub, x),
                    Refs(Lookup(s.tds[id].value.value, sub).value, x));
    if decr != NO_REFC || read != 0 || write != 0 {
      RefcIncrBalances(s, id, Refc(-decr.r, -decr.w), Acquire(sub, read, write), x, k);
    }
  }

  function EmptyValue(kind: Option<Kind>, fields: nat): Option<Value> {
    if kind.None? then None
    else Some(Compound(kind.value, if kind.value.StructKind? then seq(fields, i => Child("", None)) else []))
  }

  /** Creates a datum; a compound one starts out empty. */
  function Create(s: State, id: int, kind: Option<Kind>, fields: nat, read: int, write: int, releaseWrite: bool): Option<State> {
    if id == 0 || id in s.tds then None
    else if read <= 0 && write <= 0 then Some(s)
    else if read < 0 || write < 0 then None
    else Some(s.(tds := s.tds[id := Datum(EmptyValue(kind, fields), [], read, write, releaseWrite, false)]))
  }

  lemma {:induction false} EmptyHeld(cs: seq<Child>, x: int, k: Access)
    requires forall i :: 0 <= i < |cs| ==> cs[i].val.None?
    ensures HeldIn(cs, x, k) == 0
  {
    if cs != [] {
      EmptyHeld(cs[1..], x, k);
    }
  }

  /** The creator of a datum owns its counts, all of them and nothing else. */
  lemma CreateBalances(s: State, id: int, kind: Option<Kind>, fields: nat, read: int, write: int, releaseWrite: bool, x: int, k: Access)
    requires Valid(s) && Create(s, id, kind, fields, read, write, releaseWrite).Some?
    ensures var s' := Create(s, id, kind, fields, read, write, releaseWrite).value;
            && Valid(s')
            && Clients(s', x, k) ==
               Clients(s, x, k) + if x == id && (read > 0 || write > 0) then Refc(read, write).Of(k) else 0
  {
    hide Cells, Waiting, InFlight, Pending;
    var s' := Create(s, id, kind, fields, read, write, releaseWrite).value;
    if read > 0 || write > 0 {
      CellsUpdate(s.tds, id, s'.tds[id], x, k);
      if kind.Some? {
        EmptyHeld(s'.tds[id].value.value.children, x, k);
      }
    }
  }
}
