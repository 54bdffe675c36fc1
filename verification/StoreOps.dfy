/**
  The operations clients ask of the data store: create, store, reference a
  container member, subscribe, reserve, retrieve.  Each is proved against the
  ledger of `DataStore` (which counts of which datum the clients own before
  and after), and against what waiters and listeners are promised.
 */
module StoreOps {
  import opened Options
  import opened Parse
  import opened Refcount
  import opened Values
  import opened DataStore

  // ---- Serving every subscript an assignment covers -----------------------

  function Concat(sub: Option<string>, component: string): string {
    if sub.None? || sub.value == "" then component
    else sub.value[..|sub.value| - 1] + "." + component
  }

  // The subscripts below `sub` that a compound value assigns.
  function Nested(sub: Option<string>, v: Value): seq<(string, Value)>
    decreases v
  {
    match v
    case Compound(MultisetKind, _) => []
    case Compound(kind, cs) => NestedIn(sub, kind, cs, 0)
    case _ => []
  }

  function NestedIn(sub: Option<string>, kind: Kind, cs: seq<Child>, i: nat): seq<(string, Value)>
    decreases cs
  {
    if cs == [] then []
    else
      var rest := NestedIn(sub, kind, cs[1..], i + 1);
      if cs[0].val.None? then rest
      else
        var child := Concat(sub, if kind.StructKind? then ChildSub(None, i) else cs[0].key);
        [(child, cs[0].val.value)] + Nested(Some(child), cs[0].val.value) + rest
  }

  // Serves the subscripts in turn, stopping if the datum goes.
  function DrainAll(s: State, id: int, items: seq<(string, Value)>): Option<State>
    decreases |items|
  {
    if items == [] || id !in s.tds then Some(s)
    else
      var s1 := Drain(s, id, items[0].0, items[0].1);
      if s1.None? then None else DrainAll(s1.value, id, items[1..])
  }

  // The store finds, under every waited-for subscript, what it gives away there.
  predicate Resolved(s: State, id: int, items: seq<(string, Value)>) {
    && id in s.tds && s.tds[id].value.Some? && WellKeyed(s.tds[id].value.value)
    && forall i :: 0 <= i < |items| && (id, items[i].0) in s.crefs ==>
         ContentOf(Lookup(s.tds[id].value.value, Some(items[i].0))) == Some(Content(items[i].1))
  }

  lemma SameContentLookup(v: Value, w: Value, sub: Option<string>)
    requires Content(v) == Content(w)
    ensures ContentOf(Lookup(v, sub)) == ContentOf(Lookup(w, sub))
  {
    LookupContent(v, sub);
    LookupContent(w, sub);
  }

  lemma StaysResolved(s: State, s': State, id: int, items: seq<(string, Value)>)
    requires Resolved(s, id, items) && items != []
    requires id in s'.tds && ContentOf(s'.tds[id].value) == ContentOf(s.tds[id].value)
    requires s'.crefs.Keys <= s.crefs.Keys
    ensures Resolved(s', id, items[1..])
  {
    hide Content, Lookup, WellKeyed;
    SameContentWellKeyed(s.tds[id].value.value, s'.tds[id].value.value);
    var rest := items[1..];
    forall i | 0 <= i < |rest| && (id, rest[i].0) in s'.crefs
      ensures ContentOf(Lookup(s'.tds[id].value.value, Some(rest[i].0))) == Some(Content(rest[i].1))
    {
      assert rest[i] == items[i + 1];
      SameContentLookup(s.tds[id].value.value, s'.tds[id].value.value, Some(rest[i].0));
    }
  }

  // What serving many subscripts leaves alone.
  ghost predicate Served(s: State, s': State, id: int) {
    && Valid(s') && s'.tds - {id} == s.tds - {id}
    && s'.crefs.Keys <= s.crefs.Keys && (forall q :: q in s'.crefs ==> s'.crefs[q] == s.crefs[q])
    && (forall q: Key :: q in s.crefs && q.0 != id ==> q in s'.crefs)
    && s.refs <= s'.refs && s.refcs <= s'.refcs
    && s'.sentChanges == s.sentChanges && s'.sentStores == s.sentStores
    && id in s'.tds && id in s.tds && s'.tds[id].write == s.tds[id].write
    && ContentOf(s'.tds[id].value) == ContentOf(s.tds[id].value) && s'.tds[id].subNotifs == s.tds[id].subNotifs
  }

  lemma ServedTrans(a: State, b: State, c: State, id: int)
    requires Served(a, b, id) && Served(b, c, id)
    ensures Served(a, c, id)
  {
    hide Valid, ContentOf;
  }

  lemma DrainServed(s: State, id: int, sub: string, val: Value)
    requires Valid(s) && id in s.tds && s.tds[id].write > 0 && Drain(s, id, sub, val).Some?
    ensures Served(s, Drain(s, id, sub, val).value, id)
  {
    DrainFrame(s, id, sub, val);
    hide Valid, ContentOf, Drain;
  }

  /** An open datum outlives the serving of its waiters. */
  lemma {:induction false} DrainAllServed(s: State, id: int, items: seq<(string, Value)>)
    requires Valid(s) && id in s.tds && s.tds[id].write > 0 && DrainAll(s, id, items).Some?
    ensures Served(s, DrainAll(s, id, items).value, id)
    decreases |items|
  {
    hide Drain, Valid, ContentOf;
    if items != [] {
      var s1 := Drain(s, id, items[0].0, items[0].1).value;
      DrainServed(s, id, items[0].0, items[0].1);
      DrainAllServed(s1, id, items[1..]);
      ServedTrans(s, s1, DrainAll(s1, id, items[1..]).value, id);
    }
  }

  // What waiters ask for beyond what the store hands out, over all subscripts served.
  function DrainAllShort(s: State, id: int, items: seq<(string, Value)>, x: int, k: Access): int
    decreases |items|
  {
    if items == [] || id !in s.tds then 0
    else
      var s1 := Drain(s, id, items[0].0, items[0].1);
      Shortfall(s, id, items[0].0, items[0].1, x, k)
      + if s1.None? then 0 else DrainAllShort(s1.value, id, items[1..], x, k)
  }

  lemma {:induction false} DrainAllBalances(s: State, id: int, items: seq<(string, Value)>, x: int, k: Access)
    requires Valid(s) && id in s.tds && s.tds[id].write > 0 && DrainAll(s, id, items).Some?
    ensures Clients(DrainAll(s, id, items).value, x, k) == Clients(s, x, k) - DrainAllShort(s, id, items, x, k)
    decreases |items|
  {
    hide Drain, Valid, ContentOf, Clients, Shortfall;
    if items != [] {
      var s1 := Drain(s, id, items[0].0, items[0].1).value;
      DrainServed(s, id, items[0].0, items[0].1);
      DrainBalances(s, id, items[0].0, items[0].1, x, k);
      DrainAllBalances(s1, id, items[1..], x, k);
    }
  }

  /** Nothing is short when every waited-for subscript resolves. */
  lemma {:induction false} ResolvedIsNotShort(s: State, id: int, items: seq<(string, Value)>, x: int, k: Access)
    requires Valid(s) && Resolved(s, id, items) && s.tds[id].write > 0
    ensures DrainAllShort(s, id, items, x, k) == 0
    decreases |items|
  {
    hide Drain, Valid, Content, Lookup, Shortfall;
    if items != [] {
      if (id, items[0].0) in s.crefs {
        NoShortfall(s, id, items[0].0, items[0].1, x, k);
      } else {
        NobodyWaits(s, id, items[0].0, items[0].1, x, k);
      }
      if Drain(s, id, items[0].0, items[0].1).Some? {
        var s1 := Drain(s, id, items[0].0, items[0].1).value;
        DrainServed(s, id, items[0].0, items[0].1);
        StaysResolved(s, s1, id, items);
        ResolvedIsNotShort(s1, id, items[1..], x, k);
      }
    }
  }

  lemma NobodyWaits(s: State, id: int, sub: string, val: Value, x: int, k: Access)
    requires (id, sub) !in s.crefs
    ensures Shortfall(s, id, sub, val, x, k) == 0
  {
  }

  // Afterwards nobody waits on any of the subscripts served.
  lemma {:induction false} DrainAllEmpties(s: State, id: int, items: seq<(string, Value)>, i: nat)
    requires Valid(s) && id in s.tds && s.tds[id].write > 0 && DrainAll(s, id, items).Some? && i < |items|
    ensures (id, items[i].0) !in DrainAll(s, id, items).value.crefs
    decreases |items|
  {
    hide Drain, Valid, ContentOf;
    var s1 := Drain(s, id, items[0].0, items[0].1).value;
    DrainServed(s, id, items[0].0, items[0].1);
    if i > 0 {
      DrainAllEmpties(s1, id, items[1..], i - 1);
    } else {
      DrainFrame(s, id, items[0].0, items[0].1);
      DrainAllServed(s1, id, items[1..]);
    }
  }

  lemma {:induction false} DrainAllNotifiesOnce(s: State, id: int, items: seq<(string, Value)>, x: int, at: Option<string>, l: Listener)
    requires Valid(s) && id in s.tds && s.tds[id].write > 0 && DrainAll(s, id, items).Some?
    ensures Outstanding(DrainAll(s, id, items).value, x, at, l) == Outstanding(s, x, at, l)
    decreases |items|
  {
    hide Drain, Valid, ContentOf, Outstanding;
    if items != [] {
      var s1 := Drain(s, id, items[0].0, items[0].1).value;
      DrainServed(s, id, items[0].0, items[0].1);
      DrainNotifiesOnce(s, id, items[0].0, items[0].1, x, at, l);
      DrainAllNotifiesOnce(s1, id, items[1..], x, at, l);
    }
  }

  // ---- Store --------------------------------------------------------------

  datatype Code = NotFound | AlreadyWritten | Rejected
  datatype Outcome = Done(state: State) | Failed(code: Code)

  predicate EndsInContainer(v: Value, sub: string)
    decreases v
  {
    match v
    case Compound(ContainerKind, _) => true
    case Compound(StructKind, cs) =>
      if sub == "" then false
      else
        var p := StructPop(sub);
        if p.None? || p.value.rest.None? || p.value.index >= |cs| || cs[p.value.index].val.None? then false
        else EndsInContainer(cs[p.value.index].val.value, p.value.rest.value)
    case _ => false
  }

  // The subscripts an assignment serves: none when it appends to a multiset,
  // or when nobody ever waited on a member of this container.
  function ServedBy(d: Datum, sub: string, val: Value): seq<(string, Value)> {
    if d.value.None? || !Addressed(d.value.value, sub) then []
    else if EndsInContainer(d.value.value, sub) && !d.subNotifs then []
    else [(sub, val)] + Nested(Some(sub), val)
  }

  // The assignment itself: each cell of the value gets the counts supplied.  At
  // the root a scalar or reference is replaced and a compound value merged.
  function Assign(s: State, id: int, sub: Option<string>, val: Value, read: nat, write: nat): Outcome
    requires id in s.tds
  {
    var d := s.tds[id];
    if d.write <= 0 then Failed(AlreadyWritten)
    else if sub.None? then
      var v := if d.value.None? || !d.value.value.Compound? then (if val.Compound? then None else Some(Stamp(val, read, write)))
               else Merge(d.value.value, Stamp(val, read, write));
      if v.None? then Failed(Rejected) else Done(s.(tds := s.tds[id := d.(value := v)]))
    else if d.value.None? then Failed(Rejected)
    else
      match StoreAt(d.value.value, sub.value, Some(Stamp(val, read, write)))
      case DoubleWrite => Failed(AlreadyWritten)
      case Invalid => Failed(Rejected)
      case Stored(v) => Done(s.(tds := s.tds[id := d.(value := Some(v))]))
  }

  // A store at the root serves every subscript the datum then has, if anyone
  // ever waited on one.
  function Items(s: State, id: int, sub: Option<string>, val: Value, read: nat, write: nat): seq<(string, Value)>
    requires id in s.tds
  {
    var d := s.tds[id];
    if sub.Some? then ServedBy(d, sub.value, val)
    else
      var v := Assign(s, id, sub, val, read, write);
      if !d.subNotifs || v.Failed? || v.state.tds[id].value.None? then []
      else Nested(None, v.state.tds[id].value.value)
  }

  /**
    Stores a value whose cells get `read` and `write` counts each, serves the
    waiters on every subscript it assigns, then drops the counts in `drop`.
   */
  function Store(s: State, id: int, sub: Option<string>, val: Value, drop: Refc, read: nat, write: nat): Outcome {
    if id !in s.tds then Failed(NotFound)
    else
      var a := Assign(s, id, sub, val, read, write);
      if a.Failed? then a
      else
        var s2 := DrainAll(a.state, id, Items(s, id, sub, val, read, write));
        if s2.None? then Failed(Rejected)
        else if drop == NO_REFC then Done(s2.value)
        else
          var s3 := RefcIncr(s2.value, id, Refc(-drop.r, -drop.w), NO_ACQUIRE);
          if s3.None? then Failed(Rejected) else Done(s3.value)
  }

  lemma AssignFrame(s: State, id: int, sub: Option<string>, val: Value, read: nat, write: nat)
    requires id in s.tds && Assign(s, id, sub, val, read, write).Done?
    ensures var s' := Assign(s, id, sub, val, read, write).state;
            && s' == s.(tds := s.tds[id := s'.tds[id]])
            && s'.tds[id] == s.tds[id].(value := s'.tds[id].value)
            && s'.tds[id].value.Some? && s.tds[id].write > 0
  {
    hide StoreAt, Stamp;
  }

  lemma AssignValid(s: State, id: int, sub: Option<string>, val: Value, read: nat, write: nat)
    requires Valid(s) && id in s.tds && Assign(s, id, sub, val, read, write).Done?
    ensures Valid(Assign(s, id, sub, val, read, write).state)
  {
    hide StoreAt, Stamp, Merge;
  }

  // Storing this brings in no key that is there already.
  predicate FreshKeys(s: State, id: int, sub: Option<string>, val: Value) {
    sub.None? && id in s.tds && s.tds[id].value.Some? ==> DisjointKeys(s.tds[id].value.value, val)
  }

  /** Keys stay distinct exactly when the store brings in none that is there already. */
  lemma AssignKeys(s: State, id: int, sub: Option<string>, val: Value, read: nat, write: nat)
    requires KeysOk(s) && id in s.tds && WellKeyed(val) && Assign(s, id, sub, val, read, write).Done?
    ensures KeysOk(Assign(s, id, sub, val, read, write).state) <==> FreshKeys(s, id, sub, val)
  {
    hide StoreAt, WellKeyed, Merge, DisjointKeys, Stamp;
    var d, d' := s.tds[id], Assign(s, id, sub, val, read, write).state.tds[id];
    StampWellKeyed(val, read, write);
    if sub.Some? {
      StoreWellKeyed(d.value.value, sub.value, Some(Stamp(val, read, write)));
    } else if d.value.Some? && d.value.value.Compound? {
      MergeWellKeyed(d.value.value, Stamp(val, read, write));
      StampDisjoint(d.value.value, val, read, write);
      assert KeysOk(Assign(s, id, sub, val, read, write).state) ==> WellKeyed(d'.value.value);
    } else {
      LeafDisjoint(d, val);
    }
  }

  lemma LeafDisjoint(d: Datum, val: Value)
    requires d.value.Some? ==> !d.value.value.Compound?
    ensures d.value.Some? ==> DisjointKeys(d.value.value, val)
  {
  }

  lemma StampDisjoint(v: Value, val: Value, read: nat, write: nat)
    ensures DisjointKeys(v, Stamp(val, read, write)) <==> DisjointKeys(v, val)
  {
    if val.Compound? {
      var w := StampIn(val.children, read, write);
      assert forall i :: 0 <= i < |w| ==> w[i].key == val.children[i].key;
    }
  }

  // Counts owned by what a store at the root replaces: a scalar or reference, or
  // the struct fields that come with a value.
  function Overwritten(s: State, id: int, sub: Option<string>, val: Value, x: int, k: Access): int {
    if sub.Some? || id !in s.tds || s.tds[id].value.None? then 0
    else if s.tds[id].value.value.Compound? then Lost(s.tds[id].value.value, val, x, k)
    else DatumHeld(s.tds[id], x, k)
  }

  lemma {:induction false} LostStamped(cs: seq<Child>, ws: seq<Child>, read: nat, write: nat, x: int, k: Access)
    requires |cs| == |ws|
    ensures LostIn(cs, StampIn(ws, read, write), x, k) == LostIn(cs, ws, x, k)
  {
    if cs != [] {
      assert StampIn(ws, read, write)[1..] == StampIn(ws[1..], read, write);
      LostStamped(cs[1..], ws[1..], read, write, x, k);
    }
  }

  lemma LostIsStamped(v: Value, val: Value, read: nat, write: nat, x: int, k: Access)
    ensures Lost(v, Stamp(val, read, write), x, k) == Lost(v, val, x, k)
  {
    if v.Compound? && val.Compound? && |v.children| == |val.children| {
      LostStamped(v.children, val.children, read, write, x, k);
    }
  }

  lemma AssignBalances(s: State, id: int, sub: Option<string>, val: Value, read: nat, write: nat, x: int, k: Access)
    requires id in s.tds && Assign(s, id, sub, val, read, write).Done?
    ensures Clients(Assign(s, id, sub, val, read, write).state, x, k) ==
            Clients(s, x, k) - Refc(read, write).Of(k) * Refs(val, x) + Overwritten(s, id, sub, val, x, k)
  {
    hide StoreAt, Stamp, Merge, Lost, Clients, Pending, Refs, Held;
    var s', d := Assign(s, id, sub, val, read, write).state, s.tds[id];
    assert s.refcs + [] == s.refcs;
    NothingPending(x, k);
    UpdatedLedger(s, s', id, s'.tds[id], [], x, k);
    StampHeld(val, read, write, x, k);
    if sub.Some? {
      StoreHeld(d.value.value, sub.value, Some(Stamp(val, read, write)), x, k);
    } else if d.value.Some? && d.value.value.Compound? {
      MergeHeld(d.value.value, Stamp(val, read, write), x, k);
      LostIsStamped(d.value.value, val, read, write, x, k);
    }
  }

  // Every store that succeeds is an assignment, a round of serving, and a drop.
  lemma StoreSteps(s: State, id: int, sub: Option<string>, val: Value, drop: Refc, read: nat, write: nat) returns (s1: State, s2: State)
    requires Store(s, id, sub, val, drop, read, write).Done?
    ensures id in s.tds && Assign(s, id, sub, val, read, write) == Done(s1)
    ensures DrainAll(s1, id, Items(s, id, sub, val, read, write)) == Some(s2)
    ensures var s' := Store(s, id, sub, val, drop, read, write).state;
            s' == s2 || RefcIncr(s2, id, Refc(-drop.r, -drop.w), NO_ACQUIRE) == Some(s')
    ensures drop == NO_REFC <==> Store(s, id, sub, val, drop, read, write).state == s2
  {
    hide Assign, DrainAll, Items, RefcIncr;
    s1 := Assign(s, id, sub, val, read, write).state;
    s2 := DrainAll(s1, id, Items(s, id, sub, val, read, write)).value;
    if drop != NO_REFC {
      DropChanges(s2, id, drop);
    }
  }

  lemma DropChanges(s: State, id: int, drop: Refc)
    requires drop != NO_REFC && RefcIncr(s, id, Refc(-drop.r, -drop.w), NO_ACQUIRE).Some?
    ensures RefcIncr(s, id, Refc(-drop.r, -drop.w), NO_ACQUIRE).value != s
  {
    var c := Refc(-drop.r, -drop.w);
    RefcIncrFrame(s, id, c, NO_ACQUIRE);
    if id in RefcIncr(s, id, c, NO_ACQUIRE).value.tds {
      RefcIncrKeepsContent(s, id, c, NO_ACQUIRE);
    }
  }

  // What the waiters a store serves ask for beyond what it hands out.
  function StoreShort(s: State, id: int, sub: Option<string>, val: Value, read: nat, write: nat, x: int, k: Access): int {
    if id !in s.tds || Assign(s, id, sub, val, read, write).Failed? then 0
    else DrainAllShort(Assign(s, id, sub, val, read, write).state, id, Items(s, id, sub, val, read, write), x, k)
  }

  /**
    Storing costs the clients the counts they drop, those given to the new cells
    and any shortfall of the waiters served, and nothing else.  A store that
    overwrites the root credits them with what the old cells owned, which
    nobody holds any longer.
   */
  lemma StoreBalances(s: State, id: int, sub: Option<string>, val: Value, drop: Refc, read: nat, write: nat, x: int, k: Access)
    requires Valid(s) && Store(s, id, sub, val, drop, read, write).Done?
    ensures Clients(Store(s, id, sub, val, drop, read, write).state, x, k) ==
            Clients(s, x, k) - (if x == id then drop.Of(k) else 0)
            - Refc(read, write).Of(k) * Refs(val, x) + Overwritten(s, id, sub, val, x, k)
            - StoreShort(s, id, sub, val, read, write, x, k)
  {
    hide Clients, Assign, DrainAll, DrainAllShort, Items, RefcIncr, Overwritten, Refs, Store, Valid, DatumRefsAt;
    var s1, s2 := StoreSteps(s, id, sub, val, drop, read, write);
    AssignBalances(s, id, sub, val, read, write, x, k);
    AssignValid(s, id, sub, val, read, write);
    OpenAfterAssign(s, id, sub, val, read, write);
    DrainAllBalances(s1, id, Items(s, id, sub, val, read, write), x, k);
    ValidAfterServing(s1, id, Items(s, id, sub, val, read, write));
    if drop != NO_REFC {
      RefcIncrBalances(s2, id, Refc(-drop.r, -drop.w), NO_ACQUIRE, x, k);
    }
  }

  lemma OpenAfterAssign(s: State, id: int, sub: Option<string>, val: Value, read: nat, write: nat)
    requires id in s.tds && Assign(s, id, sub, val, read, write).Done?
    ensures var s' := Assign(s, id, sub, val, read, write).state; id in s'.tds && s'.tds[id].write > 0
  {
    AssignFrame(s, id, sub, val, read, write);
  }

  lemma ValidAfterServing(s: State, id: int, items: seq<(string, Value)>)
    requires Valid(s) && id in s.tds && s.tds[id].write > 0 && DrainAll(s, id, items).Some?
    ensures var s' := DrainAll(s, id, items).value; Valid(s') && id in s'.tds && s'.tds[id].write > 0
  {
    DrainAllServed(s, id, items);
  }

  lemma StoreValid(s: State, id: int, sub: Option<string>, val: Value, drop: Refc, read: nat, write: nat)
    requires Valid(s) && Store(s, id, sub, val, drop, read, write).Done?
    ensures Valid(Store(s, id, sub, val, drop, read, write).state)
  {
    hide Assign, DrainAll, Items, RefcIncr, Store, Valid;
    var s1, s2 := StoreSteps(s, id, sub, val, drop, read, write);
    AssignValid(s, id, sub, val, read, write);
    OpenAfterAssign(s, id, sub, val, read, write);
    ValidAfterServing(s1, id, Items(s, id, sub, val, read, write));
    if drop != NO_REFC {
      RefcIncrValid(s2, id, Refc(-drop.r, -drop.w), NO_ACQUIRE);
    }
  }

  lemma {:induction false} StampContent(val: Value, read: nat, write: nat)
    ensures Content(Stamp(val, read, write)) == Content(val)
    decreases val
  {
    if val.Compound? {
      var cs := val.children;
      forall i | 0 <= i < |cs|
        ensures StampBy(StampBy(cs[i], read, write), 0, 0) == StampBy(cs[i], 0, 0)
      {
        if cs[i].val.Some? {
          StampContent(cs[i].val.value, read, write);
        }
      }
      assert StampIn(StampIn(cs, read, write), 0, 0) == StampIn(cs, 0, 0);
    }
  }

  lemma LeafStoreResolves(s: State, id: int, sub: string, val: Value, read: nat, write: nat)
    requires KeysOk(s) && id in s.tds && !val.Compound? && Assign(s, id, Some(sub), val, read, write).Done?
    ensures Resolved(Assign(s, id, Some(sub), val, read, write).state, id, Items(s, id, Some(sub), val, read, write))
  {
    LeafWellKeyed(val);
    AssignKeys(s, id, Some(sub), val, read, write);
    hide Addressed, StoreAt, EndsInContainer, Lookup, WellKeyed;
    if Addressed(s.tds[id].value.value, sub) {
      StoreThenLookup(s.tds[id].value.value, sub, Some(Stamp(val, read, write)));
      StampContent(val, read, write);
      assert Nested(Some(sub), val) == [];
      assert [(sub, val)] + [] == [(sub, val)];
    }
  }

  /** Storing a scalar or a reference never leaves a waiter short. */
  lemma LeafStoreIsNotShort(s: State, id: int, sub: Option<string>, val: Value, read: nat, write: nat, x: int, k: Access)
    requires Valid(s) && KeysOk(s) && !val.Compound?
    ensures StoreShort(s, id, sub, val, read, write, x, k) == 0
  {
    hide Assign, DrainAllShort, Items, Valid, Resolved;
    if id in s.tds && Assign(s, id, sub, val, read, write).Done? {
      if sub.None? {
        LeafAtRoot(s, id, val, read, write);
        NoneShort(Assign(s, id, sub, val, read, write).state, id, x, k);
      } else {
        LeafStoreResolves(s, id, sub.value, val, read, write);
        AssignValid(s, id, sub, val, read, write);
        OpenAfterAssign(s, id, sub, val, read, write);
        ResolvedIsNotShort(Assign(s, id, sub, val, read, write).state, id, Items(s, id, sub, val, read, write), x, k);
      }
    }
  }

  lemma LeafAtRoot(s: State, id: int, val: Value, read: nat, write: nat)
    requires id in s.tds && !val.Compound?
    ensures Items(s, id, None, val, read, write) == []
  {
  }

  lemma NoneShort(s: State, id: int, x: int, k: Access)
    ensures DrainAllShort(s, id, [], x, k) == 0
  {
  }

  lemma LeafWellKeyed(val: Value)
    requires !val.Compound?
    ensures WellKeyed(val)
  {
  }

  /** No store loses or repeats a notification. */
  lemma StoreNotifiesOnce(s: State, id: int, sub: Option<string>, val: Value, drop: Refc, read: nat, write: nat, x: int, at: Option<string>, l: Listener)
    requires Valid(s) && Store(s, id, sub, val, drop, read, write).Done?
    ensures Outstanding(Store(s, id, sub, val, drop, read, write).state, x, at, l) == Outstanding(s, x, at, l)
  {
    hide Assign, DrainAll, Items, RefcIncr, Store, Valid, Outstanding;
    var s1, s2 := StoreSteps(s, id, sub, val, drop, read, write);
    AssignValid(s, id, sub, val, read, write);
    OpenAfterAssign(s, id, sub, val, read, write);
    AssignKeepsListeners(s, id, sub, val, read, write, x, at, l);
    DrainAllNotifiesOnce(s1, id, Items(s, id, sub, val, read, write), x, at, l);
    ValidAfterServing(s1, id, Items(s, id, sub, val, read, write));
    if drop != NO_REFC {
      RefcIncrNotifiesOnce(s2, id, Refc(-drop.r, -drop.w), NO_ACQUIRE, x, at, l);
    }
  }

  lemma AssignKeepsListeners(s: State, id: int, sub: Option<string>, val: Value, read: nat, write: nat, x: int, at: Option<string>, l: Listener)
    requires id in s.tds && Assign(s, id, sub, val, read, write).Done?
    ensures Outstanding(Assign(s, id, sub, val, read, write).state, x, at, l) == Outstanding(s, x, at, l)
  {
    AssignFrame(s, id, sub, val, read, write);
    hide Assign;
  }
}
