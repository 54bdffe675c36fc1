/**
  Where conservation fails, and exactly when: waiters served below a container
  inside a stored value, roots overwritten, and references forwarded with other
  than one write count.  Each failure is shown by a run from the empty store.
 */
module Shortfalls {
  import opened Options
  import opened Parse
  import opened Refcount
  import opened Values
  import opened DataStore
  import opened StoreOps
  import opened ClientOps
  import opened Cascade
  import opened StoreRuns

  // ---- What a store leaves short, from the state before it ----------------------

  // What waiters ask for beyond what value v has under their subscripts; the
  // waiters on a subscript are served once.
  function Unmet(v: Value, crefs: map<Key, seq<CRef>>, id: int, items: seq<(string, Value)>, x: int, k: Access): int
    decreases |items|
  {
    if items == [] then 0
    else
      var key := (id, items[0].0);
      (if key in crefs then Wanted(crefs[key], k) * (Refs(items[0].1, x) - RefsAt(v, Some(items[0].0), x)) else 0)
      + Unmet(v, crefs - {key}, id, items[1..], x, k)
  }

  // What waiters ask for of the values they are served with.
  function Asked(crefs: map<Key, seq<CRef>>, id: int, items: seq<(string, Value)>, x: int, k: Access): nat
    decreases |items|
  {
    if items == [] then 0
    else
      var key := (id, items[0].0);
      (if key in crefs then Wanted(crefs[key], k) * Refs(items[0].1, x) else 0)
      + Asked(crefs - {key}, id, items[1..], x, k)
  }

  lemma {:induction false} KeyedContent(cs: seq<Child>, key: string, x: int)
    ensures RefsKeyed(StampIn(cs, 0, 0), key, x) == RefsKeyed(cs, key, x)
    decreases |cs|
  {
    hide Refs, Stamp;
    if cs != [] {
      assert StampIn(cs, 0, 0)[1..] == StampIn(cs[1..], 0, 0);
      KeyedContent(cs[1..], key, x);
      if cs[0].val.Some? {
        StampRefs(cs[0].val.value, 0, 0, x);
      }
    }
  }

  lemma {:induction false} RefsAtContent(v: Value, sub: Option<string>, x: int)
    ensures RefsAt(Content(v), sub, x) == RefsAt(v, sub, x)
    decreases v
  {
    hide StructPop;
    if sub.None? {
      StampRefs(v, 0, 0, x);
    } else if v.Compound? && v.kind.ContainerKind? {
      KeyedContent(v.children, sub.value, x);
    } else if v.Compound? && v.kind.StructKind? && sub.value != "" {
      var p := StructPop(sub.value);
      if p.Some? && p.value.index < |v.children| && v.children[p.value.index].val.Some? {
        RefsAtContent(v.children[p.value.index].val.value, p.value.rest, x);
      }
    }
  }

  lemma {:induction false} SameContentUnmet(v: Value, w: Value, crefs: map<Key, seq<CRef>>, id: int,
                                            items: seq<(string, Value)>, x: int, k: Access)
    requires Content(v) == Content(w)
    ensures Unmet(v, crefs, id, items, x, k) == Unmet(w, crefs, id, items, x, k)
    decreases |items|
  {
    hide Content, RefsAt, Refs, Wanted;
    if items != [] {
      RefsAtContent(v, Some(items[0].0), x);
      RefsAtContent(w, Some(items[0].0), x);
      SameContentUnmet(v, w, crefs - {(id, items[0].0)}, id, items[1..], x, k);
    }
  }

  lemma {:induction false} DrainAllShortIs(s: State, id: int, items: seq<(string, Value)>, x: int, k: Access)
    requires Valid(s) && id in s.tds && s.tds[id].write > 0 && s.tds[id].value.Some? && DrainAll(s, id, items).Some?
    ensures DrainAllShort(s, id, items, x, k) == Unmet(s.tds[id].value.value, s.crefs, id, items, x, k)
    decreases |items|
  {
    hide Drain, Valid, Content, RefsAt, Refs, Wanted;
    if items != [] {
      DrainFrame(s, id, items[0].0, items[0].1);
      var s1 := Drain(s, id, items[0].0, items[0].1).value;
      DrainAllShortIs(s1, id, items[1..], x, k);
      SameContentUnmet(s.tds[id].value.value, s1.tds[id].value.value, s1.crefs, id, items[1..], x, k);
    }
  }

  /** A store leaves its waiters short of exactly what they ask for and the value assigned does not have there. */
  lemma StoreShortExactly(s: State, id: int, sub: Option<string>, val: Value, drop: Refc, read: nat, write: nat, x: int, k: Access)
    requires Valid(s) && Store(s, id, sub, val, drop, read, write).Done?
    ensures id in s.tds && Assign(s, id, sub, val, read, write).Done?
    ensures Assign(s, id, sub, val, read, write).state.tds[id].value.Some?
    ensures StoreShort(s, id, sub, val, read, write, x, k) ==
            Unmet(Assign(s, id, sub, val, read, write).state.tds[id].value.value, s.crefs, id,
                  Items(s, id, sub, val, read, write), x, k)
  {
    hide Assign, DrainAll, DrainAllShort, Items, RefcIncr, Valid, Unmet;
    AssignValid(s, id, sub, val, read, write);
    AssignFrame(s, id, sub, val, read, write);
    DrainAllShortIs(Assign(s, id, sub, val, read, write).state, id, Items(s, id, sub, val, read, write), x, k);
  }

  // ---- Stores at a key of a container ---------------------------------------------

  // The member just stored is found whole; no other key that had no value has one now.
  lemma StoredKeys(cs: seq<Child>, sub: string, val: Value, read: nat, write: nat, key: string, x: int)
    requires forall i, j :: 0 <= i < j < |cs| ==> cs[i].key != cs[j].key
    requires StoreAt(Compound(ContainerKind, cs), sub, Some(Stamp(val, read, write))).Stored?
    requires Lookup(Compound(ContainerKind, cs), Some(key)).None?
    ensures RefsAt(StoreAt(Compound(ContainerKind, cs), sub, Some(Stamp(val, read, write))).value, Some(key), x) ==
            if key == sub then Refs(val, x) else 0
  {
    hide Stamp, Refs;
    StampRefs(val, read, write, x);
    var i := Find(cs, sub);
    var cs' := if i < |cs| then cs[i := Child(sub, Some(Stamp(val, read, write)))] else cs + [Child(sub, Some(Stamp(val, read, write)))];
    assert forall a, b :: 0 <= a < b < |cs'| ==> cs'[a].key != cs'[b].key;
    KeyedOnce(cs', key, x);
    if key == sub {
      assert cs'[i].key == key;
    } else {
      assert Find(cs', key) < |cs'| && Find(cs, key) < |cs| ==> Find(cs', key) == Find(cs, key);
      assert forall j :: 0 <= j < |cs| && j != i ==> cs'[j] == cs[j];
    }
  }

  // Below the key stored at, no waiter finds anything.
  lemma {:induction false} UnmetBelow(v: Value, crefs: map<Key, seq<CRef>>, id: int, items: seq<(string, Value)>, x: int, k: Access)
    requires forall key :: (id, key) in crefs ==> RefsAt(v, Some(key), x) == 0
    ensures Unmet(v, crefs, id, items, x, k) == Asked(crefs, id, items, x, k)
    decreases |items|
  {
    hide RefsAt, Refs, Wanted;
    if items != [] {
      UnmetBelow(v, crefs - {(id, items[0].0)}, id, items[1..], x, k);
    }
  }

  lemma UnmetFirst(v: Value, crefs: map<Key, seq<CRef>>, id: int, item: (string, Value), rest: seq<(string, Value)>, x: int, k: Access)
    requires (id, item.0) in crefs ==> RefsAt(v, Some(item.0), x) == Refs(item.1, x)
    ensures Unmet(v, crefs, id, [item] + rest, x, k) == Unmet(v, crefs - {(id, item.0)}, id, rest, x, k)
  {
    hide RefsAt, Refs, Wanted;
    assert ([item] + rest)[1..] == rest;
  }

  lemma {:induction false} NobodyAsks(v: Value, crefs: map<Key, seq<CRef>>, id: int, items: seq<(string, Value)>, x: int, k: Access)
    requires forall key :: (id, key) !in crefs
    ensures Unmet(v, crefs, id, items, x, k) == 0 == Asked(crefs, id, items, x, k)
    decreases |items|
  {
    hide RefsAt, Refs, Wanted;
    if items != [] {
      NobodyAsks(v, crefs - {(id, items[0].0)}, id, items[1..], x, k);
    }
  }

  lemma ContainerItems(s: State, id: int, sub: string, val: Value, read: nat, write: nat)
    requires id in s.tds && IsContainer(s.tds[id])
    ensures Items(s, id, Some(sub), val, read, write) ==
            if s.tds[id].subNotifs then [(sub, val)] + Nested(Some(sub), val) else []
  {
  }

  lemma AssignedContainer(s: State, id: int, sub: string, val: Value, read: nat, write: nat)
    requires id in s.tds && IsContainer(s.tds[id]) && Assign(s, id, Some(sub), val, read, write).Done?
    ensures StoreAt(s.tds[id].value.value, sub, Some(Stamp(val, read, write))).Stored?
    ensures Assign(s, id, Some(sub), val, read, write).state.tds[id].value ==
            Some(StoreAt(s.tds[id].value.value, sub, Some(Stamp(val, read, write))).value)
  {
    hide StoreAt, Stamp;
  }

  /**
    A store at a key of a container leaves short exactly the waiters on
    subscripts below that key: all they ask for of what they are served with.
   */
  lemma NestedShortExactly(s: State, id: int, sub: string, val: Value, drop: Refc, read: nat, write: nat, x: int, k: Access)
    requires Inv(s) && KeysOk(s) && id in s.tds && IsContainer(s.tds[id])
    requires Store(s, id, Some(sub), val, drop, read, write).Done?
    ensures StoreShort(s, id, Some(sub), val, read, write, x, k) ==
            Asked(s.crefs - {(id, sub)}, id, Nested(Some(sub), val), x, k)
  {
    StoreShortExactly(s, id, Some(sub), val, drop, read, write, x, k);
    ContainerItems(s, id, sub, val, read, write);
    AssignedContainer(s, id, sub, val, read, write);
    var cs := s.tds[id].value.value.children;
    assert forall i, j :: 0 <= i < j < |cs| ==> cs[i].key != cs[j].key;
    hide Store, StoreShort, Assign, Items, StoreAt, Stamp, Nested, RefsAt, Refs, Unmet, Asked, WellKeyed, Valid, Lookup, DatumOk;
    var v := Assign(s, id, Some(sub), val, read, write).state.tds[id].value.value;
    assert s.tds[id].value.value == Compound(ContainerKind, cs);
    forall key | (id, key) in s.crefs
      ensures s.tds[id].subNotifs && RefsAt(v, Some(key), x) == if key == sub then Refs(val, x) else 0
    {
      assert WaiterOk(s, (id, key));
      StoredKeys(cs, sub, val, read, write, key, x);
    }
    if s.tds[id].subNotifs {
      UnmetFirst(v, s.crefs, id, (sub, val), Nested(Some(sub), val), x, k);
      UnmetBelow(v, s.crefs - {(id, sub)}, id, Nested(Some(sub), val), x, k);
    } else {
      NobodyAsks(v, s.crefs, id, [], x, k);
      NobodyAsks(v, s.crefs - {(id, sub)}, id, Nested(Some(sub), val), x, k);
    }
  }

  // The i-th of these subscripts is waited on, by a waiter that wants counts of
  // datum x from what it is served with.
  predicate GoesShort(crefs: map<Key, seq<CRef>>, id: int, items: seq<(string, Value)>, i: nat, x: int, k: Access)
    requires i < |items|
  {
    && (id, items[i].0) in crefs && Wanted(crefs[(id, items[i].0)], k) > 0 && Refs(items[i].1, x) > 0
    && forall j :: 0 <= j < i ==> items[j].0 != items[i].0
  }

  lemma PositiveTimes(a: nat, b: nat)
    ensures a * b > 0 <==> a > 0 && b > 0
  {
  }

  lemma {:induction false} AskedIff(crefs: map<Key, seq<CRef>>, id: int, items: seq<(string, Value)>, x: int, k: Access)
    ensures Asked(crefs, id, items, x, k) > 0 <==> exists i :: 0 <= i < |items| && GoesShort(crefs, id, items, i, x, k)
    decreases |items|
  {
    hide Refs, Wanted;
    if items != [] {
      var key := (id, items[0].0);
      var crefs1, rest := crefs - {key}, items[1..];
      AskedIff(crefs1, id, rest, x, k);
      if key in crefs {
        PositiveTimes(Wanted(crefs[key], k), Refs(items[0].1, x));
      }
      forall i | 0 <= i < |rest|
        ensures GoesShort(crefs1, id, rest, i, x, k) <==> GoesShort(crefs, id, items, i + 1, x, k)
      {
        ShiftShort(crefs, id, items, i, x, k);
      }
      if i :| 0 <= i < |items| && GoesShort(crefs, id, items, i, x, k) {
        assert i == 0 || GoesShort(crefs1, id, rest, i - 1, x, k);
      }
      if i :| 0 <= i < |rest| && GoesShort(crefs1, id, rest, i, x, k) {
        assert GoesShort(crefs, id, items, i + 1, x, k);
      }
      assert GoesShort(crefs, id, items, 0, x, k) <==>
               key in crefs && Wanted(crefs[key], k) > 0 && Refs(items[0].1, x) > 0;
    }
  }

  lemma ShiftShort(crefs: map<Key, seq<CRef>>, id: int, items: seq<(string, Value)>, i: nat, x: int, k: Access)
    requires i + 1 < |items|
    ensures GoesShort(crefs - {(id, items[0].0)}, id, items[1..], i, x, k) <==> GoesShort(crefs, id, items, i + 1, x, k)
  {
    hide Refs, Wanted;
    var rest := items[1..];
    assert rest[i] == items[i + 1];
    assert forall j :: 0 <= j < i ==> rest[j] == items[j + 1];
    assert forall j :: 0 < j < i + 1 ==> items[j] == rest[j - 1];
  }

  /**
    So clients lose counts of x by it exactly if somebody waits, wanting counts, on
    a subscript that lies inside the value stored and leads to a reference to x.
   */
  lemma ShortExactlyWhen(s: State, id: int, sub: string, val: Value, drop: Refc, read: nat, write: nat, x: int, k: Access)
    requires Inv(s) && KeysOk(s) && id in s.tds && IsContainer(s.tds[id])
    requires Store(s, id, Some(sub), val, drop, read, write).Done?
    ensures StoreShort(s, id, Some(sub), val, read, write, x, k) >= 0
    ensures StoreShort(s, id, Some(sub), val, read, write, x, k) > 0 <==>
            exists i :: 0 <= i < |Nested(Some(sub), val)| && GoesShort(s.crefs - {(id, sub)}, id, Nested(Some(sub), val), i, x, k)
  {
    hide Store, StoreShort, Asked, Inv, KeysOk, Nested, GoesShort;
    NestedShortExactly(s, id, sub, val, drop, read, write, x, k);
    AskedIff(s.crefs - {(id, sub)}, id, Nested(Some(sub), val), x, k);
  }

  // ---- Roots ----------------------------------------------------------------------

  lemma {:induction false} LostIff(cs: seq<Child>, ws: seq<Child>, x: int, k: Access)
    requires |cs| == |ws|
    ensures LostIn(cs, ws, x, k) > 0 <==> exists i :: 0 <= i < |cs| && ws[i].val.Some? && HeldBy(cs[i], x, k) > 0
  {
    hide HeldBy;
    if cs != [] {
      LostIff(cs[1..], ws[1..], x, k);
      assert forall i :: 0 < i < |cs| ==> cs[i] == cs[1..][i - 1] && ws[i] == ws[1..][i - 1];
      assert forall i :: 0 <= i < |cs| - 1 ==> cs[1..][i] == cs[i + 1] && ws[1..][i] == ws[i + 1];
    }
  }

  // A cell that the store replaces at the root owns counts of datum x.
  predicate ReplacesOwner(v: Value, val: Value, x: int, k: Access) {
    if !v.Compound? then Held(v, x, k) > 0
    else
      && val.Compound? && v.kind.StructKind? && |v.children| == |val.children|
      && exists i :: 0 <= i < |v.children| && val.children[i].val.Some? && HeldBy(v.children[i], x, k) > 0
  }

  /** Counts are left without an owner exactly by a store at the root over a cell that owns some. */
  lemma OverwrittenExactlyWhen(s: State, id: int, sub: Option<string>, val: Value, x: int, k: Access)
    ensures Overwritten(s, id, sub, val, x, k) >= 0
    ensures Overwritten(s, id, sub, val, x, k) > 0 <==>
            sub.None? && id in s.tds && s.tds[id].value.Some? && ReplacesOwner(s.tds[id].value.value, val, x, k)
  {
    hide Held, HeldBy;
    if sub.None? && id in s.tds && s.tds[id].value.Some? {
      var v := s.tds[id].value.value;
      if v.Compound? && val.Compound? && v.kind.StructKind? && |v.children| == |val.children| {
        LostIff(v.children, val.children, x, k);
      }
    }
  }

  // ---- Runs that reach each failure -------------------------------------------------

  const INNER := Compound(ContainerKind, [Child("b\0", Some(Ref(7, 0, 0)))])

  // A reference to an inner key, declared with the type of the outer container's
  // members, is accepted while the outer key has no value.
  const WAITS_INSIDE := [
    Creates(1, Some(ContainerKind), 0, 3, 2, false),
    References(1, "a.b\0", CRef(2, None, 1, 0, 1))]

  lemma WaitsInside() returns (s: State)
    ensures After(WAITS_INSIDE) == Some(s) && Inv(s) && KeysOk(s)
    ensures s.crefs == map[(1, "a.b\0") := [CRef(2, None, 1, 0, 1)]]
    ensures s.ixl == map[] && s.tds == map[1 := Datum(Some(Compound(ContainerKind, [])), [], 3, 2, false, true)]
  {
    var first := [WAITS_INSIDE[0]];
    RunSnoc(EMPTY, [], WAITS_INSIDE[0]);
    assert [] + [WAITS_INSIDE[0]] == first;
    RunSnoc(EMPTY, first, WAITS_INSIDE[1]);
    assert first + [WAITS_INSIDE[1]] == WAITS_INSIDE;
    s := After(WAITS_INSIDE).value;
    RunBalances(WAITS_INSIDE, 0, Read);
  }

  lemma InnerItems()
    ensures Nested(Some("a\0"), INNER) == [("a.b\0", Ref(7, 0, 0))]
  {
    assert INNER.children[1..] == [];
    assert Concat(Some("a\0"), "b\0") == "a.b\0";
  }

  lemma InnerStored(s: State)
    requires Valid(s) && s.ixl == map[] && s.crefs == map[(1, "a.b\0") := [CRef(2, None, 1, 0, 1)]]
    requires s.tds == map[1 := Datum(Some(Compound(ContainerKind, [])), [], 3, 2, false, true)]
    ensures Store(s, 1, Some("a\0"), INNER, NO_REFC, 1, 0).Done?
  {
    var items := Items(s, 1, Some("a\0"), INNER, 1, 0);
    InnerItems();
    assert items == [("a\0", INNER), ("a.b\0", Ref(7, 0, 0))];
    AssignValid(s, 1, Some("a\0"), INNER, 1, 0);
    var s1 := Assign(s, 1, Some("a\0"), INNER, 1, 0).state;
    assert Drain(s1, 1, "a\0", INNER) == Some(s1);
    NestedWaiterGoesShort(s1, 1, "a.b\0", Ref(7, 0, 0), 7, Read);
    assert items[1..] == [("a.b\0", Ref(7, 0, 0))] && items[1..][1..] == [];
    var s2 := Drain(s1, 1, "a.b\0", Ref(7, 0, 0)).value;
    assert DrainAll(s2, 1, []) == Some(s2);
    assert DrainAll(s1, 1, items[1..]) == Some(s2);
    assert DrainAll(s1, 1, items) == Some(s2);
  }

  /** A run in which the clients hand one read count of datum 7 over and lose two. */
  lemma NestedWaiterRun()
    ensures var op := Stores(1, Some("a\0"), INNER, NO_REFC, 1, 0);
            && After(WAITS_INSIDE + [op]).Some?
            && StoreShort(After(WAITS_INSIDE).value, 1, Some("a\0"), INNER, 1, 0, 7, Read) == 1
            && Clients(After(WAITS_INSIDE + [op]).value, 7, Read) == Clients(After(WAITS_INSIDE).value, 7, Read) - 2
  {
    hide Clients, Store, StoreShort, Inv, KeysOk;
    var op := Stores(1, Some("a\0"), INNER, NO_REFC, 1, 0);
    var s := WaitsInside();
    InvValid(s);
    InnerStored(s);
    RunSnoc(EMPTY, WAITS_INSIDE, op);
    NestedShortExactly(s, 1, "a\0", INNER, NO_REFC, 1, 0, 7, Read);
    InnerItems();
    OneAsked(s.crefs - {(1, "a\0")});
    StoreBalances(s, 1, Some("a\0"), INNER, NO_REFC, 1, 0, 7, Read);
    assert Refs(INNER, 7) == 1 by {
      assert INNER.children[1..] == [];
    }
  }

  lemma OneAsked(crefs: map<Key, seq<CRef>>)
    requires crefs == map[(1, "a.b\0") := [CRef(2, None, 1, 0, 1)]]
    ensures Asked(crefs, 1, [("a.b\0", Ref(7, 0, 0))], 7, Read) == 1
  {
    var ws := crefs[(1, "a.b\0")];
    assert ws[1..] == [];
    assert Wanted(ws, Read) == 1;
    assert [("a.b\0", Ref(7, 0, 0))][1..] == [];
  }

  /** A run that overwrites a reference: its read count of datum 7 is left without an owner. */
  lemma OverwrittenRun()
    ensures var first := [Creates(1, None, 0, 1, 2, false), Stores(1, None, Ref(7, 0, 0), NO_REFC, 1, 0)];
            && After(first).Some?
            && After(first + [Stores(1, None, Ref(8, 0, 0), NO_REFC, 1, 0)]).Some?
            && Overwritten(After(first).value, 1, None, Ref(8, 0, 0), 7, Read) == 1
  {
    var a, b, c := Creates(1, None, 0, 1, 2, false), Stores(1, None, Ref(7, 0, 0), NO_REFC, 1, 0),
                   Stores(1, None, Ref(8, 0, 0), NO_REFC, 1, 0);
    RunSnoc(EMPTY, [], a);
    assert [] + [a] == [a];
    RunSnoc(EMPTY, [a], b);
    assert [a] + [b] == [a, b];
    RunSnoc(EMPTY, [a, b], c);
  }

  const MEMBER_STORED := [
    Creates(1, Some(ContainerKind), 0, 3, 2, false),
    Stores(1, Some("a\0"), Scalar(5), NO_REFC, 0, 0)]

  const STORED := EMPTY.(tds :=
    map[1 := Datum(Some(Compound(ContainerKind, [Child("a\0", Some(Scalar(5)))])), [], 3, 2, false, false)])

  lemma MemberStored()
    ensures After(MEMBER_STORED) == Some(STORED)
  {
    var a, b := MEMBER_STORED[0], MEMBER_STORED[1];
    var s := EMPTY.(tds := map[1 := Datum(Some(Compound(ContainerKind, [])), [], 3, 2, false, false)]);
    RunSnoc(EMPTY, [], a);
    assert [] + [a] == [a] && Step(EMPTY, a) == Some(s);
    RunSnoc(EMPTY, [a], b);
    assert [a] + [b] == MEMBER_STORED;
    assert StoreAt(s.tds[1].value.value, "a\0", Some(Scalar(5))).value == STORED.tds[1].value.value;
    assert Assign(s, 1, b.sub, b.val, 0, 0) == Done(STORED);
    assert DrainAll(STORED, 1, []) == Some(STORED);
  }

  lemma MemberReferenced()
    ensures var s := Reference(STORED, 1, "a\0", CRef(2, None, 0, 0, 2));
            s.Some? && s.value.refs == [RefSet(2, None, Scalar(5), 0, 0, 2)]
  {
    var w := RefSet(2, None, Scalar(5), 0, 0, 2);
    assert Lookup(STORED.tds[1].value.value, Some("a\0")) == Some(Scalar(5));
    RefcIncrFrame(STORED.(refs := [] + [w]), 1, Refc(-1, 0), Acquire(Some("a\0"), 0, 0));
  }

  /** A run that forwards a reference which brought two write counts: one of them is left without an owner. */
  lemma ForwardedRun()
    ensures var first := MEMBER_STORED + [References(1, "a\0", CRef(2, None, 0, 0, 2))];
            && After(first).Some? && After(first + [ForwardsFirstRef]).Some?
            && HandedOver(After(first).value, ForwardsFirstRef, 2, Write) == 1
  {
    hide RunFrom, Reference;
    var op := References(1, "a\0", CRef(2, None, 0, 0, 2));
    MemberStored();
    MemberReferenced();
    RunSnoc(EMPTY, MEMBER_STORED, op);
    RunSnoc(EMPTY, MEMBER_STORED + [op], ForwardsFirstRef);
  }
}
