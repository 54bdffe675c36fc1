/**
  Storing into a value: the refcounts new cells receive, assignment and
  reservation of subscripts, and what later lookups see.
 */
module Values {
  import opened Options
  import opened Parse
  import opened Refcount

  // A value as it is unpacked: every cell owns the counts supplied.
  function Stamp(v: Value, read: nat, write: nat): Value
    decreases v
  {
    match v
    case Scalar(_) => v
    case Ref(id, _, _) => Ref(id, read, write)
    case Compound(kind, cs) => Compound(kind, StampIn(cs, read, write))
  }

  function StampIn(cs: seq<Child>, read: nat, write: nat): (r: seq<Child>)
    ensures |r| == |cs|
    ensures forall i :: 0 <= i < |cs| ==> r[i] == StampBy(cs[i], read, write)
    decreases cs
  {
    if cs == [] then [] else [StampBy(cs[0], read, write)] + StampIn(cs[1..], read, write)
  }

  function StampBy(c: Child, read: nat, write: nat): Child
    decreases c
  {
    if c.val.None? then c else c.(val := Some(Stamp(c.val.value, read, write)))
  }

  // What a value says, leaving aside the counts its cells own.
  function Content(v: Value): Value {
    Stamp(v, 0, 0)
  }

  function ContentOf(v: Option<Value>): Option<Value> {
    if v.None? then None else Some(Content(v.value))
  }

  /** A value unpacked with given counts owns that many for each cell. */
  lemma {:induction false} StampHeld(v: Value, read: nat, write: nat, x: int, k: Access)
    ensures Held(Stamp(v, read, write), x, k) == Refc(read, write).Of(k) * Refs(v, x)
    decreases v
  {
    if v.Compound? {
      StampInHeld(v.children, read, write, x, k);
    }
  }

  lemma {:induction false} StampInHeld(cs: seq<Child>, read: nat, write: nat, x: int, k: Access)
    ensures HeldIn(StampIn(cs, read, write), x, k) == Refc(read, write).Of(k) * RefsIn(cs, x)
    decreases cs
  {
    if cs != [] {
      if cs[0].val.Some? {
        StampHeld(cs[0].val.value, read, write, x, k);
      }
      StampInHeld(cs[1..], read, write, x, k);
      MulDistributes(Refc(read, write).Of(k), RefsBy(cs[0], x), RefsIn(cs[1..], x));
      assert StampIn(cs, read, write)[1..] == StampIn(cs[1..], read, write);
    }
  }

  lemma {:induction false} StampRefs(v: Value, read: nat, write: nat, x: int)
    ensures Refs(Stamp(v, read, write), x) == Refs(v, x)
    decreases v
  {
    if v.Compound? {
      StampInRefs(v.children, read, write, x);
    }
  }

  lemma {:induction false} StampInRefs(cs: seq<Child>, read: nat, write: nat, x: int)
    ensures RefsIn(StampIn(cs, read, write), x) == RefsIn(cs, x)
    decreases cs
  {
    if cs != [] {
      if cs[0].val.Some? {
        StampRefs(cs[0].val.value, read, write, x);
      }
      StampInRefs(cs[1..], read, write, x);
      assert StampIn(cs, read, write)[1..] == StampIn(cs[1..], read, write);
    }
  }

  lemma {:induction false} StampWellKeyed(v: Value, read: nat, write: nat)
    ensures WellKeyed(Stamp(v, read, write)) <==> WellKeyed(v)
    decreases v
  {
    if v.Compound? {
      var cs, ss := v.children, StampIn(v.children, read, write);
      forall i | 0 <= i < |cs| && cs[i].val.Some?
        ensures WellKeyed(ss[i].val.value) <==> WellKeyed(cs[i].val.value)
      {
        StampWellKeyed(cs[i].val.value, read, write);
      }
    }
  }

  /** Cleaning a value up changes nothing but the counts its cells own. */
  lemma {:induction false} CleanupKeepsContent(v: Value, releaseRead: bool, releaseWrite: bool, a: Acquire)
    requires Cleanup(v, releaseRead, releaseWrite, a).Some?
    ensures Content(Cleanup(v, releaseRead, releaseWrite, a).value.value) == Content(v)
    decreases v
  {
    if v.Compound? {
      CleanupInKeepsContent(v.children, releaseRead, releaseWrite, ChildAcquires(v.kind, v.children, a).value);
    }
  }

  lemma {:induction false} CleanupInKeepsContent(cs: seq<Child>, releaseRead: bool, releaseWrite: bool, acquires: seq<Acquire>)
    requires |acquires| == |cs| && CleanupIn(cs, releaseRead, releaseWrite, acquires).Some?
    ensures StampIn(CleanupIn(cs, releaseRead, releaseWrite, acquires).value.children, 0, 0) == StampIn(cs, 0, 0)
    decreases cs
  {
    if cs != [] {
      var first := CleanupBy(cs[0], releaseRead, releaseWrite, acquires[0]).value;
      var rest := CleanupIn(cs[1..], releaseRead, releaseWrite, acquires[1..]).value;
      if cs[0].val.Some? {
        CleanupKeepsContent(cs[0].val.value, releaseRead, releaseWrite, acquires[0]);
      }
      CleanupInKeepsContent(cs[1..], releaseRead, releaseWrite, acquires[1..]);
      assert (first.children + rest.children)[1..] == rest.children;
    }
  }

  lemma SameContentWellKeyed(v: Value, w: Value)
    requires Content(v) == Content(w)
    ensures WellKeyed(v) <==> WellKeyed(w)
  {
    StampWellKeyed(v, 0, 0);
    StampWellKeyed(w, 0, 0);
  }

  lemma SameContentRefs(v: Value, w: Value, x: int)
    requires Content(v) == Content(w)
    ensures Refs(v, x) == Refs(w, x)
  {
    StampRefs(v, 0, 0, x);
    StampRefs(w, 0, 0, x);
  }

  lemma {:induction false} FindInStamp(cs: seq<Child>, key: string)
    ensures Find(StampIn(cs, 0, 0), key) == Find(cs, key)
  {
    if cs != [] && cs[0].key != key {
      assert StampIn(cs, 0, 0)[1..] == StampIn(cs[1..], 0, 0);
      FindInStamp(cs[1..], key);
    }
  }

  // A lookup depends on content alone.
  lemma {:induction false} LookupContent(v: Value, sub: Option<string>)
    ensures Lookup(Content(v), sub) == ContentOf(Lookup(v, sub))
    decreases v
  {
    hide StructPop;
    if v.Compound? && sub.Some? {
      if v.kind.ContainerKind? {
        FindInStamp(v.children, sub.value);
      } else if v.kind.StructKind? && sub.value != "" {
        var p := StructPop(sub.value);
        if p.Some? && p.value.index < |v.children| && v.children[p.value.index].val.Some? {
          LookupContent(v.children[p.value.index].val.value, p.value.rest);
        }
      }
    }
  }

  datatype StoreResult = Stored(value: Value) | DoubleWrite | Invalid

  /**
    Assigns `val` to a subscript, or reserves the subscript when there is no
    value.  Any subscript appends to a multiset.
   */
  function StoreAt(v: Value, sub: string, val: Option<Value>): StoreResult
    decreases v
  {
    match v
    case Compound(MultisetKind, cs) =>
      if val.None? then Invalid else Stored(Compound(MultisetKind, cs + [Child("", val)]))
    case Compound(ContainerKind, cs) =>
      var i := Find(cs, sub);
      if i < |cs| && (val.None? || cs[i].val.Some?) then DoubleWrite
      else if i < |cs| then Stored(Compound(ContainerKind, cs[i := Child(sub, val)]))
      else Stored(Compound(ContainerKind, cs + [Child(sub, val)]))
    case Compound(StructKind, cs) =>
      if sub == "" then Invalid
      else
        var p := StructPop(sub);
        if p.None? || p.value.index >= |cs| then Invalid
        else
          var i := p.value.index;
          if p.value.rest.None? then
            if val.None? then Invalid
            else if cs[i].val.Some? then DoubleWrite
            else Stored(Compound(StructKind, cs[i := cs[i].(val := val)]))
          else if cs[i].val.None? then Invalid
          else
            var r := StoreAt(cs[i].val.value, p.value.rest.value, val);
            if r.Stored? then Stored(Compound(StructKind, cs[i := cs[i].(val := Some(r.value))])) else r
    case _ => Invalid
  }

  lemma {:induction false} HeldInUpdate(cs: seq<Child>, i: nat, c: Child, x: int, k: Access)
    requires i < |cs|
    ensures HeldIn(cs[i := c], x, k) == HeldIn(cs, x, k) - HeldBy(cs[i], x, k) + HeldBy(c, x, k)
  {
    if i == 0 {
      assert cs[i := c][1..] == cs[1..];
    } else {
      assert cs[i := c][1..] == cs[1..][i - 1 := c];
      HeldInUpdate(cs[1..], i - 1, c, x, k);
    }
  }

  lemma {:induction false} HeldInAppend(cs: seq<Child>, c: Child, x: int, k: Access)
    ensures HeldIn(cs + [c], x, k) == HeldIn(cs, x, k) + HeldBy(c, x, k)
  {
    if cs == [] {
      assert cs + [c] == [c];
    } else {
      assert (cs + [c])[1..] == cs[1..] + [c];
      HeldInAppend(cs[1..], c, x, k);
    }
  }

  /** An assignment adds what the new value owns and loses nothing. */
  lemma {:induction false} StoreHeld(v: Value, sub: string, val: Option<Value>, x: int, k: Access)
    requires StoreAt(v, sub, val).Stored?
    ensures Held(StoreAt(v, sub, val).value, x, k) == Held(v, x, k) + HeldBy(Child("", val), x, k)
    decreases v
  {
    hide StructPop;
    var cs := v.children;
    if v.kind.MultisetKind? {
      HeldInAppend(cs, Child("", val), x, k);
    } else if v.kind.ContainerKind? {
      var i := Find(cs, sub);
      if i < |cs| {
        HeldInUpdate(cs, i, Child(sub, val), x, k);
      } else {
        HeldInAppend(cs, Child(sub, val), x, k);
      }
    } else {
      var p := StructPop(sub).value;
      if p.rest.None? {
        HeldInUpdate(cs, p.index, cs[p.index].(val := val), x, k);
      } else {
        var field := cs[p.index].val.value;
        StoreHeld(field, p.rest.value, val, x, k);
        HeldInUpdate(cs, p.index, cs[p.index].(val := Some(StoreAt(field, p.rest.value, val).value)), x, k);
      }
    }
  }

  lemma {:induction false} StoreWellKeyed(v: Value, sub: string, val: Option<Value>)
    requires StoreAt(v, sub, val).Stored? && WellKeyed(v) && (val.Some? ==> WellKeyed(val.value))
    ensures WellKeyed(StoreAt(v, sub, val).value)
    decreases v
  {
    hide StructPop;
    var cs := v.children;
    if v.kind.StructKind? {
      var p := StructPop(sub).value;
      if p.rest.Some? {
        StoreWellKeyed(cs[p.index].val.value, p.rest.value, val);
      }
    }
  }

  // No multiset on the way to the subscript.
  predicate Addressed(v: Value, sub: string)
    decreases v
  {
    match v
    case Compound(MultisetKind, _) => false
    case Compound(StructKind, cs) =>
      if sub == "" then true
      else
        var p := StructPop(sub);
        if p.None? || p.value.rest.None? || p.value.index >= |cs| || cs[p.value.index].val.None? then true
        else Addressed(cs[p.value.index].val.value, p.value.rest.value)
    case _ => true
  }

  lemma {:induction false} FindAppended(cs: seq<Child>, key: string, val: Option<Value>)
    requires Find(cs, key) == |cs|
    ensures Find(cs + [Child(key, val)], key) == |cs|
  {
    var after := cs + [Child(key, val)];
    assert after[|cs|].key == key;
    assert forall i :: 0 <= i < |cs| ==> after[i] == cs[i];
  }

  lemma FindUpdated(cs: seq<Child>, i: nat, c: Child, key: string)
    requires i < |cs| && cs[i].key == c.key
    ensures Find(cs[i := c], key) == Find(cs, key)
  {
    assert forall j :: 0 <= j < |cs| ==> cs[i := c][j].key == cs[j].key;
  }

  /** What is stored at a subscript is what a lookup there finds. */
  lemma {:induction false} StoreThenLookup(v: Value, sub: string, val: Option<Value>)
    requires StoreAt(v, sub, val).Stored? && Addressed(v, sub)
    ensures Lookup(StoreAt(v, sub, val).value, Some(sub)) == val
    decreases v
  {
    hide StructPop;
    var cs := v.children;
    if v.kind.ContainerKind? {
      var i := Find(cs, sub);
      if i < |cs| {
        FindUpdated(cs, i, Child(sub, val), sub);
      } else {
        FindAppended(cs, sub, val);
      }
    } else {
      var p := StructPop(sub).value;
      if p.rest.Some? {
        StoreThenLookup(cs[p.index].val.value, p.rest.value, val);
      }
    }
  }

  /** A scalar or reference once assigned stays as it is under any later assignment. */
  lemma {:induction false} StoreKeepsAssigned(v: Value, sub: string, val: Option<Value>, at: Option<string>)
    requires StoreAt(v, sub, val).Stored?
    requires Lookup(v, at).Some? && !Lookup(v, at).value.Compound?
    ensures Lookup(StoreAt(v, sub, val).value, at) == Lookup(v, at)
    decreases v
  {
    hide StructPop;
    var cs := v.children;
    if v.kind.ContainerKind? {
      var i, j := Find(cs, sub), Find(cs, at.value);
      if i < |cs| {
        FindUpdated(cs, i, Child(sub, val), at.value);
      } else {
        var after := cs + [Child(sub, val)];
        assert after[j] == cs[j];
        assert forall m :: 0 <= m < j ==> after[m] == cs[m];
        FindUnique(after, at.value, j);
      }
    } else if v.kind.StructKind? {
      var p, q := StructPop(sub).value, StructPop(at.value).value;
      if p.index == q.index && p.rest.Some? && q.rest.Some? {
        StoreKeepsAssigned(cs[p.index].val.value, p.rest.value, val, q.rest);
      }
    }
  }

  lemma FindUnique(cs: seq<Child>, key: string, j: nat)
    requires j < |cs| && cs[j].key == key && forall m :: 0 <= m < j ==> cs[m].key != key
    ensures Find(cs, key) == j
  {
  }

  // ---- Storing a compound value over a compound datum -------------------------

  function MergeFields(cs: seq<Child>, ws: seq<Child>): seq<Child>
    requires |cs| == |ws|
  {
    if cs == [] then [] else [if ws[0].val.Some? then ws[0] else cs[0]] + MergeFields(cs[1..], ws[1..])
  }

  /**
    A compound value unpacked into one that exists: members and elements are
    added, whatever keys there are; struct fields that come with a value replace
    those there.  Unpacked members and elements always have values.
   */
  function Merge(v: Value, w: Value): Option<Value> {
    if !v.Compound? || !w.Compound? || v.kind != w.kind then None
    else if v.kind.StructKind? then
      if |v.children| != |w.children| then None
      else Some(Compound(StructKind, MergeFields(v.children, w.children)))
    else if exists i :: 0 <= i < |w.children| && w.children[i].val.None? then None
    else Some(Compound(v.kind, v.children + w.children))
  }

  // Counts owned by the struct fields that a merge replaces without releasing them.
  function LostIn(cs: seq<Child>, ws: seq<Child>, x: int, k: Access): nat
    requires |cs| == |ws|
  {
    if cs == [] then 0 else (if ws[0].val.Some? then HeldBy(cs[0], x, k) else 0) + LostIn(cs[1..], ws[1..], x, k)
  }

  function Lost(v: Value, w: Value, x: int, k: Access): nat {
    if v.Compound? && w.Compound? && v.kind.StructKind? && |v.children| == |w.children|
    then LostIn(v.children, w.children, x, k) else 0
  }

  lemma {:induction false} HeldInConcat(cs: seq<Child>, ws: seq<Child>, x: int, k: Access)
    ensures HeldIn(cs + ws, x, k) == HeldIn(cs, x, k) + HeldIn(ws, x, k)
  {
    if cs == [] {
      assert cs + ws == ws;
    } else {
      assert (cs + ws)[1..] == cs[1..] + ws;
      HeldInConcat(cs[1..], ws, x, k);
    }
  }

  lemma {:induction false} MergeFieldsHeld(cs: seq<Child>, ws: seq<Child>, x: int, k: Access)
    requires |cs| == |ws|
    ensures HeldIn(MergeFields(cs, ws), x, k) + LostIn(cs, ws, x, k) == HeldIn(cs, x, k) + HeldIn(ws, x, k)
  {
    if cs != [] {
      MergeFieldsHeld(cs[1..], ws[1..], x, k);
      assert MergeFields(cs, ws)[1..] == MergeFields(cs[1..], ws[1..]);
    }
  }

  /** A merge adds what the new value owns and loses what replaced fields owned. */
  lemma MergeHeld(v: Value, w: Value, x: int, k: Access)
    requires Merge(v, w).Some?
    ensures Held(Merge(v, w).value, x, k) + Lost(v, w, x, k) == Held(v, x, k) + Held(w, x, k)
  {
    if v.kind.StructKind? {
      MergeFieldsHeld(v.children, w.children, x, k);
    } else {
      HeldInConcat(v.children, w.children, x, k);
    }
  }

  // The two containers have no key in common.
  predicate DisjointKeys(v: Value, w: Value) {
    v.Compound? && w.Compound? && v.kind.ContainerKind? ==>
      forall i, j :: 0 <= i < |v.children| && 0 <= j < |w.children| ==> v.children[i].key != w.children[j].key
  }

  lemma {:induction false} MergedField(cs: seq<Child>, ws: seq<Child>, i: nat)
    requires |cs| == |ws| && i < |cs|
    ensures |MergeFields(cs, ws)| == |cs|
    ensures MergeFields(cs, ws)[i] == if ws[i].val.Some? then ws[i] else cs[i]
  {
    if i > 0 {
      MergedField(cs[1..], ws[1..], i - 1);
    } else if |cs| > 1 {
      MergedField(cs[1..], ws[1..], 0);
    }
  }

  /** Keys stay distinct through a merge exactly when none is in both containers. */
  lemma MergeWellKeyed(v: Value, w: Value)
    requires Merge(v, w).Some? && WellKeyed(v) && WellKeyed(w)
    ensures WellKeyed(Merge(v, w).value) <==> DisjointKeys(v, w)
  {
    var m := Merge(v, w).value.children;
    if v.kind.StructKind? {
      forall i | 0 <= i < |v.children|
        ensures |m| == |v.children| && m[i] == if w.children[i].val.Some? then w.children[i] else v.children[i]
      {
        MergedField(v.children, w.children, i);
      }
      assert |v.children| == 0 ==> m == [];
    } else {
      var n := |v.children|;
      assert forall i :: 0 <= i < n ==> m[i] == v.children[i];
      assert forall j :: 0 <= j < |w.children| ==> m[n + j] == w.children[j];
      if v.kind.ContainerKind? && !DisjointKeys(v, w) {
        var i, j :| 0 <= i < n && 0 <= j < |w.children| && v.children[i].key == w.children[j].key;
        assert m[i].key == m[n + j].key;
      }
    }
  }

  // Members a container has are what a lookup finds after a merge too.
  lemma MergeKeepsMembers(v: Value, w: Value, key: string)
    requires Merge(v, w).Some? && v.kind.ContainerKind? && Find(v.children, key) < |v.children|
    ensures Find(Merge(v, w).value.children, key) == Find(v.children, key)
    ensures Lookup(Merge(v, w).value, Some(key)) == Lookup(v, Some(key))
  {
    var m, i := v.children + w.children, Find(v.children, key);
    assert forall j :: 0 <= j < |v.children| ==> m[j] == v.children[j];
    FindUnique(m, key, i);
  }
}
