/**
  Values in the data store and the references they own.  A reference cell
  names another datum and owns some of its read and write counts; `Cleanup`
  walks a value of any nesting, releasing or handing out the counts its cells
  own, and lists the changes still to be applied to the data referred to.
 */
module Refcount {
  import opened Options
  import opened Parse

  datatype Access = Read | Write

  datatype Refc = Refc(r: int, w: int) {
    function Of(k: Access): int {
      if k.Read? then r else w
    }
  }

  const NO_REFC := Refc(0, 0)

  datatype Kind = StructKind | ContainerKind | MultisetKind

  // A struct field, a container member or a multiset element; `None` is an
  // unassigned field or a reserved member.  Only container members have keys.
  datatype Child = Child(key: string, val: Option<Value>)

  datatype Value =
    | Scalar(payload: int)
    | Ref(id: int, read: nat, write: nat)
    | Compound(kind: Kind, children: seq<Child>)

  // References handed out with the part of a value a subscript selects.
  datatype Acquire = Acquire(sub: Option<string>, read: nat, write: nat) {
    function Of(k: Access): nat {
      if k.Read? then read else write
    }
  }

  const NO_ACQUIRE := Acquire(None, 0, 0)

  datatype Change = Change(id: int, rc: Refc, preacquire: bool)

  // Counts of datum x owned by the cells of a value.
  function Held(v: Value, x: int, k: Access): nat
    decreases v
  {
    match v
    case Scalar(_) => 0
    case Ref(id, read, write) => if id != x then 0 else if k.Read? then read else write
    case Compound(_, cs) => HeldIn(cs, x, k)
  }

  function HeldIn(cs: seq<Child>, x: int, k: Access): nat
    decreases cs
  {
    if cs == [] then 0 else HeldBy(cs[0], x, k) + HeldIn(cs[1..], x, k)
  }

  function HeldBy(c: Child, x: int, k: Access): nat
    decreases c
  {
    if c.val.None? then 0 else Held(c.val.value, x, k)
  }

  // The number of cells naming datum x.
  function Refs(v: Value, x: int): nat
    decreases v
  {
    match v
    case Scalar(_) => 0
    case Ref(id, _, _) => if id == x then 1 else 0
    case Compound(_, cs) => RefsIn(cs, x)
  }

  function RefsIn(cs: seq<Child>, x: int): nat
    decreases cs
  {
    if cs == [] then 0 else RefsBy(cs[0], x) + RefsIn(cs[1..], x)
  }

  function RefsBy(c: Child, x: int): nat
    decreases c
  {
    if c.val.None? then 0 else Refs(c.val.value, x)
  }

  // The number of nonzero counters in a value's cells.
  function NonZero(v: Value): nat
    decreases v
  {
    match v
    case Scalar(_) => 0
    case Ref(_, read, write) => (if read > 0 then 1 else 0) + (if write > 0 then 1 else 0)
    case Compound(_, cs) => NonZeroIn(cs)
  }

  function NonZeroIn(cs: seq<Child>): nat
    decreases cs
  {
    if cs == [] then 0 else NonZeroBy(cs[0]) + NonZeroIn(cs[1..])
  }

  function NonZeroBy(c: Child): nat
    decreases c
  {
    if c.val.None? then 0 else NonZero(c.val.value)
  }

  // The keys of every container are distinct.
  predicate WellKeyed(v: Value)
    decreases v
  {
    match v
    case Compound(kind, cs) =>
      && (kind.ContainerKind? ==> forall i, j :: 0 <= i < j < |cs| ==> cs[i].key != cs[j].key)
      && forall i :: 0 <= i < |cs| && cs[i].val.Some? ==> WellKeyed(cs[i].val.value)
    case _ => true
  }

  function Find(cs: seq<Child>, key: string): (i: nat)
    ensures i <= |cs|
    ensures i < |cs| ==> cs[i].key == key
    ensures forall j :: 0 <= j < i ==> cs[j].key != key
  {
    if cs == [] || cs[0].key == key then 0 else 1 + Find(cs[1..], key)
  }

  // The part of a value a subscript selects.  A struct consumes one component
  // of the subscript; a container takes all that is left as its key.
  function Lookup(v: Value, sub: Option<string>): Option<Value>
    decreases v
  {
    if sub.None? then Some(v)
    else
      match v
      case Compound(StructKind, cs) =>
        if sub.value == "" then None
        else
          var p := StructPop(sub.value);
          if p.None? || p.value.index >= |cs| || cs[p.value.index].val.None? then None
          else Lookup(cs[p.value.index].val.value, p.value.rest)
      case Compound(ContainerKind, cs) =>
        var i := Find(cs, sub.value);
        if i < |cs| then cs[i].val else None
      case _ => None
  }

  // The cells naming datum x under a subscript.  Under a key that occurs twice,
  // as merging containers can bring about, they are those of both members.
  function RefsAt(v: Value, sub: Option<string>, x: int): nat
    decreases v
  {
    if sub.None? then Refs(v, x)
    else
      match v
      case Compound(StructKind, cs) =>
        if sub.value == "" then 0
        else
          var p := StructPop(sub.value);
          if p.None? || p.value.index >= |cs| || cs[p.value.index].val.None? then 0
          else RefsAt(cs[p.value.index].val.value, p.value.rest, x)
      case Compound(ContainerKind, cs) => RefsKeyed(cs, sub.value, x)
      case _ => 0
  }

  function RefsKeyed(cs: seq<Child>, key: string, x: int): nat {
    if cs == [] then 0 else (if cs[0].key == key then RefsBy(cs[0], x) else 0) + RefsKeyed(cs[1..], key, x)
  }

  lemma {:induction false} KeyedAbsent(cs: seq<Child>, key: string, x: int)
    requires forall i :: 0 <= i < |cs| ==> cs[i].key != key
    ensures RefsKeyed(cs, key, x) == 0
  {
    if cs != [] {
      KeyedAbsent(cs[1..], key, x);
    }
  }

  lemma {:induction false} KeyedOnce(cs: seq<Child>, key: string, x: int)
    requires forall i, j :: 0 <= i < j < |cs| ==> cs[i].key != cs[j].key
    ensures RefsKeyed(cs, key, x) == if Find(cs, key) < |cs| then RefsBy(cs[Find(cs, key)], x) else 0
  {
    if cs != [] {
      if cs[0].key == key {
        KeyedAbsent(cs[1..], key, x);
      } else {
        KeyedOnce(cs[1..], key, x);
      }
    }
  }

  /** With distinct keys they are the cells of what a lookup finds. */
  lemma {:induction false} RefsAtLookup(v: Value, sub: Option<string>, x: int)
    requires WellKeyed(v)
    ensures RefsAt(v, sub, x) == if Lookup(v, sub).Some? then Refs(Lookup(v, sub).value, x) else 0
    decreases v
  {
    hide StructPop;
    if sub.Some? && v.Compound? {
      if v.kind.ContainerKind? {
        KeyedOnce(v.children, sub.value, x);
      } else if v.kind.StructKind? && sub.value != "" {
        var p := StructPop(sub.value);
        if p.Some? && p.value.index < |v.children| && v.children[p.value.index].val.Some? {
          RefsAtLookup(v.children[p.value.index].val.value, p.value.rest, x);
        }
      }
    }
  }

  datatype Applied = Applied(count: nat, acquired: nat, remainder: int)

  /** One counter of one cell: fails when counts are wanted from a cell that has none. */
  function ApplyRefc(releasing: bool, count: nat, acquire: nat): (r: Option<Applied>)
    ensures r.Some? <==> acquire == 0 || count > 0
    ensures r.Some? ==> count + r.value.remainder == r.value.count + acquire
    ensures r.Some? && releasing ==> r.value.count == 0
    ensures r.Some? && !releasing ==> r.value.remainder >= 0 && (count > 0 ==> r.value.count > 0)
    ensures r.Some? && r.value.remainder > 0 && r.value.acquired == 0 ==> count == 1 && !releasing
  {
    if acquire > 0 && count == 0 then None
    else if releasing then
      var remainder := acquire - count;
      Some(Applied(0, if remainder <= 0 then acquire else acquire - remainder, remainder))
    else if acquire == 0 then Some(Applied(count, 0, 0))
    else
      var acquired := if acquire <= count - 1 then acquire else count - 1;
      Some(Applied(count - acquired, acquired, acquire - acquired))
  }

  datatype Cleaned = Cleaned(value: Value, changes: seq<Change>)
  datatype CleanedIn = CleanedIn(children: seq<Child>, changes: seq<Change>)

  function UpdateCell(v: Value, releaseRead: bool, releaseWrite: bool, a: Acquire): Option<Cleaned>
    requires v.Ref?
  {
    var r, w := ApplyRefc(releaseRead, v.read, a.read), ApplyRefc(releaseWrite, v.write, a.write);
    if r.None? || w.None? then None
    else
      var rr, wr := r.value.remainder, w.value.remainder;
      var pre := (rr > 0 && r.value.acquired == 0) || (wr > 0 && w.value.acquired == 0);
      Some(Cleaned(Ref(v.id, r.value.count, w.value.count),
                   if rr != 0 || wr != 0 then [Change(v.id, Refc(rr, wr), pre)] else []))
  }

  // What each child of a compound value is asked to hand out.
  function ChildAcquires(kind: Kind, cs: seq<Child>, a: Acquire): (r: Option<seq<Acquire>>)
    ensures r.Some? ==> |r.value| == |cs|
  {
    match kind
    case StructKind =>
      if a.sub.None? then Some(seq(|cs|, i => a))
      else if a.sub.value == "" then None
      else
        var p := StructPop(a.sub.value);
        if p.None? || p.value.index >= |cs| || cs[p.value.index].val.None? then None
        else if a.read == 0 && a.write == 0 then Some(seq(|cs|, i => NO_ACQUIRE))
        else Some(seq(|cs|, i => if i == p.value.index then a.(sub := p.value.rest) else NO_ACQUIRE))
    case ContainerKind =>
      Some(seq(|cs|, i requires 0 <= i < |cs| =>
        if a.sub.None? || a.sub.value == cs[i].key then a.(sub := None) else NO_ACQUIRE))
    case MultisetKind =>
      if a.sub.Some? then None else Some(seq(|cs|, i => a))
  }

  /** Releases and hands out the counts owned by a value. */
  function Cleanup(v: Value, releaseRead: bool, releaseWrite: bool, a: Acquire): Option<Cleaned>
    decreases v
  {
    match v
    case Scalar(_) => if a.sub.Some? then None else Some(Cleaned(v, []))
    case Ref(_, _, _) => if a.sub.Some? then None else UpdateCell(v, releaseRead, releaseWrite, a)
    case Compound(kind, cs) =>
      var acquires := ChildAcquires(kind, cs, a);
      if acquires.None? then None
      else
        var r := CleanupIn(cs, releaseRead, releaseWrite, acquires.value);
        if r.None? then None else Some(Cleaned(Compound(kind, r.value.children), r.value.changes))
  }

  function CleanupIn(cs: seq<Child>, releaseRead: bool, releaseWrite: bool, acquires: seq<Acquire>): Option<CleanedIn>
    requires |acquires| == |cs|
    decreases cs
  {
    if cs == [] then Some(CleanedIn([], []))
    else
      var first := CleanupBy(cs[0], releaseRead, releaseWrite, acquires[0]);
      if first.None? then None
      else
        var rest := CleanupIn(cs[1..], releaseRead, releaseWrite, acquires[1..]);
        if rest.None? then None
        else Some(CleanedIn(first.value.children + rest.value.children, first.value.changes + rest.value.changes))
  }

  function CleanupBy(c: Child, releaseRead: bool, releaseWrite: bool, a: Acquire): (r: Option<CleanedIn>)
    ensures r.Some? ==> |r.value.children| == 1
    decreases c
  {
    if c.val.None? then Some(CleanedIn([c], []))
    else
      var r := Cleanup(c.val.value, releaseRead, releaseWrite, a);
      if r.None? then None else Some(CleanedIn([c.(val := Some(r.value.value))], r.value.changes))
  }

  // The total change listed for datum x.
  function Pending(changes: seq<Change>, x: int, k: Access): int {
    if changes == [] then 0
    else (if changes[0].id == x then changes[0].rc.Of(k) else 0) + Pending(changes[1..], x, k)
  }

  lemma {:induction false} PendingAppend(a: seq<Change>, b: seq<Change>, x: int, k: Access)
    ensures Pending(a + b, x, k) == Pending(a, x, k) + Pending(b, x, k)
  {
    if a == [] {
      assert a + b == b;
    } else {
      assert (a + b)[1..] == a[1..] + b;
      PendingAppend(a[1..], b, x, k);
    }
  }

  // What a list of children is asked to hand out, in all.
  function GrantedIn(cs: seq<Child>, acquires: seq<Acquire>, x: int, k: Access): nat
    requires |acquires| == |cs|
  {
    if cs == [] then 0
    else GrantedBy(cs[0], acquires[0], x, k) + GrantedIn(cs[1..], acquires[1..], x, k)
  }

  function GrantedBy(c: Child, a: Acquire, x: int, k: Access): nat {
    if c.val.None? then 0 else a.Of(k) * RefsAt(c.val.value, a.sub, x)
  }

  lemma CellBalances(v: Value, releaseRead: bool, releaseWrite: bool, a: Acquire, x: int, k: Access)
    requires v.Ref? && UpdateCell(v, releaseRead, releaseWrite, a).Some?
    ensures var r := UpdateCell(v, releaseRead, releaseWrite, a).value;
            Held(v, x, k) + Pending(r.changes, x, k) == Held(r.value, x, k) + a.Of(k) * Refs(v, x)
  {
    var r := UpdateCell(v, releaseRead, releaseWrite, a).value;
    if r.changes != [] {
      assert r.changes[1..] == [];
    }
  }

  /**
    Every count a value gives up is either handed to the caller, in the amount
    asked for at each selected cell, or listed as a change to the datum named.
   */
  lemma {:induction false} CleanupBalances(v: Value, releaseRead: bool, releaseWrite: bool, a: Acquire, x: int, k: Access)
    requires Cleanup(v, releaseRead, releaseWrite, a).Some?
    ensures var r := Cleanup(v, releaseRead, releaseWrite, a).value;
            Held(v, x, k) + Pending(r.changes, x, k) == Held(r.value, x, k) + a.Of(k) * RefsAt(v, a.sub, x)
    decreases v
  {
    match v
    case Scalar(_) =>
    case Ref(_, _, _) => CellBalances(v, releaseRead, releaseWrite, a, x, k);
    case Compound(kind, cs) =>
      var acquires := ChildAcquires(kind, cs, a).value;
      CleanupInBalances(cs, releaseRead, releaseWrite, acquires, x, k);
      GrantedIsSelected(kind, cs, a, x, k);
  }

  lemma {:induction false} CleanupInBalances(cs: seq<Child>, releaseRead: bool, releaseWrite: bool, acquires: seq<Acquire>, x: int, k: Access)
    requires |acquires| == |cs| && CleanupIn(cs, releaseRead, releaseWrite, acquires).Some?
    ensures var r := CleanupIn(cs, releaseRead, releaseWrite, acquires).value;
            HeldIn(cs, x, k) + Pending(r.changes, x, k) == HeldIn(r.children, x, k) + GrantedIn(cs, acquires, x, k)
    decreases cs
  {
    if cs != [] {
      var first := CleanupBy(cs[0], releaseRead, releaseWrite, acquires[0]).value;
      var rest := CleanupIn(cs[1..], releaseRead, releaseWrite, acquires[1..]).value;
      if cs[0].val.Some? {
        CleanupBalances(cs[0].val.value, releaseRead, releaseWrite, acquires[0], x, k);
      }
      CleanupInBalances(cs[1..], releaseRead, releaseWrite, acquires[1..], x, k);
      PendingAppend(first.changes, rest.changes, x, k);
      assert (first.children + rest.children)[1..] == rest.children;
    }
  }

  lemma MulDistributes(n: int, p: int, q: int)
    ensures n * (p + q) == n * p + n * q
  {
  }

  lemma {:induction false} GrantedToAll(cs: seq<Child>, acquires: seq<Acquire>, a: Acquire, x: int, k: Access)
    requires |acquires| == |cs| && a.sub.None?
    requires forall i :: 0 <= i < |cs| ==> acquires[i] == a
    ensures GrantedIn(cs, acquires, x, k) == a.Of(k) * RefsIn(cs, x)
  {
    if cs != [] {
      GrantedToAll(cs[1..], acquires[1..], a, x, k);
      MulDistributes(a.Of(k), RefsBy(cs[0], x), RefsIn(cs[1..], x));
    }
  }

  lemma {:induction false} GrantedToNone(cs: seq<Child>, acquires: seq<Acquire>, x: int, k: Access)
    requires |acquires| == |cs|
    requires forall i :: 0 <= i < |cs| ==> acquires[i].Of(k) == 0
    ensures GrantedIn(cs, acquires, x, k) == 0
  {
    if cs != [] {
      assert acquires[0].Of(k) == 0;
      GrantedToNone(cs[1..], acquires[1..], x, k);
    }
  }

  lemma {:induction false} GrantedToOne(cs: seq<Child>, acquires: seq<Acquire>, at: nat, x: int, k: Access)
    requires |acquires| == |cs| && at < |cs|
    requires forall i :: 0 <= i < |cs| && i != at ==> acquires[i].Of(k) == 0
    ensures GrantedIn(cs, acquires, x, k) == GrantedBy(cs[at], acquires[at], x, k)
  {
    if at == 0 {
      GrantedToNone(cs[1..], acquires[1..], x, k);
    } else {
      assert acquires[0].Of(k) == 0;
      GrantedToOne(cs[1..], acquires[1..], at - 1, x, k);
    }
  }

  // What the children hand out is what the subscript selects.
  lemma {:induction false} GrantedIsSelected(kind: Kind, cs: seq<Child>, a: Acquire, x: int, k: Access)
    requires ChildAcquires(kind, cs, a).Some?
    ensures GrantedIn(cs, ChildAcquires(kind, cs, a).value, x, k) == a.Of(k) * RefsAt(Compound(kind, cs), a.sub, x)
  {
    var acquires := ChildAcquires(kind, cs, a).value;
    if a.sub.None? {
      assert a.(sub := None) == a;
      GrantedToAll(cs, acquires, a, x, k);
    } else if kind.StructKind? {
      var p := StructPop(a.sub.value).value;
      if a.read == 0 && a.write == 0 {
        GrantedToNone(cs, acquires, x, k);
      } else {
        GrantedToOne(cs, acquires, p.index, x, k);
      }
    } else {
      GrantedToKey(cs, acquires, a, x, k);
    }
  }

  lemma {:induction false} GrantedToKey(cs: seq<Child>, acquires: seq<Acquire>, a: Acquire, x: int, k: Access)
    requires |acquires| == |cs| && a.sub.Some?
    requires forall i :: 0 <= i < |cs| ==> acquires[i] == if cs[i].key == a.sub.value then a.(sub := None) else NO_ACQUIRE
    ensures GrantedIn(cs, acquires, x, k) == a.Of(k) * RefsKeyed(cs, a.sub.value, x)
  {
    if cs != [] {
      GrantedToKey(cs[1..], acquires[1..], a, x, k);
      var first := if cs[0].key == a.sub.value then RefsBy(cs[0], x) else 0;
      MulDistributes(a.Of(k), first, RefsKeyed(cs[1..], a.sub.value, x));
      assert GrantedBy(cs[0], acquires[0], x, k) == a.Of(k) * first;
    }
  }

  /** Releasing both counts leaves a value owning nothing. */
  lemma {:induction false} CleanupReleases(v: Value, releaseRead: bool, releaseWrite: bool, a: Acquire, x: int, k: Access)
    requires Cleanup(v, releaseRead, releaseWrite, a).Some?
    requires if k.Read? then releaseRead else releaseWrite
    ensures Held(Cleanup(v, releaseRead, releaseWrite, a).value.value, x, k) == 0
    decreases v
  {
    if v.Compound? {
      CleanupInReleases(v.children, releaseRead, releaseWrite, ChildAcquires(v.kind, v.children, a).value, x, k);
    }
  }

  lemma {:induction false} CleanupInReleases(cs: seq<Child>, releaseRead: bool, releaseWrite: bool, acquires: seq<Acquire>, x: int, k: Access)
    requires |acquires| == |cs| && CleanupIn(cs, releaseRead, releaseWrite, acquires).Some?
    requires if k.Read? then releaseRead else releaseWrite
    ensures HeldIn(CleanupIn(cs, releaseRead, releaseWrite, acquires).value.children, x, k) == 0
    decreases cs
  {
    if cs != [] {
      var first := CleanupBy(cs[0], releaseRead, releaseWrite, acquires[0]).value;
      var rest := CleanupIn(cs[1..], releaseRead, releaseWrite, acquires[1..]).value;
      if cs[0].val.Some? {
        CleanupReleases(cs[0].val.value, releaseRead, releaseWrite, acquires[0], x, k);
      }
      CleanupInReleases(cs[1..], releaseRead, releaseWrite, acquires[1..], x, k);
      assert (first.children + rest.children)[1..] == rest.children;
    }
  }

  /**
    Handing out counts without releasing never gives away a value's last count
    of a datum, so the datum cannot be freed while the value names it.
   */
  lemma {:induction false} AcquireKeepsOne(v: Value, releaseRead: bool, releaseWrite: bool, a: Acquire, x: int, k: Access)
    requires Cleanup(v, releaseRead, releaseWrite, a).Some?
    requires if k.Read? then !releaseRead else !releaseWrite
    ensures Held(v, x, k) > 0 ==> Held(Cleanup(v, releaseRead, releaseWrite, a).value.value, x, k) > 0
    decreases v
  {
    if v.Compound? {
      AcquireInKeepsOne(v.children, releaseRead, releaseWrite, ChildAcquires(v.kind, v.children, a).value, x, k);
    }
  }

  lemma {:induction false} AcquireInKeepsOne(cs: seq<Child>, releaseRead: bool, releaseWrite: bool, acquires: seq<Acquire>, x: int, k: Access)
    requires |acquires| == |cs| && CleanupIn(cs, releaseRead, releaseWrite, acquires).Some?
    requires if k.Read? then !releaseRead else !releaseWrite
    ensures HeldIn(cs, x, k) > 0 ==> HeldIn(CleanupIn(cs, releaseRead, releaseWrite, acquires).value.children, x, k) > 0
    decreases cs
  {
    if cs != [] {
      var first := CleanupBy(cs[0], releaseRead, releaseWrite, acquires[0]).value;
      var rest := CleanupIn(cs[1..], releaseRead, releaseWrite, acquires[1..]).value;
      if cs[0].val.Some? {
        AcquireKeepsOne(cs[0].val.value, releaseRead, releaseWrite, acquires[0], x, k);
      }
      AcquireInKeepsOne(cs[1..], releaseRead, releaseWrite, acquires[1..], x, k);
      var after := first.children + rest.children;
      assert after[0] == first.children[0] && after[1..] == rest.children;
      assert HeldBy(cs[0], x, k) > 0 ==> HeldBy(after[0], x, k) > 0;
    }
  }

  /** Each change listed by a release uses up a nonzero counter. */
  lemma {:induction false} ReleaseUsesCounters(v: Value, releaseRead: bool, releaseWrite: bool)
    requires Cleanup(v, releaseRead, releaseWrite, NO_ACQUIRE).Some?
    ensures var r := Cleanup(v, releaseRead, releaseWrite, NO_ACQUIRE).value;
            |r.changes| + NonZero(r.value) <= NonZero(v)
    decreases v
  {
    if v.Compound? {
      ReleaseInUsesCounters(v.children, releaseRead, releaseWrite, ChildAcquires(v.kind, v.children, NO_ACQUIRE).value);
    }
  }

  lemma {:induction false} ReleaseInUsesCounters(cs: seq<Child>, releaseRead: bool, releaseWrite: bool, acquires: seq<Acquire>)
    requires |acquires| == |cs| && CleanupIn(cs, releaseRead, releaseWrite, acquires).Some?
    requires forall i :: 0 <= i < |cs| ==> acquires[i] == NO_ACQUIRE
    ensures var r := CleanupIn(cs, releaseRead, releaseWrite, acquires).value;
            |r.changes| + NonZeroIn(r.children) <= NonZeroIn(cs)
    decreases cs
  {
    if cs != [] {
      var first := CleanupBy(cs[0], releaseRead, releaseWrite, acquires[0]).value;
      var rest := CleanupIn(cs[1..], releaseRead, releaseWrite, acquires[1..]).value;
      if cs[0].val.Some? {
        ReleaseUsesCounters(cs[0].val.value, releaseRead, releaseWrite);
      }
      ReleaseInUsesCounters(cs[1..], releaseRead, releaseWrite, acquires[1..]);
      assert (first.children + rest.children)[1..] == rest.children;
    }
  }

  /** A release alone cannot fail, and every change it lists takes counts away. */
  lemma {:induction false} ReleaseOnlyTakes(v: Value, releaseRead: bool, releaseWrite: bool)
    ensures Cleanup(v, releaseRead, releaseWrite, NO_ACQUIRE).Some?
    ensures OnlyTakes(Cleanup(v, releaseRead, releaseWrite, NO_ACQUIRE).value.changes)
    decreases v
  {
    if v.Compound? {
      ReleaseInOnlyTakes(v.children, releaseRead, releaseWrite, ChildAcquires(v.kind, v.children, NO_ACQUIRE).value);
    }
  }

  predicate OnlyTakes(changes: seq<Change>) {
    forall i :: 0 <= i < |changes| ==> changes[i].rc.r <= 0 && changes[i].rc.w <= 0
  }

  lemma {:induction false} ReleaseInOnlyTakes(cs: seq<Child>, releaseRead: bool, releaseWrite: bool, acquires: seq<Acquire>)
    requires |acquires| == |cs| && forall i :: 0 <= i < |cs| ==> acquires[i] == NO_ACQUIRE
    ensures CleanupIn(cs, releaseRead, releaseWrite, acquires).Some?
    ensures OnlyTakes(CleanupIn(cs, releaseRead, releaseWrite, acquires).value.changes)
    decreases cs
  {
    if cs != [] {
      if cs[0].val.Some? {
        ReleaseOnlyTakes(cs[0].val.value, releaseRead, releaseWrite);
      }
      ReleaseInOnlyTakes(cs[1..], releaseRead, releaseWrite, acquires[1..]);
    }
  }

  // Asked for nothing, a value is left as it is.
  lemma {:induction false} IdleCleanup(v: Value)
    ensures Cleanup(v, false, false, NO_ACQUIRE) == Some(Cleaned(v, []))
    decreases v
  {
    if v.Compound? {
      IdleCleanupIn(v.children, ChildAcquires(v.kind, v.children, NO_ACQUIRE).value);
    }
  }

  lemma {:induction false} IdleCleanupIn(cs: seq<Child>, acquires: seq<Acquire>)
    requires |acquires| == |cs| && forall i :: 0 <= i < |cs| ==> acquires[i] == NO_ACQUIRE
    ensures CleanupIn(cs, false, false, acquires) == Some(CleanedIn(cs, []))
    decreases cs
  {
    if cs != [] {
      if cs[0].val.Some? {
        IdleCleanup(cs[0].val.value);
      }
      IdleCleanupIn(cs[1..], acquires[1..]);
      assert CleanupBy(cs[0], false, false, acquires[0]) == Some(CleanedIn([cs[0]], []));
      var none: seq<Change> := [];
      assert [cs[0]] + cs[1..] == cs && none + none == none;
    }
  }

  // Results of walking a list of children one by one.
  function Prepend(done: CleanedIn, rest: Option<CleanedIn>): Option<CleanedIn> {
    if rest.None? then None
    else Some(CleanedIn(done.children + rest.value.children, done.changes + rest.value.changes))
  }

  lemma PrependNothing(rest: Option<CleanedIn>)
    ensures Prepend(CleanedIn([], []), rest) == rest
  {
    if rest.Some? {
      assert [] + rest.value.children == rest.value.children;
      assert [] + rest.value.changes == rest.value.changes;
    }
  }

  lemma CleanupInStep(done: CleanedIn, cs: seq<Child>, releaseRead: bool, releaseWrite: bool, acquires: seq<Acquire>)
    requires |acquires| == |cs| && cs != []
    ensures var first := CleanupBy(cs[0], releaseRead, releaseWrite, acquires[0]);
            Prepend(done, CleanupIn(cs, releaseRead, releaseWrite, acquires)) ==
            if first.None? then None
            else Prepend(CleanedIn(done.children + first.value.children, done.changes + first.value.changes),
                         CleanupIn(cs[1..], releaseRead, releaseWrite, acquires[1..]))
  {
    hide CleanupBy;
    var first := CleanupBy(cs[0], releaseRead, releaseWrite, acquires[0]);
    var rest := CleanupIn(cs[1..], releaseRead, releaseWrite, acquires[1..]);
    if first.Some? && rest.Some? {
      assert done.children + (first.value.children + rest.value.children) == (done.children + first.value.children) + rest.value.children;
      assert done.changes + (first.value.changes + rest.value.changes) == (done.changes + first.value.changes) + rest.value.changes;
    }
  }

  method DatumCleanup(v: Value, releaseRead: bool, releaseWrite: bool, a: Acquire) returns (r: Option<Cleaned>)
    ensures r == Cleanup(v, releaseRead, releaseWrite, a)
    decreases v
  {
    match v
    case Scalar(_) => r := if a.sub.Some? then None else Some(Cleaned(v, []));
    case Ref(_, _, _) => r := if a.sub.Some? then None else UpdateCell(v, releaseRead, releaseWrite, a);
    case Compound(kind, cs) =>
      var acquires := ChildAcquires(kind, cs, a);
      if acquires.None? {
        return None;
      }
      var done := CleanedIn([], []);
      PrependNothing(CleanupIn(cs, releaseRead, releaseWrite, acquires.value));
      assert cs[0..] == cs && acquires.value[0..] == acquires.value;
      for i := 0 to |cs|
        invariant CleanupIn(cs, releaseRead, releaseWrite, acquires.value) ==
                  Prepend(done, CleanupIn(cs[i..], releaseRead, releaseWrite, acquires.value[i..]))
      {
        CleanupInStep(done, cs[i..], releaseRead, releaseWrite, acquires.value[i..]);
        assert cs[i..][1..] == cs[i + 1..] && acquires.value[i..][1..] == acquires.value[i + 1..];
        if cs[i].val.None? {
          done := CleanedIn(done.children + [cs[i]], done.changes + []);
        } else {
          var cleaned := DatumCleanup(cs[i].val.value, releaseRead, releaseWrite, acquires.value[i]);
          if cleaned.None? {
            return None;
          }
          done := CleanedIn(done.children + [cs[i].(val := Some(cleaned.value.value))], done.changes + cleaned.value.changes);
        }
      }
      assert done.children + [] == done.children && done.changes + [] == done.changes;
      return Some(Cleaned(Compound(kind, done.children), done.changes));
  }
}
