/**
  The queue of deferred server-to-server syncs: a ring buffer that doubles in
  place when full and halves in place when less than a quarter used.
 */
module PendingRing {
  import opened Options
  import Arith

  const PENDING_SYNC_INIT_SIZE := 1024

  datatype Mode = Request | StealProbe | StealProbeResp | Steal | Refcount | Subscribe | Notify | Shutdown

  datatype Kind = DeferredSync | AcceptedRefc | DeferredNotify | UnsentNotify | DeferredStealProbe | DeferredStealProbeResp

  // `hdr` is the mode of the stored header, if one was stored; `body` stands
  // for the rest of it.
  datatype Pending = Pending(kind: Kind, rank: int, hdr: Option<Mode>, body: int)

  // A sync that has not been accepted keeps its header.
  predicate WellFormed(p: Pending) {
    p.kind.DeferredSync? ==> p.hdr.Some?
  }

  predicate IsNotifMode(m: Mode) {
    m.Notify? || m.Subscribe? || m.Refcount?
  }

  predicate IsNotif(p: Pending)
    requires WellFormed(p)
  {
    match p.kind
    case DeferredNotify => true
    case UnsentNotify => true
    case AcceptedRefc => true
    case DeferredSync => IsNotifMode(p.hdr.value)
    case _ => false
  }

  function NotifCount(q: seq<Pending>): nat
    requires forall i :: 0 <= i < |q| ==> WellFormed(q[i])
  {
    if q == [] then 0 else (if IsNotif(q[0]) then 1 else 0) + NotifCount(q[1..])
  }

  lemma {:induction false} NotifCountPositive(q: seq<Pending>)
    requires forall i :: 0 <= i < |q| ==> WellFormed(q[i])
    ensures NotifCount(q) > 0 <==> exists i :: 0 <= i < |q| && IsNotif(q[i])
  {
    if q != [] {
      NotifCountPositive(q[1..]);
      assert forall i :: 0 < i < |q| ==> q[i] == q[1..][i - 1];
      assert forall i :: 0 <= i < |q| - 1 ==> q[1..][i] == q[i + 1];
    }
  }

  lemma {:induction false} NotifCountSnoc(q: seq<Pending>, p: Pending)
    requires forall i :: 0 <= i < |q| ==> WellFormed(q[i])
    requires WellFormed(p)
    ensures NotifCount(q + [p]) == NotifCount(q) + (if IsNotif(p) then 1 else 0)
  {
    if q != [] {
      assert (q + [p])[1..] == q[1..] + [p];
      NotifCountSnoc(q[1..], p);
    }
  }

  // Index of the i-th entry behind `head`.
  function At(head: nat, i: nat, size: nat): nat
    requires size > 0
  {
    (head + i) % size
  }

  lemma AtWraps(head: nat, i: nat, size: nat)
    requires head < size && i <= size && head + i < 2 * size
    ensures At(head, i, size) == if head + i < size then head + i else head + i - size
  {
    if head + i < size {
      Arith.ModSmall(head + i, size);
    } else {
      Arith.ModOnce(head + i, size);
    }
  }

  // What a ring with this array, head and count holds.
  ghost function Ring(a: seq<Pending>, head: nat, count: nat): (q: seq<Pending>)
    requires head < |a| && count <= |a|
    ensures |q| == count
    ensures forall i :: 0 <= i < count ==>
                          q[i] == if head + i < |a| then a[head + i] else a[head + i - |a|]
  {
    forall i | 0 <= i < count
      ensures At(head, i, |a|) == if head + i < |a| then head + i else head + i - |a|
    {
      AtWraps(head, i, |a|);
    }
    seq(count, i requires 0 <= i < count => a[At(head, i, |a|)])
  }

  lemma RingSnoc(a: seq<Pending>, head: nat, count: nat, p: Pending)
    requires head < |a| && count < |a|
    ensures At(head, count, |a|) < |a|
    ensures Ring(a[At(head, count, |a|) := p], head, count + 1) == Ring(a, head, count) + [p]
  {
    AtWraps(head, count, |a|);
  }

  lemma RingUncons(a: seq<Pending>, head: nat, count: nat)
    requires head < |a| && 0 < count <= |a|
    ensures At(head, 1, |a|) < |a|
    ensures Ring(a, head, count) == [a[head]] + Ring(a, At(head, 1, |a|), count - 1)
  {
    AtWraps(head, 1, |a|);
  }

  // Entries packed from index 0 on.
  lemma RingFlat(a: seq<Pending>, q: seq<Pending>)
    requires |q| <= |a| && |a| > 0
    requires forall i :: 0 <= i < |q| ==> a[i] == q[i]
    ensures Ring(a, 0, |q|) == q
  {
  }

  // Entries that do not reach beyond a prefix of the array.
  lemma RingPrefix(a: seq<Pending>, b: seq<Pending>, head: nat, count: nat)
    requires head < |b| <= |a| && head + count <= |b|
    requires forall i :: 0 <= i < |b| ==> b[i] == a[i]
    ensures Ring(b, head, count) == Ring(a, head, count)
  {
  }

  // C's memmove within one array.
  method MemMove(a: array<Pending>, dst: nat, src: nat, n: nat)
    requires dst + n <= a.Length && src + n <= a.Length
    modifies a
    ensures forall i :: 0 <= i < a.Length ==>
                          a[i] == if dst <= i < dst + n then old(a[src + i - dst]) else old(a[i])
  {
    forall i | dst <= i < dst + n {
      a[i] := a[src + i - dst];
    }
  }

  // C's memcpy: the blocks must not overlap.
  method MemCpy(a: array<Pending>, dst: nat, src: nat, n: nat)
    requires dst + n <= a.Length && src + n <= a.Length
    requires dst + n <= src || src + n <= dst
    modifies a
    ensures forall i :: 0 <= i < a.Length ==>
                          a[i] == if dst <= i < dst + n then old(a[src + i - dst]) else old(a[i])
  {
    MemMove(a, dst, src, n);
  }

  method Realloc(a: array<Pending>, size: nat) returns (b: array<Pending>)
    ensures fresh(b) && b.Length == size
    ensures forall i :: 0 <= i < size && i < a.Length ==> b[i] == a[i]
  {
    b := new Pending[size];
    var n := if size < a.Length then size else a.Length;
    forall i | 0 <= i < n {
      b[i] := a[i];
    }
  }

  class PendingSyncs {
    var buf: array<Pending>
    var head: nat
    var count: nat
    var notifs: int

    ghost predicate Indices()
      reads this
    {
      head < buf.Length && count <= buf.Length
    }

    ghost function Contents(): seq<Pending>
      reads this, buf
      requires Indices()
    {
      Ring(buf[..], head, count)
    }

    // Above the initial size at least a quarter is in use, so `head` stays a
    // valid index when the array shrinks.
    ghost predicate Valid()
      reads this, buf
    {
      && Indices()
      && (buf.Length > PENDING_SYNC_INIT_SIZE ==> count >= buf.Length / 4)
      && (forall i :: 0 <= i < count ==> WellFormed(Contents()[i]))
      && notifs == NotifCount(Contents())
    }

    constructor (size: nat)
      requires 1 <= size <= PENDING_SYNC_INIT_SIZE
      ensures Valid() && fresh(buf) && Contents() == []
    {
      buf := new Pending[size];
      head, count, notifs := 0, 0, 0;
    }

    predicate HavePendingNotifs(): (r: bool)
      requires Valid()
      reads this, buf
      ensures r <==> exists i :: 0 <= i < count && IsNotif(Contents()[i])
    {
      NotifCountPositive(Contents());
      notifs > 0
    }

    // Double the array, moving the wrapped part behind the rest.
    method Grow()
      requires Indices() && count == buf.Length
      modifies this`buf
      ensures Indices() && fresh(buf) && buf.Length == 2 * old(buf.Length)
      ensures Contents() == old(Contents())
    {
      buf := Realloc(buf, 2 * count);
      if head != 0 {
        MemCpy(buf, count, 0, head);
      }
    }

    method Enqueue(p: Pending)
      requires Valid() && WellFormed(p)
      modifies this, buf
      ensures Valid() && (buf == old(buf) || fresh(buf))
      ensures Contents() == old(Contents()) + [p]
    {
      hide At, Ring;
      ghost var q := Contents();
      if count == buf.Length {
        Grow();
      }
      ghost var a := buf[..];
      RingSnoc(a, head, count, p);
      var tail := At(head, count, buf.Length);
      buf[tail] := p;
      assert buf[..] == a[tail := p];
      count := count + 1;
      NotifCountSnoc(q, p);
      if IsNotif(p) {
        notifs := notifs + 1;
      }
    }

    // Halve the array, first packing the entries into its lower half if they
    // reach beyond it.
    method Shrink()
      requires Indices() && 0 < count <= buf.Length / 4
      modifies this`buf, this`head, buf
      ensures Indices() && fresh(buf) && buf.Length == old(buf.Length) / 2
      ensures Contents() == old(Contents())
    {
      hide At;
      var size := buf.Length;
      var half := size / 2;
      ghost var q := Contents();
      ghost var a := buf[..];
      if head + count > half {
        if head + count > size {
          AtWraps(head, count, size);
          var wrapped := At(head, count, size);
          MemMove(buf, count - wrapped, 0, wrapped);
          MemCpy(buf, 0, head, count - wrapped);
        } else {
          MemMove(buf, 0, head, count);
        }
        head := 0;
        assert forall i :: 0 <= i < count ==> buf[i] == q[i];
        buf := Realloc(buf, half);
        RingFlat(buf[..], q);
      } else {
        buf := Realloc(buf, half);
        RingPrefix(a, buf[..], head, count);
      }
    }

    method Dequeue() returns (r: Option<Pending>)
      requires Valid()
      modifies this, buf
      ensures Valid() && (buf == old(buf) || fresh(buf))
      ensures r.None? <==> old(Contents()) == []
      ensures r.None? ==> Contents() == []
      ensures r.Some? ==> old(Contents()) == [r.value] + Contents()
    {
      if count == 0 {
        return None;
      }
      hide At, Ring;
      ghost var q := Contents();
      var p := buf[head];
      r := Some(p);
      count := count - 1;
      RingUncons(buf[..], head, count + 1);
      head := At(head, 1, buf.Length);
      assert q[0] == p && Contents() == q[1..];
      if IsNotif(p) {
        notifs := notifs - 1;
      }
      if buf.Length > PENDING_SYNC_INIT_SIZE && count < buf.Length / 4 {
        Shrink();
      }
    }
  }
}
