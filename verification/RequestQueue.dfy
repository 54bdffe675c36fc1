/**
  Waiting requests for work.  Each of the server's own workers has at most one
  live request, kept in `targets` and listed once, under its work type.
 */
module RequestQueue {
  import opened Options
  import opened Sequences
  import opened WorkQueue

  datatype Request = Request(wtype: nat, count: nat, blocking: bool)

  type Targets = map<int, Request>
  type Lists = map<nat, seq<int>>

  function ListOf(lists: Lists, wtype: nat): seq<int> {
    if wtype in lists then lists[wtype] else []
  }

  // A rank is on a type's list exactly when its live request has that type.
  ghost predicate Listed(targets: Targets, lists: Lists) {
    && (forall t, r :: r in ListOf(lists, t) <==> r in targets && targets[r].wtype == t)
    && (forall t :: NoDuplicates(ListOf(lists, t)))
  }

  function Blocked(targets: Targets): set<int> {
    set r | r in targets && targets[r].blocking
  }

  ghost predicate Counted(targets: Targets, size: int, nblocked: int) {
    && size == |targets|
    && nblocked == |Blocked(targets)|
    && forall r :: r in targets ==> targets[r].count >= 1
  }

  // Appending a new request to its list.
  lemma ListedWith(targets: Targets, lists: Lists, rank: int, q: Request)
    requires Listed(targets, lists) && rank !in targets
    ensures Listed(targets[rank := q], lists[q.wtype := ListOf(lists, q.wtype) + [rank]])
  {
    var lists' := lists[q.wtype := ListOf(lists, q.wtype) + [rank]];
    forall t
      ensures ListOf(lists', t) == if t == q.wtype then ListOf(lists, t) + [rank] else ListOf(lists, t)
    {
    }
    assert rank !in ListOf(lists, q.wtype);
  }

  lemma ListedWithout(targets: Targets, lists: Lists, rank: int)
    requires Listed(targets, lists) && rank in targets
    ensures var t := targets[rank].wtype;
            Listed(targets - {rank}, lists[t := Without(ListOf(lists, t), rank)])
  {
    var w := targets[rank].wtype;
    var lists' := lists[w := Without(ListOf(lists, w), rank)];
    WithoutNoDuplicates(ListOf(lists, w), rank);
    forall t
      ensures ListOf(lists', t) == if t == w then Without(ListOf(lists, t), rank) else ListOf(lists, t)
    {
    }
    forall t, r
      ensures r in ListOf(lists', t) <==> r in targets - {rank} && (targets - {rank})[r].wtype == t
    {
      assert r in ListOf(lists, t) <==> r in targets && targets[r].wtype == t;
    }
  }

  lemma ListedUpdate(targets: Targets, lists: Lists, rank: int, q: Request)
    requires Listed(targets, lists) && rank in targets && targets[rank].wtype == q.wtype
    ensures Listed(targets[rank := q], lists)
  {
  }

  lemma BlockedWith(targets: Targets, rank: int, q: Request)
    ensures q.blocking ==> Blocked(targets[rank := q]) == Blocked(targets) + {rank}
    ensures !q.blocking ==> Blocked(targets[rank := q]) == Blocked(targets) - {rank}
  {
  }

  lemma CountedWith(targets: Targets, size: int, nblocked: int, rank: int, q: Request)
    requires Counted(targets, size, nblocked) && q.count >= 1
    ensures var was := rank in targets && targets[rank].blocking;
            Counted(targets[rank := q],
                    if rank in targets then size else size + 1,
                    nblocked + (if q.blocking && !was then 1 else if !q.blocking && was then -1 else 0))
  {
    BlockedWith(targets, rank, q);
    SizeWith(targets, rank, q);
    var targets' := targets[rank := q];
    assert rank in Blocked(targets) <==> rank in targets && targets[rank].blocking;
    forall r | r in targets'
      ensures targets'[r].count >= 1
    {
    }
  }

  lemma SizeWith(targets: Targets, rank: int, q: Request)
    ensures |targets[rank := q]| == if rank in targets then |targets| else |targets| + 1
  {
    var targets' := targets[rank := q];
    assert targets'.Keys == targets.Keys + {rank};
    assert |targets'| == |targets'.Keys| && |targets| == |targets.Keys|;
  }

  lemma CountedWithout(targets: Targets, size: int, nblocked: int, rank: int)
    requires Counted(targets, size, nblocked) && rank in targets
    ensures Counted(targets - {rank}, size - 1, if targets[rank].blocking then nblocked - 1 else nblocked)
  {
    var targets' := targets - {rank};
    assert targets'.Keys == targets.Keys - {rank};
    assert |targets'| == |targets'.Keys| && |targets| == |targets.Keys|;
    assert Blocked(targets') == Blocked(targets) - {rank};
  }

  // The ranks waiting for a type below n.
  ghost function WaitingBelow(targets: Targets, n: nat): set<int> {
    set r | r in targets && targets[r].wtype < n
  }

  lemma ListLength(targets: Targets, lists: Lists, n: nat)
    requires Listed(targets, lists)
    ensures |WaitingBelow(targets, n + 1)| == |WaitingBelow(targets, n)| + |ListOf(lists, n)|
  {
    var l := ListOf(lists, n);
    var s := set r | r in l;
    assert forall r :: r in l <==> r in targets && targets[r].wtype == n;
    assert WaitingBelow(targets, n + 1) == WaitingBelow(targets, n) + s;
    SetSize(l);
  }

  lemma {:induction false} SetSize(l: seq<int>)
    requires NoDuplicates(l)
    ensures |set r | r in l| == |l|
  {
    if l == [] {
      assert (set r | r in l) == {};
    } else {
      var front := l[..|l| - 1];
      SetSize(front);
      assert (set r | r in l) == (set r | r in front) + {l[|l| - 1]};
      assert l[|l| - 1] !in front;
    }
  }

  lemma NoDuplicatesAppend(a: seq<int>, b: seq<int>)
    requires NoDuplicates(a) && NoDuplicates(b) && forall x :: x in a ==> x !in b
    ensures NoDuplicates(a + b)
  {
    forall i, j | 0 <= i < j < |a + b|
      ensures (a + b)[i] != (a + b)[j]
    {
      if i < |a| <= j {
        assert a[i] in a && b[j - |a|] in b;
      }
    }
  }

  // The requests after this rank's received `count` units.
  function Answered(targets: Targets, rank: int, count: nat): Targets
    requires rank in targets && 1 <= count <= targets[rank].count
  {
    if targets[rank].count == count then targets - {rank}
    else targets[rank := Request(targets[rank].wtype, targets[rank].count - count, false)]
  }

  class RequestQueue {
    var targets: Targets
    var lists: Lists
    var size: int
    var nblocked: int

    ghost predicate Valid()
      reads this
    {
      Listed(targets, lists) && Counted(targets, size, nblocked)
    }

    constructor ()
      ensures Valid() && targets == map[]
    {
      targets, lists, size, nblocked := map[], map[], 0, 0;
    }

    // Queue a request, merging it with the worker's live request if there is
    // one; fails exactly when that one has another type.
    method Add(rank: int, wtype: nat, count: nat, blocking: bool) returns (ok: bool)
      requires Valid() && count >= 1
      requires blocking && rank in targets ==> !targets[rank].blocking
      modifies this
      ensures Valid()
      ensures ok <==> (rank in old(targets) ==> old(targets)[rank].wtype == wtype)
      ensures !ok ==> targets == old(targets)
      ensures ok ==> targets == old(targets)[rank :=
                       if rank in old(targets) then
                         Request(wtype, old(targets)[rank].count + count, old(targets)[rank].blocking || blocking)
                       else Request(wtype, count, blocking)]
    {
      hide Listed, Counted;
      if rank in targets {
        var q := targets[rank];
        if q.wtype != wtype {
          return false;
        }
        q := q.(count := q.count + count, blocking := q.blocking || blocking);
        ListedUpdate(targets, lists, rank, q);
        CountedWith(targets, size, nblocked, rank, q);
        if blocking {
          nblocked := nblocked + 1;
        }
        targets := targets[rank := q];
      } else {
        var q := Request(wtype, count, blocking);
        ListedWith(targets, lists, rank, q);
        CountedWith(targets, size, nblocked, rank, q);
        lists := lists[wtype := ListOf(lists, wtype) + [rank]];
        targets := targets[rank := q];
        size := size + 1;
        if blocking {
          nblocked := nblocked + 1;
        }
      }
      ok := true;
    }

    // A request received `count` units: it is answered, or waits for the rest
    // without blocking.
    method MatchUpdate(rank: int, count: nat)
      requires Valid() && rank in targets && 1 <= count <= targets[rank].count
      modifies this
      ensures Valid()
      ensures targets == Answered(old(targets), rank, count)
    {
      hide Listed, Counted;
      var q := targets[rank];
      if q.count == count {
        ListedWithout(targets, lists, rank);
        CountedWithout(targets, size, nblocked, rank);
        lists := lists[q.wtype := Without(ListOf(lists, q.wtype), rank)];
        targets := targets - {rank};
        size := size - 1;
      } else {
        var q' := Request(q.wtype, q.count - count, false);
        ListedUpdate(targets, lists, rank, q');
        CountedWith(targets, size, nblocked, rank, q');
        targets := targets[rank := q'];
      }
      if q.blocking {
        nblocked := nblocked - 1;
      }
    }

    // Answer the first request of a type, if any.
    method PopFromType(wtype: nat) returns (r: Option<int>)
      requires Valid()
      modifies this
      ensures Valid()
      ensures r.None? ==> targets == old(targets) && forall k :: k in targets ==> targets[k].wtype != wtype
      ensures r.Some? ==> ListOf(old(lists), wtype) != [] && r.value == ListOf(old(lists), wtype)[0]
      ensures r.Some? ==> r.value in old(targets) && old(targets)[r.value].wtype == wtype
                          && old(targets)[r.value].count >= 1 && targets == Answered(old(targets), r.value, 1)
    {
      var l := ListOf(lists, wtype);
      if l == [] {
        assert forall k :: k in targets && targets[k].wtype == wtype ==> k in l;
        r := None;
      } else {
        assert l[0] in l;
        MatchUpdate(l[0], 1);
        r := Some(l[0]);
      }
    }

    // Answer this worker's request if it waits for this type.
    method MatchesTarget(rank: int, wtype: nat) returns (r: Option<int>)
      requires Valid()
      modifies this
      ensures Valid()
      ensures r == if rank in old(targets) && old(targets)[rank].wtype == wtype then Some(rank) else None
      ensures r.None? ==> targets == old(targets)
      ensures r.Some? ==> old(targets)[rank].count >= 1 && targets == Answered(old(targets), rank, 1)
    {
      if rank in targets && targets[rank].wtype == wtype {
        MatchUpdate(rank, 1);
        r := Some(rank);
      } else {
        r := None;
      }
    }

    // Requests per type; their total is the queue's size.
    method TypeCounts(types: nat) returns (counts: seq<int>, total: int)
      requires Valid() && forall r :: r in targets ==> targets[r].wtype < types
      ensures |counts| == types
      ensures forall t :: 0 <= t < types ==> counts[t] == |set r | r in targets && targets[r].wtype == t|
      ensures total == size
    {
      counts, total := [], 0;
      assert WaitingBelow(targets, 0) == {};
      for t := 0 to types
        invariant |counts| == t
        invariant forall i :: 0 <= i < t ==> counts[i] == |set r | r in targets && targets[r].wtype == i|
        invariant total == |WaitingBelow(targets, t)|
      {
        var l := ListOf(lists, t);
        ListLength(targets, lists, t);
        SetSize(l);
        assert forall r :: r in l <==> r in targets && targets[r].wtype == t;
        assert (set r | r in targets && targets[r].wtype == t) == (set r | r in l);
        counts := counts + [|l|];
        total := total + |l|;
      }
      assert forall r :: r in targets.Keys ==> r in WaitingBelow(targets, types);
      assert WaitingBelow(targets, types) == targets.Keys;
      assert |targets| == |targets.Keys|;
    }

    // All requests, type by type.
    method Snapshot(types: nat) returns (s: seq<int>)
      requires Valid() && forall r :: r in targets ==> targets[r].wtype < types
      ensures NoDuplicates(s)
      ensures forall r :: r in s <==> r in targets
      ensures forall i :: 0 <= i < |s| ==> s[i] in targets
    {
      s := [];
      for t := 0 to types
        invariant NoDuplicates(s)
        invariant forall r :: r in s <==> r in targets && targets[r].wtype < t
      {
        var l := ListOf(lists, t);
        assert forall r :: r in l <==> r in targets && targets[r].wtype == t;
        NoDuplicatesAppend(s, l);
        s := s + l;
      }
      assert forall i :: 0 <= i < |s| ==> s[i] in s;
    }
  }
}
