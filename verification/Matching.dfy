/**
  The handlers that pair requests with work units.  The point of all of them:
  at rest, no queued request matches a stored unit.
 */
module Matching {
  import opened Options
  import opened WorkQueue
  import opened RequestQueue

  // No request in the queue could be given a stored unit.
  ghost predicate NoMatch(targets: Targets, stored: set<Unit>) {
    forall r, u :: r in targets && u in stored && EntriesMatch(u) ==> !Eligible(u, r, targets[r].wtype)
  }

  // Nothing stored can be given to this rank for this type.
  ghost predicate Starved(stored: set<Unit>, rank: int, wtype: nat) {
    forall u :: u in stored && EntriesMatch(u) ==> !Eligible(u, rank, wtype)
  }

  // A soft-targeted unit whose target is not waiting for its type while
  // another worker is.
  ghost predicate PassesOverWaiter(targets: Targets, u: Unit) {
    && u.target >= 0 && u.strictness.Soft?
    && !(u.target in targets && targets[u.target].wtype == u.wtype)
    && exists r :: r in targets && targets[r].wtype == u.wtype
  }

  lemma NoMatchAnswered(targets: Targets, stored: set<Unit>, rank: int, count: nat)
    requires NoMatch(targets, stored) && rank in targets && 1 <= count <= targets[rank].count
    ensures NoMatch(Answered(targets, rank, count), stored)
  {
  }

  // Storing one more unit keeps the property exactly if no request could have it.
  lemma NoMatchWith(targets: Targets, stored: set<Unit>, u: Unit)
    requires NoMatch(targets, stored) && EntriesMatch(u)
    ensures NoMatch(targets, stored + {u}) <==> forall r :: r in targets ==> !Eligible(u, r, targets[r].wtype)
  {
    assert u in stored + {u};
  }

  lemma NoneEligible(targets: Targets, u: Unit)
    requires u.target >= 0 ==> !(u.target in targets && targets[u.target].wtype == u.wtype)
    requires u.target < 0 ==> forall r :: r in targets ==> targets[r].wtype != u.wtype
    ensures (forall r :: r in targets ==> !Eligible(u, r, targets[r].wtype)) <==> !PassesOverWaiter(targets, u)
  {
  }

  // `sent` accounts for every unit that left between the two sets.
  ghost predicate Accounted(targets: Targets, before: set<Unit>, after: set<Unit>, sent: seq<(int, Unit)>) {
    && after <= before
    && (forall u :: u in before ==> u in after || exists i :: 0 <= i < |sent| && sent[i].1 == u)
    && (forall i :: 0 <= i < |sent| ==>
          && sent[i].0 in targets && Eligible(sent[i].1, sent[i].0, targets[sent[i].0].wtype)
          && sent[i].1 in before && sent[i].1 !in after)
  }

  lemma NothingSent(targets: Targets, stored: set<Unit>)
    ensures Accounted(targets, stored, stored, [])
  {
  }

  lemma AccountedIn(targets: Targets, targets0: Targets, before: set<Unit>, after: set<Unit>, sent: seq<(int, Unit)>)
    requires Accounted(targets, before, after, sent)
    requires forall r :: r in targets ==> r in targets0 && targets[r].wtype == targets0[r].wtype
    ensures Accounted(targets0, before, after, sent) && after <= before
  {
  }

  lemma AccountedMore(targets: Targets, before: set<Unit>, mid: set<Unit>, after: set<Unit>,
                      sent: seq<(int, Unit)>, more: seq<(int, Unit)>)
    requires Accounted(targets, before, mid, sent) && Accounted(targets, mid, after, more)
    ensures Accounted(targets, before, after, sent + more)
  {
    var all := sent + more;
    forall u | u in before && u !in after
      ensures exists i :: 0 <= i < |all| && all[i].1 == u
    {
      if u in mid {
        var i :| 0 <= i < |more| && more[i].1 == u;
        assert all[|sent| + i].1 == u;
      } else {
        var i :| 0 <= i < |sent| && sent[i].1 == u;
        assert all[i].1 == u;
      }
    }
  }

  class Server {
    const wq: WorkQueue
    const rq: RequestQueue
    const types: nat

    ghost predicate Valid()
      reads this, wq, rq
    {
      && wq.Valid() && rq.Valid() && wq.RankOnly()
      && forall r :: r in rq.targets ==> MapsHere(wq.layout, r) && rq.targets[r].wtype < types
    }

    ghost predicate Quiet()
      reads this, wq, rq
    {
      NoMatch(rq.targets, wq.Stored())
    }

    constructor (layout: Layout, types: nat)
      ensures Valid() && Quiet() && fresh(wq) && fresh(rq)
    {
      wq := new WorkQueue(layout);
      rq := new RequestQueue();
      this.types := types;
    }

    // Accept a serial unit: hand it to a waiting worker or store it.
    method Put(u: Unit, slot: nat) returns (worker: Option<int>)
      requires Valid() && u.accuracy.Rank? && u.wtype < types
      requires slot !in wq.slots && u !in wq.added
      requires u.target >= 0 ==> MapsHere(wq.layout, u.target)
      modifies wq, rq
      ensures Valid()
      ensures old(Quiet()) ==> Quiet()
      ensures worker.Some? ==>
                && worker.value in old(rq.targets) && Eligible(u, worker.value, old(rq.targets)[worker.value].wtype)
                && old(rq.targets)[worker.value].count >= 1
                && rq.targets == Answered(old(rq.targets), worker.value, 1)
                && wq.slots == old(wq.slots)
      ensures worker.None? ==> wq.slots == old(wq.slots)[slot := u] && rq.targets == old(rq.targets)
    {
      hide Indexed, Listed, Counted, HeapOf, WorkQueue.Ledger, EntriesMatch;
      if u.target >= 0 {
        worker := rq.MatchesTarget(u.target, u.wtype);
        if worker.None? && u.strictness.Soft? {
          worker := rq.PopFromType(u.wtype);
        }
      } else {
        worker := rq.PopFromType(u.wtype);
      }
      if worker.None? {
        ValuesWith(wq.slots, slot, u);
        wq.Add(u, slot);
      }
    }

    // Accept a unit released by the engine.  There is no fallback to other
    // workers for soft targets, so the property survives exactly when the unit
    // is not a soft-targeted one with its target not waiting but another
    // worker waiting for that type.
    method PutWorkUnit(u: Unit, slot: nat) returns (worker: Option<int>)
      requires Valid() && Quiet() && u.accuracy.Rank? && u.wtype < types && EntriesMatch(u)
      requires slot !in wq.slots && u !in wq.added
      requires u.target >= 0 ==> MapsHere(wq.layout, u.target)
      modifies wq, rq
      ensures Valid()
      ensures Quiet() <==> !PassesOverWaiter(old(rq.targets), u)
      ensures worker.Some? ==>
                && worker.value in old(rq.targets) && Eligible(u, worker.value, old(rq.targets)[worker.value].wtype)
                && rq.targets == Answered(old(rq.targets), worker.value, 1)
                && wq.slots == old(wq.slots)
      ensures worker.None? ==> wq.slots == old(wq.slots)[slot := u] && rq.targets == old(rq.targets)
    {
      hide NoMatch, EntriesMatch, Indexed, Listed, Counted, HeapOf, WorkQueue.Ledger;
      ghost var stored := wq.Stored();
      if u.target >= 0 {
        worker := rq.MatchesTarget(u.target, u.wtype);
      } else {
        worker := rq.PopFromType(u.wtype);
      }
      if worker.None? {
        ValuesWith(wq.slots, slot, u);
        wq.Add(u, slot);
        NoMatchWith(rq.targets, stored, u);
        NoneEligible(rq.targets, u);
      } else {
        NoMatchAnswered(old(rq.targets), stored, worker.value, 1);
      }
    }

    // Hand units to a worker until it has enough or nothing is left for it.
    method CheckWorkqueue(rank: int, wtype: nat, count: nat) returns (given: seq<Unit>)
      requires wq.Valid() && wq.RankOnly() && MapsHere(wq.layout, rank)
      modifies wq
      ensures wq.Valid() && wq.added == old(wq.added)
      ensures |given| <= count
      ensures |given| < count ==> Starved(wq.Stored(), rank, wtype)
      ensures wq.Stored() <= old(wq.Stored())
      ensures forall u :: u in old(wq.Stored()) ==> u in wq.Stored() || u in given
      ensures forall i :: 0 <= i < |given| ==>
                            given[i] in old(wq.Stored()) && given[i] !in wq.Stored() && Eligible(given[i], rank, wtype)
    {
      given := [];
      while |given| < count
        invariant wq.Valid() && wq.RankOnly() && wq.added == old(wq.added)
        invariant |given| <= count
        invariant wq.Stored() <= old(wq.Stored())
        invariant forall u :: u in old(wq.Stored()) ==> u in wq.Stored() || u in given
        invariant forall i :: 0 <= i < |given| ==>
                                given[i] in old(wq.Stored()) && given[i] !in wq.Stored() && Eligible(given[i], rank, wtype)
      {
        var r := wq.Get(rank, wtype);
        if r.None? {
          break;
        }
        given := given + [r.value];
      }
    }

    // A worker asks for `count` units; what it cannot be given at once it waits for.
    method Get(rank: int, wtype: nat, count: nat, blocking: bool) returns (ok: bool, given: seq<Unit>)
      requires Valid() && MapsHere(wq.layout, rank) && wtype < types && count >= 1
      requires blocking && rank in rq.targets ==> !rq.targets[rank].blocking
      modifies wq, rq
      ensures Valid()
      ensures ok && old(Quiet()) ==> Quiet()
      ensures ok <==> |given| == count || (rank in old(rq.targets) ==> old(rq.targets)[rank].wtype == wtype)
      ensures forall u :: u in given ==> Eligible(u, rank, wtype)
      ensures forall u :: u in old(wq.Stored()) <==> u in wq.Stored() || u in given
      ensures |given| < count && ok && rank !in old(rq.targets) ==>
                rank in rq.targets && rq.targets[rank] == Request(wtype, count - |given|, blocking && given == [])
    {
      given := CheckWorkqueue(rank, wtype, count);
      if |given| == count {
        ok := true;
      } else {
        ok := rq.Add(rank, wtype, count - |given|, blocking && given == []);
      }
    }

    // Serve one waiting request from the work queue.
    method ServeRequest(rank: int) returns (sent: seq<(int, Unit)>)
      requires Valid() && rank in rq.targets
      modifies wq, rq
      ensures Valid()
      ensures rq.targets == old(rq.targets) ||
              (1 <= |sent| <= old(rq.targets)[rank].count && rq.targets == Answered(old(rq.targets), rank, |sent|))
      ensures rank in rq.targets ==> Starved(wq.Stored(), rank, old(rq.targets)[rank].wtype)
      ensures Accounted(old(rq.targets), old(wq.Stored()), wq.Stored(), sent)
    {
      var q := rq.targets[rank];
      var given := CheckWorkqueue(rank, q.wtype, q.count);
      sent := seq(|given|, k requires 0 <= k < |given| => (rank, given[k]));
      assert forall k :: 0 <= k < |given| ==> sent[k].1 == given[k];
      if |given| > 0 {
        rq.MatchUpdate(rank, |given|);
      }
    }

    // Serve every waiting request from the work queue again.
    method RecheckSingleQueues() returns (sent: seq<(int, Unit)>)
      requires Valid()
      modifies wq, rq
      ensures Valid() && Quiet()
      ensures Accounted(old(rq.targets), old(wq.Stored()), wq.Stored(), sent)
    {
      hide Accounted, Eligible, EntriesMatch, Indexed, Listed, Counted, HeapOf, WorkQueue.Ledger;
      var snap := rq.Snapshot(types);
      sent := [];
      NothingSent(rq.targets, wq.Stored());
      var i := 0;
      while i < |snap|
        invariant 0 <= i <= |snap|
        invariant Valid()
        invariant forall r :: r in rq.targets ==> r in old(rq.targets) && rq.targets[r].wtype == old(rq.targets)[r].wtype
        invariant forall j :: i <= j < |snap| ==> snap[j] in rq.targets && rq.targets[snap[j]] == old(rq.targets)[snap[j]]
        invariant forall j :: 0 <= j < i && snap[j] in rq.targets ==>
                                Starved(wq.Stored(), snap[j], old(rq.targets)[snap[j]].wtype)
        invariant Accounted(old(rq.targets), old(wq.Stored()), wq.Stored(), sent)
      {
        ghost var targets, mid := rq.targets, wq.Stored();
        var more := ServeRequest(snap[i]);
        AccountedIn(targets, old(rq.targets), mid, wq.Stored(), more);
        AccountedMore(old(rq.targets), old(wq.Stored()), mid, wq.Stored(), sent, more);
        sent := sent + more;
        i := i + 1;
      }
    }

    // Stolen units arrive: store them, then serve the waiting requests.
    method ReceiveStolen(units: seq<Unit>, slots: seq<nat>) returns (sent: seq<(int, Unit)>)
      requires Valid() && Quiet()
      requires |slots| == |units|
      requires forall i, j :: 0 <= i < j < |slots| ==> slots[i] != slots[j] && units[i] != units[j]
      requires forall i :: 0 <= i < |units| ==>
                             && slots[i] !in wq.slots && units[i] !in wq.added
                             && units[i].accuracy.Rank? && (units[i].target < 0 || units[i].strictness.Soft?)
      modifies wq, rq
      ensures Valid() && Quiet()
      ensures Accounted(old(rq.targets), old(wq.Stored()) + (set u | u in units), wq.Stored(), sent)
    {
      hide NoMatch, Eligible, Indexed, Listed, Counted, HeapOf, WorkQueue.Ledger, Accounted;
      var i := 0;
      while i < |units|
        invariant 0 <= i <= |units|
        invariant Valid() && rq.targets == old(rq.targets)
        invariant i == 0 ==> Quiet()
        invariant wq.Stored() == old(wq.Stored()) + (set u | u in units[..i])
        invariant forall j :: i <= j < |units| ==> slots[j] !in wq.slots && units[j] !in wq.added
      {
        ValuesWith(wq.slots, slots[i], units[i]);
        wq.Add(units[i], slots[i]);
        assert units[..i + 1] == units[..i] + [units[i]];
        i := i + 1;
      }
      assert units[..i] == units;
      sent := [];
      if |units| > 0 {
        sent := RecheckSingleQueues();
      } else {
        NothingSent(rq.targets, wq.Stored());
      }
    }
  }
}
