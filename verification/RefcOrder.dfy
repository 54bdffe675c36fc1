/**
  One server's handling of refcount changes sent by other servers.  A change is
  applied at once in the main loop, queued as accepted inside a sync loop when
  it comes from a lower rank, and queued unaccepted when it comes from a higher
  one.  The ghost `log` records every message taken, in order, with the part of
  the program that took it.
 */
module RefcOrder {
  import opened Options
  import opened PendingRing

  // The refcount change a queued entry stands for, if any.
  function RefcOf(p: Pending): seq<int>
    requires WellFormed(p)
  {
    if p.kind.AcceptedRefc? || (p.kind.DeferredSync? && p.hdr.value.Refcount?) then [p.body] else []
  }

  function Refcs(q: seq<Pending>): seq<int>
    requires forall i :: 0 <= i < |q| ==> WellFormed(q[i])
  {
    if q == [] then [] else RefcOf(q[0]) + Refcs(q[1..])
  }

  lemma {:induction false} RefcsSnoc(q: seq<Pending>, p: Pending)
    requires forall i :: 0 <= i < |q| ==> WellFormed(q[i])
    requires WellFormed(p)
    ensures Refcs(q + [p]) == Refcs(q) + RefcOf(p)
  {
    if q == [] {
      assert q + [p] == [p];
    } else {
      assert (q + [p])[1..] == q[1..] + [p];
      RefcsSnoc(q[1..], p);
    }
  }

  // What has been applied, then what is queued, is what has arrived.
  ghost predicate InOrder(applied: seq<int>, q: seq<Pending>, arrived: seq<int>) {
    (forall i :: 0 <= i < |q| ==> WellFormed(q[i])) && applied + Refcs(q) == arrived
  }

  lemma QueueWellFormed(applied: seq<int>, q: seq<Pending>, arrived: seq<int>)
    requires InOrder(applied, q, arrived)
    ensures forall i :: 0 <= i < |q| ==> WellFormed(q[i])
  {
  }

  lemma TakeFirst(applied: seq<int>, p: Pending, q: seq<Pending>, arrived: seq<int>)
    requires InOrder(applied, [p] + q, arrived)
    ensures WellFormed(p) && InOrder(applied + RefcOf(p), q, arrived)
  {
    assert ([p] + q)[0] == p;
    assert forall i :: 0 <= i < |q| ==> q[i] == ([p] + q)[i + 1];
    RefcsCons(p, q);
  }

  lemma TakeNone(applied: seq<int>, arrived: seq<int>)
    ensures InOrder(applied, [], arrived) ==> applied == arrived
    ensures NotifCount([]) == 0
  {
  }

  lemma RefcsCons(p: Pending, q: seq<Pending>)
    requires WellFormed(p) && forall i :: 0 <= i < |q| ==> WellFormed(q[i])
    ensures forall i :: 0 <= i < |[p] + q| ==> WellFormed(([p] + q)[i])
    ensures Refcs([p] + q) == RefcOf(p) + Refcs(q)
  {
    assert ([p] + q)[1..] == q;
  }

  // A queue without notif-like entries holds no refcount change.
  lemma {:induction false} NoNotifsNoRefcs(q: seq<Pending>)
    requires forall i :: 0 <= i < |q| ==> WellFormed(q[i])
    requires NotifCount(q) == 0
    ensures Refcs(q) == []
  {
    if q != [] {
      NoNotifsNoRefcs(q[1..]);
    }
  }

  // A message from another server; `closed` is the answer of the data module to
  // a subscribe.
  datatype Arrival = Arrival(src: int, mode: Mode, body: int, closed: bool)

  // What a handler does that matters here: it syncs with another server,
  // taking messages meanwhile, or it tries to steal, which is a sync followed by
  // emptying the queue.
  datatype Doing = Sync(arrivals: seq<Arrival>) | TrySteal(arrivals: seq<Arrival>)

  // What the main loop meets: a sync message, or a message from a client.
  datatype Event = SyncMessage(a: Arrival) | ClientMessage

  // A sync of the idle check: what arrives meanwhile, whether that makes work
  // ready, and whether the server asked is idle.
  datatype Inquiry = Inquiry(arrivals: seq<Arrival>, ready: bool, idle: bool)

  // One turn of the main loop: the inquiries of the master's idle check, if it
  // makes one, the messages served, and the arrivals during a steal, if one is tried.
  datatype Turn = Turn(idleCheck: seq<Inquiry>, events: seq<Event>, steal: Option<seq<Arrival>>)

  // Who took a message: the main loop or the n-th handler to be started.
  datatype Taker = Loop | Handler(n: nat)

  datatype Taken = Taken(who: Taker, syncing: bool, a: Arrival)

  // The queue entry made for a message taken in a sync loop, if any.
  function EntryFor(rank: int, a: Arrival): (p: Option<Pending>)
    ensures p.Some? ==> WellFormed(p.value)
  {
    if a.src >= rank then Some(Pending(DeferredSync, a.src, Some(a.mode), a.body))
    else
      match a.mode
      case Refcount => Some(Pending(AcceptedRefc, a.src, Some(a.mode), a.body))
      case Notify => Some(Pending(DeferredNotify, a.src, Some(a.mode), a.body))
      case StealProbe => Some(Pending(DeferredStealProbe, a.src, None, a.body))
      case StealProbeResp => Some(Pending(DeferredStealProbeResp, a.src, Some(a.mode), a.body))
      case Subscribe => if a.closed then Some(Pending(UnsentNotify, a.src, Some(a.mode), a.body)) else None
      case _ => None
  }

  // The entries made for messages taken in a sync loop, in order.
  function Entries(rank: int, arrivals: seq<Arrival>): (q: seq<Pending>)
    ensures forall i :: 0 <= i < |q| ==> WellFormed(q[i])
    ensures |q| <= |arrivals|
  {
    if arrivals == [] then []
    else
      var front, last := Entries(rank, arrivals[..|arrivals| - 1]), EntryFor(rank, arrivals[|arrivals| - 1]);
      if last.Some? then front + [last.value] else front
  }

  // The entries ever queued, in order.
  function Queued(rank: int, log: seq<Taken>): seq<Pending> {
    if log == [] then []
    else
      var front, last := Queued(rank, log[..|log| - 1]), log[|log| - 1];
      if last.syncing && EntryFor(rank, last.a).Some? then front + [EntryFor(rank, last.a).value] else front
  }

  // The refcount changes among the messages taken, in order of arrival.
  function ChangesIn(log: seq<Taken>): seq<int> {
    if log == [] then []
    else
      var front, last := ChangesIn(log[..|log| - 1]), log[|log| - 1].a;
      if last.mode.Refcount? then front + [last.body] else front
  }

  // The messages one part of the program took, in order.
  function By(log: seq<Taken>, who: Taker): seq<Arrival> {
    if log == [] then []
    else
      var front, last := By(log[..|log| - 1], who), log[|log| - 1];
      if last.who == who then front + [last.a] else front
  }

  lemma LogSnoc(rank: int, log: seq<Taken>, t: Taken)
    ensures ChangesIn(log + [t]) == ChangesIn(log) + if t.a.mode.Refcount? then [t.a.body] else []
    ensures Queued(rank, log + [t]) ==
            Queued(rank, log) + if t.syncing && EntryFor(rank, t.a).Some? then [EntryFor(rank, t.a).value] else []
    ensures forall who :: By(log + [t], who) == By(log, who) + if t.who == who then [t.a] else []
  {
    hide EntryFor;
    assert (log + [t])[..|log|] == log;
  }

  lemma TakenInOrder(rank: int, applied: seq<int>, handled: seq<Pending>, q: seq<Pending>, log: seq<Taken>, who: Taker, a: Arrival)
    requires handled + q == Queued(rank, log) && InOrder(applied, q, ChangesIn(log))
    ensures var q' := q + if EntryFor(rank, a).Some? then [EntryFor(rank, a).value] else [];
            var log' := log + [Taken(who, true, a)];
            handled + q' == Queued(rank, log') && InOrder(applied, q', ChangesIn(log'))
  {
    LogSnoc(rank, log, Taken(who, true, a));
    hide Queued, ChangesIn;
    if EntryFor(rank, a).Some? {
      RefcsSnoc(q, EntryFor(rank, a).value);
    } else {
      assert q + [] == q;
    }
  }

  // A sync's messages as they are logged.
  function Tagged(who: Taker, arrivals: seq<Arrival>): seq<Taken> {
    seq(|arrivals|, i requires 0 <= i < |arrivals| => Taken(who, true, arrivals[i]))
  }

  lemma {:induction false} ByAppend(a: seq<Taken>, b: seq<Taken>, who: Taker)
    ensures By(a + b, who) == By(a, who) + By(b, who)
  {
    if b == [] {
      assert a + b == a;
    } else {
      assert (a + b)[..|a + b| - 1] == a + b[..|b| - 1];
      ByAppend(a, b[..|b| - 1], who);
    }
  }

  lemma {:induction false} ByTagged(from: Taker, arrivals: seq<Arrival>, who: Taker)
    ensures By(Tagged(from, arrivals), who) == if from == who then arrivals else []
  {
    if arrivals != [] {
      var front := arrivals[..|arrivals| - 1];
      assert Tagged(from, arrivals)[..|arrivals| - 1] == Tagged(from, front);
      ByTagged(from, front, who);
      assert arrivals == front + [arrivals[|arrivals| - 1]];
    }
  }

  lemma {:induction false} NotifCountAppend(a: seq<Pending>, b: seq<Pending>)
    requires forall i :: 0 <= i < |a| ==> WellFormed(a[i])
    requires forall i :: 0 <= i < |b| ==> WellFormed(b[i])
    ensures forall i :: 0 <= i < |a + b| ==> WellFormed((a + b)[i])
    ensures NotifCount(a + b) == NotifCount(a) + NotifCount(b)
  {
    if a == [] {
      assert a + b == b;
    } else {
      assert (a + b)[1..] == a[1..] + b;
      NotifCountAppend(a[1..], b);
    }
  }

  // ---- What the inputs give rise to ---------------------------------------------

  function PlanSize(plan: seq<Doing>): nat {
    if plan == [] then 0 else 1 + |plan[0].arrivals| + PlanSize(plan[1..])
  }

  function Size(plans: seq<seq<Doing>>): nat {
    if plans == [] then 0 else 1 + PlanSize(plans[0]) + Size(plans[1..])
  }

  lemma {:induction false} PlanSizeFrom(plan: seq<Doing>, i: nat)
    requires i < |plan|
    ensures PlanSize(plan[i..]) == 1 + |plan[i].arrivals| + PlanSize(plan[i + 1..])
  {
    assert plan[i..][1..] == plan[i + 1..];
  }

  // The messages a handler takes.
  function PlanArrivals(plan: seq<Doing>): seq<Arrival> {
    if plan == [] then [] else PlanArrivals(plan[..|plan| - 1]) + plan[|plan| - 1].arrivals
  }

  // Handlers beyond those planned do nothing of interest.
  function PlanAt(plans: seq<seq<Doing>>, n: nat): seq<Doing> {
    if n < |plans| then plans[n] else []
  }

  function PlansLeft(plans: seq<seq<Doing>>, n: nat): nat {
    if n <= |plans| then Size(plans[n..]) else 0
  }

  lemma NextPlan(plans: seq<seq<Doing>>, n: nat)
    ensures PlansLeft(plans, n) == PlansLeft(plans, n + 1) + if n < |plans| then 1 + PlanSize(plans[n]) else 0
  {
    if n < |plans| {
      assert plans[n..][1..] == plans[n + 1..];
    }
  }

  // The sync makes a notification wait, and so ends the idle check.
  predicate Notifies(rank: int, arrivals: seq<Arrival>) {
    NotifCount(Entries(rank, arrivals)) > 0
  }

  // Whether the idle check goes no further after this inquiry.
  predicate EndsCheck(rank: int, q: Inquiry) {
    Notifies(rank, q.arrivals) || q.ready || !q.idle
  }

  // The messages of the inquiries made: up to the first that ends the check.
  function InquiryArrivals(rank: int, qs: seq<Inquiry>): seq<Arrival> {
    if qs == [] then []
    else if EndsCheck(rank, qs[0]) then qs[0].arrivals
    else qs[0].arrivals + InquiryArrivals(rank, qs[1..])
  }

  function EventArrivals(events: seq<Event>): seq<Arrival> {
    if events == [] then []
    else
      var front, last := EventArrivals(events[..|events| - 1]), events[|events| - 1];
      if last.SyncMessage? then front + [last.a] else front
  }

  function TurnArrivals(rank: int, t: Turn): seq<Arrival> {
    InquiryArrivals(rank, t.idleCheck) + EventArrivals(t.events) + if t.steal.Some? then t.steal.value else []
  }

  // The messages the main loop itself takes, turn by turn.
  function LoopArrivals(rank: int, turns: seq<Turn>): seq<Arrival> {
    if turns == [] then [] else LoopArrivals(rank, turns[..|turns| - 1]) + TurnArrivals(rank, turns[|turns| - 1])
  }

  function Served(turns: seq<Turn>): nat {
    if turns == [] then 0 else Served(turns[..|turns| - 1]) + |turns[|turns| - 1].events|
  }

  // From log0 to log1 the main loop took the messages ms, and the handlers
  // started meanwhile, n0 to n1, took all of theirs and were the only ones to take any.
  ghost predicate Took(plans: seq<seq<Doing>>, log0: seq<Taken>, n0: nat, log1: seq<Taken>, n1: nat, ms: seq<Arrival>) {
    && log0 <= log1 && n0 <= n1
    && By(log1, Loop) == By(log0, Loop) + ms
    && forall i: nat :: By(log1, Handler(i)) ==
         By(log0, Handler(i)) + if n0 <= i < n1 then PlanArrivals(PlanAt(plans, i)) else []
  }

  // The same while handler n has taken the messages `done` and is still running.
  ghost predicate Taking(plans: seq<seq<Doing>>, log0: seq<Taken>, n: nat, log1: seq<Taken>, n1: nat, done: seq<Arrival>) {
    && log0 <= log1 && n < n1
    && By(log1, Loop) == By(log0, Loop)
    && forall i: nat :: By(log1, Handler(i)) ==
         By(log0, Handler(i)) + if i == n then done else if n < i < n1 then PlanArrivals(PlanAt(plans, i)) else []
  }

  lemma TookNothing(plans: seq<seq<Doing>>, log: seq<Taken>, n: nat)
    ensures Took(plans, log, n, log, n, []) && Taking(plans, log, n, log, n + 1, [])
  {
  }

  lemma TookMore(plans: seq<seq<Doing>>, log0: seq<Taken>, n0: nat, log1: seq<Taken>, n1: nat, ms1: seq<Arrival>,
                 log2: seq<Taken>, n2: nat, ms2: seq<Arrival>)
    requires Took(plans, log0, n0, log1, n1, ms1) && Took(plans, log1, n1, log2, n2, ms2)
    ensures Took(plans, log0, n0, log2, n2, ms1 + ms2)
  {
    hide By, PlanArrivals, PlanAt;
  }

  // Handlers started later belong to it.
  lemma TookOn(plans: seq<seq<Doing>>, log0: seq<Taken>, n0: nat, log1: seq<Taken>, n1: nat, ms: seq<Arrival>,
               log2: seq<Taken>, n2: nat)
    requires Took(plans, log0, n0, log1, n1, ms) && Took(plans, log1, n1, log2, n2, [])
    ensures Took(plans, log0, n0, log2, n2, ms)
  {
    hide Took;
    TookMore(plans, log0, n0, log1, n1, ms, log2, n2, []);
    assert ms + [] == ms;
  }

  lemma LoopSynced(plans: seq<seq<Doing>>, log: seq<Taken>, n: nat, arrivals: seq<Arrival>)
    ensures Took(plans, log, n, log + Tagged(Loop, arrivals), n, arrivals)
  {
    hide By, Tagged;
    forall who
      ensures By(log + Tagged(Loop, arrivals), who) == By(log, who) + if who == Loop then arrivals else []
    {
      ByAppend(log, Tagged(Loop, arrivals), who);
      ByTagged(Loop, arrivals, who);
    }
  }

  lemma LoopTook(plans: seq<seq<Doing>>, log: seq<Taken>, n: nat, a: Arrival)
    ensures Took(plans, log, n, log + [Taken(Loop, false, a)], n, [a])
  {
    LogSnoc(0, log, Taken(Loop, false, a));
    hide By;
  }

  lemma HandlerSynced(plans: seq<seq<Doing>>, log0: seq<Taken>, n: nat, log1: seq<Taken>, n1: nat, done: seq<Arrival>, arrivals: seq<Arrival>)
    requires Taking(plans, log0, n, log1, n1, done)
    ensures Taking(plans, log0, n, log1 + Tagged(Handler(n), arrivals), n1, done + arrivals)
  {
    hide By, Tagged, PlanArrivals, PlanAt;
    forall who
      ensures By(log1 + Tagged(Handler(n), arrivals), who) == By(log1, who) + if who == Handler(n) then arrivals else []
    {
      ByAppend(log1, Tagged(Handler(n), arrivals), who);
      ByTagged(Handler(n), arrivals, who);
    }
  }

  lemma HandlerNested(plans: seq<seq<Doing>>, log0: seq<Taken>, n: nat, log1: seq<Taken>, n1: nat, done: seq<Arrival>,
                      log2: seq<Taken>, n2: nat)
    requires Taking(plans, log0, n, log1, n1, done) && Took(plans, log1, n1, log2, n2, [])
    ensures Taking(plans, log0, n, log2, n2, done) && n < n2
  {
    hide By, PlanArrivals, PlanAt;
  }

  lemma HandlerDone(plans: seq<seq<Doing>>, log0: seq<Taken>, n: nat, log1: seq<Taken>, n1: nat)
    requires Taking(plans, log0, n, log1, n1, PlanArrivals(PlanAt(plans, n)))
    ensures Took(plans, log0, n, log1, n1, [])
  {
    hide By, PlanArrivals, PlanAt;
  }

  class Server {
    const rank: int
    const pending: PendingSyncs
    var applied: seq<int>

    // What handlers do, in the order they are started, and how many have been.
    const plans: seq<seq<Doing>>
    var next: nat

    ghost var log: seq<Taken>
    // The queue entries whose handlers have been started.
    ghost var handled: seq<Pending>

    // Every entry ever queued has been handled or still waits, in order; and
    // changes applied, then those that wait, are those that have arrived.
    ghost predicate Valid()
      reads this, pending, pending.buf
    {
      && pending.Valid()
      && handled + pending.Contents() == Queued(rank, log)
      && InOrder(applied, pending.Contents(), ChangesIn(log))
    }

    // No notification waits in the queue: the main loop may take a message.
    ghost predicate Settled()
      requires Valid()
      reads this, pending, pending.buf
    {
      NotifCount(pending.Contents()) == 0
    }

    // Bounds what handlers and queued entries can still give rise to.
    ghost function Work(): nat
      requires Valid()
      reads this, pending, pending.buf
    {
      2 * PlansLeft(plans, next) + |pending.Contents()|
    }

    // Handlers started for messages of the main loop, not for queue entries.
    ghost function Direct(): int
      reads this
    {
      next - |handled|
    }

    constructor (rank: int, plans: seq<seq<Doing>>)
      ensures Valid() && Settled() && log == [] && applied == [] && next == 0 && handled == []
      ensures this.rank == rank && this.plans == plans
      ensures fresh(pending) && fresh(pending.buf)
    {
      this.rank := rank;
      this.plans := plans;
      pending := new PendingSyncs(PENDING_SYNC_INIT_SIZE);
      applied, log, handled, next := [], [], [], 0;
    }

    // What has been applied is, at any time, the first changes to arrive.
    lemma AppliedInArrivalOrder()
      requires Valid()
      ensures applied <= ChangesIn(log)
      ensures Settled() ==> applied == ChangesIn(log)
    {
      hide ChangesIn;
      if Settled() {
        NoNotifsNoRefcs(pending.Contents());
      }
    }

    // The sync loop takes one message: accepted, deferred, or answered at once.
    method TakeInSyncLoop(ghost who: Taker, a: Arrival)
      requires Valid()
      modifies this`log, pending, pending.buf
      ensures Valid() && (pending.buf == old(pending.buf) || fresh(pending.buf))
      ensures log == old(log) + [Taken(who, true, a)]
      ensures pending.Contents() ==
              old(pending.Contents()) + if EntryFor(rank, a).Some? then [EntryFor(rank, a).value] else []
    {
      var entry: Option<Pending> := None;
      if a.src < rank {
        match a.mode {
          case Refcount => entry := Some(Pending(AcceptedRefc, a.src, Some(a.mode), a.body));
          case Notify => entry := Some(Pending(DeferredNotify, a.src, Some(a.mode), a.body));
          case StealProbe => entry := Some(Pending(DeferredStealProbe, a.src, None, a.body));
          case StealProbeResp => entry := Some(Pending(DeferredStealProbeResp, a.src, Some(a.mode), a.body));
          case Subscribe =>
            if a.closed {
              entry := Some(Pending(UnsentNotify, a.src, Some(a.mode), a.body));
            }
          case _ =>
        }
      } else {
        entry := Some(Pending(DeferredSync, a.src, Some(a.mode), a.body));
      }
      assert entry == EntryFor(rank, a);
      hide EntryFor, Queued, ChangesIn, InOrder, PendingSyncs.Contents;
      TakenInOrder(rank, applied, handled, pending.Contents(), log, who, a);
      if entry.Some? {
        pending.Enqueue(entry.value);
      } else {
        assert pending.Contents() + [] == pending.Contents();
      }
      log := log + [Taken(who, true, a)];
    }

    // One sync: every message taken before it is accepted.
    method SyncLoop(ghost who: Taker, arrivals: seq<Arrival>)
      requires Valid()
      modifies this`log, pending, pending.buf
      ensures Valid() && (pending.buf == old(pending.buf) || fresh(pending.buf))
      ensures log == old(log) + Tagged(who, arrivals)
      ensures pending.Contents() == old(pending.Contents()) + Entries(rank, arrivals)
    {
      hide Queued, ChangesIn, InOrder, NotifCount, PendingSyncs.Contents, EntryFor;
      for i := 0 to |arrivals|
        invariant Valid() && (pending.buf == old(pending.buf) || fresh(pending.buf))
        invariant log == old(log) + Tagged(who, arrivals[..i])
        invariant pending.Contents() == old(pending.Contents()) + Entries(rank, arrivals[..i])
      {
        TakeInSyncLoop(who, arrivals[i]);
        assert arrivals[..i + 1][..i] == arrivals[..i];
        assert Tagged(who, arrivals[..i + 1]) == Tagged(who, arrivals[..i]) + [Taken(who, true, arrivals[i])];
      }
      assert arrivals[..|arrivals|] == arrivals;
    }

    // The next handler runs: its syncs, and the emptying of the queue after a steal.
    method RunHandler()
      requires Valid()
      modifies this`applied, this`log, this`handled, this`next, pending, pending.buf
      ensures Valid() && (pending.buf == old(pending.buf) || fresh(pending.buf))
      ensures Took(plans, old(log), old(next), log, next, [])
      ensures Direct() == old(Direct()) + 1 && next > old(next)
      ensures Work() <= old(Work())
      decreases Work(), 0
    {
      hide InOrder, NotifCount, Queued, ChangesIn, Took, Taking, PendingSyncs.Contents, PendingSyncs.Valid, Tagged, Entries;
      ghost var n, log0 := next, log;
      var plan := PlanAt(plans, next);
      NextPlan(plans, next);
      next := next + 1;
      TookNothing(plans, log, n);
      assert plan[0..] == plan && plan[..0] == [];
      for i := 0 to |plan|
        invariant Valid() && (pending.buf == old(pending.buf) || fresh(pending.buf))
        invariant Taking(plans, log0, n, log, next, PlanArrivals(plan[..i])) && next > n
        invariant Direct() == old(Direct()) + 1
        invariant Work() + (if n < |plans| then 2 + 2 * PlanSize(plan[i..]) else 0) <= old(Work())
      {
        PlanSizeFrom(plan, i);
        assert plan[..i + 1][..i] == plan[..i];
        HandlerSynced(plans, log0, n, log, next, PlanArrivals(plan[..i]), plan[i].arrivals);
        SyncLoop(Handler(n), plan[i].arrivals);
        if plan[i].TrySteal? {
          ghost var log1, n1 := log, next;
          HandlePendingSyncs();
          HandlerNested(plans, log0, n, log1, n1, PlanArrivals(plan[..i + 1]), log, next);
        }
      }
      assert plan[..|plan|] == plan;
      HandlerDone(plans, log0, n, log, next);
    }

    /** Empties the queue in order, running each entry's handler; nothing is then left unapplied. */
    method HandlePendingSyncs()
      requires Valid()
      modifies this`applied, this`log, this`handled, this`next, pending, pending.buf
      ensures Valid() && (pending.buf == old(pending.buf) || fresh(pending.buf))
      ensures pending.Contents() == [] && Settled() && applied == ChangesIn(log) && handled == Queued(rank, log)
      ensures Took(plans, old(log), old(next), log, next, [])
      ensures Direct() == old(Direct())
      ensures Work() <= old(Work())
      decreases Work(), 1
    {
      hide InOrder, NotifCount, Queued, ChangesIn, Took, PendingSyncs.Contents;
      ghost var log0, n0 := log, next;
      TookNothing(plans, log, next);
      var e := DequeueApply();
      while e
        invariant Valid() && (pending.buf == old(pending.buf) || fresh(pending.buf))
        invariant Took(plans, log0, n0, log, next, [])
        invariant Direct() == old(Direct()) - if e then 1 else 0
        invariant e ==> Work() < old(Work())
        invariant Work() <= old(Work())
        invariant !e ==> pending.Contents() == []
        decreases Work(), e
      {
        ghost var log1, n1 := log, next;
        RunHandler();
        TookOn(plans, log0, n0, log1, n1, [], log, next);
        e := DequeueApply();
      }
      TakeNone(applied, ChangesIn(log));
    }

    // Takes the next entry, if any; a change it stands for is applied.
    method DequeueApply() returns (more: bool)
      requires Valid()
      modifies this`applied, this`handled, pending, pending.buf
      ensures Valid() && (pending.buf == old(pending.buf) || fresh(pending.buf))
      ensures more <==> old(pending.Contents()) != []
      ensures !more ==> pending.Contents() == [] && applied == old(applied) && handled == old(handled)
      ensures more ==> pending.Contents() == old(pending.Contents())[1..] && handled == old(handled) + [old(pending.Contents())[0]]
      ensures more ==> applied == old(applied) + RefcOf(old(pending.Contents())[0])
    {
      hide InOrder, NotifCount, Queued, ChangesIn, PendingSyncs.Contents;
      ghost var q := pending.Contents();
      var p := pending.Dequeue();
      more := p.Some?;
      if more {
        var e := p.value;
        assert q == [e] + pending.Contents();
        TakeFirst(applied, e, pending.Contents(), ChangesIn(log));
        handled := handled + [e];
        if e.kind.AcceptedRefc? || (e.kind.DeferredSync? && e.hdr.value.Refcount?) {
          applied := applied + [e.body];
        } else {
          assert applied + [] == applied;
        }
      }
    }

    // A sync message taken by the main loop: a change is applied at once.
    method TakeInMainLoop(a: Arrival)
      requires Valid() && Settled()
      modifies this`applied, this`log
      ensures Valid() && Settled()
      ensures applied == ChangesIn(log)
      ensures log == old(log) + [Taken(Loop, false, a)]
    {
      AppliedInArrivalOrder();
      hide Queued, ChangesIn;
      LogSnoc(rank, log, Taken(Loop, false, a));
      NoNotifsNoRefcs(pending.Contents());
      if a.mode.Refcount? {
        applied := applied + [a.body];
      }
      log := log + [Taken(Loop, false, a)];
    }

    // Serves messages; the queue is emptied after each.
    method ServeSeveral(events: seq<Event>)
      requires Valid() && Settled()
      modifies this`applied, this`log, this`handled, this`next, pending, pending.buf
      ensures Valid() && (pending.buf == old(pending.buf) || fresh(pending.buf))
      ensures Settled()
      ensures Took(plans, old(log), old(next), log, next, EventArrivals(events))
      ensures Direct() == old(Direct()) + |events|
    {
      hide InOrder, NotifCount, Queued, ChangesIn, Took, PendingSyncs.Contents, PendingSyncs.Valid;
      ghost var log0, n0 := log, next;
      TookNothing(plans, log, next);
      for i := 0 to |events|
        invariant Valid() && (pending.buf == old(pending.buf) || fresh(pending.buf))
        invariant Settled() && Direct() == old(Direct()) + i
        invariant Took(plans, log0, n0, log, next, EventArrivals(events[..i]))
      {
        ghost var log1, n1, ms := log, next, EventArrivals(events[..i]);
        assert events[..i + 1][..i] == events[..i];
        match events[i] {
          case SyncMessage(a) =>
            LoopTook(plans, log, next, a);
            TakeInMainLoop(a);
            TookMore(plans, log0, n0, log1, n1, ms, log, next, [a]);
          case ClientMessage =>
        }
        log1, n1, ms := log, next, EventArrivals(events[..i + 1]);
        RunHandler();
        TookOn(plans, log0, n0, log1, n1, ms, log, next);
        log1, n1 := log, next;
        HandlePendingSyncs();
        TookOn(plans, log0, n0, log1, n1, ms, log, next);
      }
      assert events[..|events|] == events;
    }

    // The master asks the other servers in turn, until one is not idle, work is
    // ready or notifications come in.
    method CheckIdle(qs: seq<Inquiry>)
      requires Valid() && Settled()
      modifies this`applied, this`log, this`handled, this`next, pending, pending.buf
      ensures Valid() && (pending.buf == old(pending.buf) || fresh(pending.buf))
      ensures Settled()
      ensures Took(plans, old(log), old(next), log, next, InquiryArrivals(rank, qs))
      ensures Direct() == old(Direct())
    {
      hide InOrder, NotifCount, Queued, ChangesIn, Took, PendingSyncs.Contents, Entries, Tagged;
      ghost var log0, n0 := log, next;
      TookNothing(plans, log, next);
      ghost var ms: seq<Arrival> := [];
      assert qs[0..] == qs;
      for i := 0 to |qs|
        invariant Valid() && (pending.buf == old(pending.buf) || fresh(pending.buf))
        invariant Settled() && next == n0 && Direct() == old(Direct())
        invariant Took(plans, log0, n0, log, next, ms)
        invariant ms + InquiryArrivals(rank, qs[i..]) == InquiryArrivals(rank, qs)
      {
        assert qs[i..][1..] == qs[i + 1..];
        ghost var log1 := log;
        QueueWellFormed(applied, pending.Contents(), ChangesIn(log));
        NotifCountAppend(pending.Contents(), Entries(rank, qs[i].arrivals));
        LoopSynced(plans, log, next, qs[i].arrivals);
        SyncLoop(Loop, qs[i].arrivals);
        TookMore(plans, log0, n0, log1, n0, ms, log, next, qs[i].arrivals);
        ms := ms + qs[i].arrivals;
        NotifCountPositive(pending.Contents());
        var notified := pending.HavePendingNotifs();
        if notified || qs[i].ready {
          log1 := log;
          HandlePendingSyncs();
          TookOn(plans, log0, n0, log1, n0, ms, log, next);
            return;
        }
        if !qs[i].idle {
          return;
        }
      }
      assert ms + [] == ms;
    }

    // One turn: the idle check, messages served, a steal.
    method DoTurn(t: Turn)
      requires Valid() && Settled()
      modifies this`applied, this`log, this`handled, this`next, pending, pending.buf
      ensures Valid() && (pending.buf == old(pending.buf) || fresh(pending.buf))
      ensures Settled() && applied == ChangesIn(log)
      ensures Took(plans, old(log), old(next), log, next, TurnArrivals(rank, t))
      ensures Direct() == old(Direct()) + |t.events|
    {
      hide InOrder, NotifCount, Queued, ChangesIn, Took, InquiryArrivals, EventArrivals, PendingSyncs.Contents,
        PendingSyncs.Valid, Tagged, Entries;
      ghost var log0, n0, ms := log, next, InquiryArrivals(rank, t.idleCheck);
      CheckIdle(t.idleCheck);
      ghost var log1, n1 := log, next;
      ServeSeveral(t.events);
      TookMore(plans, log0, n0, log1, n1, ms, log, next, EventArrivals(t.events));
      ms := ms + EventArrivals(t.events);
      assert ms + [] == ms;
      if t.steal.Some? {
        log1, n1 := log, next;
        LoopSynced(plans, log, next, t.steal.value);
        SyncLoop(Loop, t.steal.value);
        TookMore(plans, log0, n0, log1, n1, ms, log, next, t.steal.value);
        ms := ms + t.steal.value;
        log1, n1 := log, next;
        HandlePendingSyncs();
        TookOn(plans, log0, n0, log1, n1, ms, log, next);
      }
      AppliedInArrivalOrder();
    }

    /**
      The main loop, whatever arrives and whenever: at each turn every change that
      has arrived has been applied, in order.  The messages taken are those of the
      turns, and those of the handlers started, which are one for each message
      served and one for each entry queued.
     */
    method MainLoop(turns: seq<Turn>)
      requires Valid() && Settled()
      modifies this`applied, this`log, this`handled, this`next, pending, pending.buf
      ensures Valid() && Settled() && applied == ChangesIn(log)
      ensures Took(plans, old(log), old(next), log, next, LoopArrivals(rank, turns))
      ensures Direct() == old(Direct()) + Served(turns)
    {
      hide InOrder, NotifCount, Queued, ChangesIn, Took, PendingSyncs.Contents, PendingSyncs.Valid, Tagged, Entries;
      AppliedInArrivalOrder();
      ghost var log0, n0 := log, next;
      TookNothing(plans, log, next);
      for i := 0 to |turns|
        invariant Valid() && (pending.buf == old(pending.buf) || fresh(pending.buf))
        invariant Settled() && applied == ChangesIn(log)
        invariant Took(plans, log0, n0, log, next, LoopArrivals(rank, turns[..i]))
        invariant Direct() == old(Direct()) + Served(turns[..i])
      {
        assert turns[..i + 1][..i] == turns[..i];
        ghost var log1, n1 := log, next;
        DoTurn(turns[i]);
        TookMore(plans, log0, n0, log1, n1, LoopArrivals(rank, turns[..i]), log, next, TurnArrivals(rank, turns[i]));
      }
      assert turns[..|turns|] == turns;
    }
  }
}
