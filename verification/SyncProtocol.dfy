/**
  The server-to-server sync protocol as a state machine over n servers, ranked
  by index.  A server has at most one sync of its own outstanding.  While it
  waits it keeps receiving: it accepts syncs of lower ranks at once and defers
  those of higher ranks until its own is through.  A send may complete before
  its message is received, and serving another server may start a sync.
 */
module SyncProtocol {
  import opened Options
  import opened PendingRing

  predicate AcceptRequired(m: Mode) {
    m.Request? || m.Steal?
  }

  // AwaitAccept: in the sync loop until the target accepts.  AwaitSend: in the
  // sync loop until the send completes, which it does at the latest when the
  // target has received the message.  AwaitReply: blocked in the exchange that
  // follows acceptance.
  datatype Outer = Main | AwaitAccept(target: nat, mode: Mode) | AwaitSend(target: nat, mode: Mode) | AwaitReply(target: nat)

  datatype Msg = Msg(src: nat, mode: Mode)

  // `inflight` has the message each server still waits for, `posted[t]` those to
  // t that their senders no longer wait for.  `serving[t]` is the server whose
  // accepted sync t is blocked on; `below[t]` is the one t was serving from its
  // main loop when the request it handles made it start a sync.
  datatype State = State(
    outer: seq<Outer>,
    serving: seq<Option<nat>>,
    below: seq<Option<nat>>,
    deferred: seq<seq<Msg>>,
    inflight: map<nat, (nat, Mode)>,
    posted: seq<seq<Msg>>,
    accepted: set<nat>,
    replied: set<nat>)

  predicate Sized(st: State, n: nat) {
    |st.outer| == n && |st.serving| == n && |st.below| == n && |st.deferred| == n && |st.posted| == n
  }

  datatype Step =
    | StartSync(s: nat, t: nat, mode: Mode)
    | StartNested(s: nat, t: nat, mode: Mode)
    | Receive(t: nat, s: nat)
    | ReceivePosted(t: nat, i: nat)
    | NoticeAccept(s: nat)
    | NoticeSent(s: nat)
    | Serve(t: nat)
    | NoticeReply(s: nat)
    | HandleDeferred(t: nat)

  // In the main loop or in the sync loop, not blocked on anyone.
  predicate Polling(st: State, n: nat, t: nat)
    requires Sized(st, n) && t < n
  {
    st.serving[t].None? && !st.outer[t].AwaitReply?
  }

  // None of the first i messages is from s: messages between two servers do not
  // overtake each other.
  predicate FirstOf(ms: seq<Msg>, i: nat, s: nat)
    requires i <= |ms|
  {
    forall j :: 0 <= j < i ==> ms[j].src != s
  }

  predicate Enabled(st: State, n: nat, step: Step)
    requires Sized(st, n)
  {
    match step
    case StartSync(s, t, mode) => s < n && t < n && s != t && st.outer[s].Main? && st.serving[s].None?
    case StartNested(s, t, mode) =>
      && s < n && t < n && s != t && st.outer[s].Main? && st.serving[s].Some? && !AcceptRequired(mode)
      && st.serving[s].value < n && st.outer[st.serving[s].value] == AwaitReply(s)
    case Receive(t, s) => t < n && s in st.inflight && st.inflight[s].0 == t && Polling(st, n, t) && FirstOf(st.posted[t], |st.posted[t]|, s)
    case ReceivePosted(t, i) => t < n && i < |st.posted[t]| && Polling(st, n, t) && FirstOf(st.posted[t], i, st.posted[t][i].src)
    case NoticeAccept(s) => s < n && st.outer[s].AwaitAccept? && st.serving[s].None? && s in st.accepted
    case NoticeSent(s) => s < n && st.outer[s].AwaitSend? && st.serving[s].None?
    case Serve(t) => t < n && st.serving[t].Some? && st.serving[t].value < n
                     && st.outer[st.serving[t].value] == AwaitReply(t)
    case NoticeReply(s) => s < n && st.outer[s].AwaitReply? && s in st.replied
    case HandleDeferred(t) => t < n && st.outer[t].Main? && st.serving[t].None? && st.deferred[t] != []
  }

  // Accept a sync: answer its sender and serve it, if it asks for that.
  function Accept(st: State, n: nat, t: nat, m: Msg): State
    requires Sized(st, n) && t < n
  {
    if AcceptRequired(m.mode) then
      st.(accepted := st.accepted + {m.src}, serving := st.serving[t := Some(m.src)])
    else st
  }

  // The sync returns, to whoever was being served beneath it.
  function Returned(st: State, n: nat, s: nat): State
    requires Sized(st, n) && s < n
  {
    st.(outer := st.outer[s := Main], serving := st.serving[s := st.below[s]], below := st.below[s := None])
  }

  // The send has completed; the message may still be on its way.
  function Post(st: State, n: nat, s: nat): State
    requires Sized(st, n)
  {
    if s !in st.inflight || st.inflight[s].0 >= n then st
    else
      var t := st.inflight[s].0;
      st.(inflight := st.inflight - {s}, posted := st.posted[t := st.posted[t] + [Msg(s, st.inflight[s].1)]])
  }

  // Take a message: at once, or after the own sync if it comes from a higher rank.
  function Take(st: State, n: nat, t: nat, m: Msg): State
    requires Sized(st, n) && t < n
  {
    if st.outer[t].Main? || m.src < t then Accept(st, n, t, m)
    else st.(deferred := st.deferred[t := st.deferred[t] + [m]])
  }

  function Apply(st: State, n: nat, step: Step): State
    requires Sized(st, n) && Enabled(st, n, step)
  {
    match step
    case StartSync(s, t, mode) =>
      st.(inflight := st.inflight[s := (t, mode)],
          outer := st.outer[s := if AcceptRequired(mode) then AwaitAccept(t, mode) else AwaitSend(t, mode)])
    case StartNested(s, t, mode) =>
      st.(inflight := st.inflight[s := (t, mode)], outer := st.outer[s := AwaitSend(t, mode)],
          serving := st.serving[s := None], below := st.below[s := st.serving[s]])
    case Receive(t, s) => Take(st.(inflight := st.inflight - {s}), n, t, Msg(s, st.inflight[s].1))
    case ReceivePosted(t, i) =>
      Take(st.(posted := st.posted[t := st.posted[t][..i] + st.posted[t][i + 1..]]), n, t, st.posted[t][i])
    case NoticeAccept(s) =>
      st.(accepted := st.accepted - {s}, outer := st.outer[s := AwaitReply(st.outer[s].target)])
    case NoticeSent(s) => Post(Returned(st, n, s), n, s)
    case Serve(t) => st.(serving := st.serving[t := None], replied := st.replied + {st.serving[t].value})
    case NoticeReply(s) => st.(replied := st.replied - {s}, outer := st.outer[s := Main])
    case HandleDeferred(t) =>
      Accept(st.(deferred := st.deferred[t := st.deferred[t][1..]]), n, t, st.deferred[t][0])
  }

  function Init(n: nat): State {
    State(seq(n, _ => Main), seq(n, _ => None), seq(n, _ => None), seq(n, _ => []), map[], seq(n, _ => []), {}, {})
  }

  ghost predicate Next(st: State, st': State, n: nat) {
    Sized(st, n) && exists step :: Enabled(st, n, step) && st' == Apply(st, n, step)
  }

  // States reached by k steps.
  ghost predicate Reachable(n: nat, st: State, k: nat)
    decreases k
  {
    if k == 0 then st == Init(n) else exists st0 :: Reachable(n, st0, k - 1) && Next(st0, st, n)
  }

  // Message of s to t, and s waiting for it.
  ghost predicate InFlightOk(st: State, n: nat)
    requires Sized(st, n)
  {
    forall s :: s in st.inflight ==>
      && s < n && st.inflight[s].0 < n && st.inflight[s].0 != s
      && st.outer[s] == (if AcceptRequired(st.inflight[s].1) then AwaitAccept(st.inflight[s].0, st.inflight[s].1)
                         else AwaitSend(st.inflight[s].0, st.inflight[s].1))
      && s !in st.accepted
  }

  // An unaccepted sync in a deferral queue comes from a strictly higher rank.
  ghost predicate DeferredOk(st: State, n: nat)
    requires Sized(st, n)
  {
    && (forall t, i :: 0 <= t < n && 0 <= i < |st.deferred[t]| ==>
          var m := st.deferred[t][i];
          && m.src > t && m.src < n
          && (AcceptRequired(m.mode) ==>
                st.outer[m.src] == AwaitAccept(t, m.mode) && m.src !in st.inflight && m.src !in st.accepted))
    && (forall t, i, j :: 0 <= t < n && 0 <= i < j < |st.deferred[t]| ==>
          var a, b := st.deferred[t][i], st.deferred[t][j];
          AcceptRequired(a.mode) && AcceptRequired(b.mode) ==> a.src != b.src)
  }

  ghost predicate InQueue(st: State, n: nat, t: nat, m: Msg)
    requires Sized(st, n) && t < n
  {
    m in st.deferred[t]
  }

  // A server waiting for acceptance has its sync in flight, deferred or accepted.
  ghost predicate AwaitingOk(st: State, n: nat)
    requires Sized(st, n)
  {
    forall s :: 0 <= s < n && st.outer[s].AwaitAccept? ==>
      var t := st.outer[s].target;
      && t < n && t != s && AcceptRequired(st.outer[s].mode)
      && (|| s in st.inflight
          || InQueue(st, n, t, Msg(s, st.outer[s].mode))
          || (s in st.accepted && st.serving[t] == Some(s)))
  }

  ghost predicate ServingOk(st: State, n: nat)
    requires Sized(st, n)
  {
    && (forall t :: 0 <= t < n && st.serving[t].Some? ==>
          var s := st.serving[t].value;
          && s < n && s != t && s !in st.replied && s !in st.inflight
          && ((st.outer[s].AwaitAccept? && st.outer[s].target == t && s in st.accepted) || st.outer[s] == AwaitReply(t))
          && !st.outer[t].AwaitReply?
          && (!st.outer[t].Main? ==> s < t))
    && (forall s :: s in st.accepted ==> s < n && st.outer[s].AwaitAccept?)
    && (forall s :: s in st.replied ==> s < n && st.outer[s].AwaitReply?)
    && (forall s :: 0 <= s < n && st.outer[s].AwaitReply? ==>
          var t := st.outer[s].target;
          t < n && (s in st.replied || st.serving[t] == Some(s) || st.below[t] == Some(s)))
    && (forall s :: 0 <= s < n && st.outer[s].AwaitSend? ==> !AcceptRequired(st.outer[s].mode))
  }

  // Nobody waits for an answer to a posted message.
  ghost predicate PostedOk(st: State, n: nat)
    requires Sized(st, n)
  {
    forall t, i :: 0 <= t < n && 0 <= i < |st.posted[t]| ==>
      var m := st.posted[t][i];
      m.src < n && m.src != t && !AcceptRequired(m.mode)
  }

  // Whoever is served beneath a sync waits for the reply.
  ghost predicate BelowOk(st: State, n: nat)
    requires Sized(st, n)
  {
    forall t :: 0 <= t < n && st.below[t].Some? ==>
      var s := st.below[t].value;
      s < n && s != t && st.outer[s] == AwaitReply(t) && s !in st.replied && st.outer[t].AwaitSend? && st.serving[t] != Some(s)
  }

  predicate Starts(step: Step) {
    step.StartSync? || step.StartNested?
  }

  // A step that is bound to be possible: a send is sure to complete once its
  // message is received, and at once if it was started while serving, for which
  // the target's buffers, posted in advance, are there.
  predicate Forced(st: State, n: nat, step: Step)
    requires Sized(st, n)
  {
    && Enabled(st, n, step) && !Starts(step)
    && (step.NoticeSent? ==> step.s < n && (step.s !in st.inflight || st.below[step.s].Some?))
  }

  ghost predicate Inv(st: State, n: nat) {
    Sized(st, n) && InFlightOk(st, n) && PostedOk(st, n) && BelowOk(st, n) && DeferredOk(st, n) && AwaitingOk(st, n) && ServingOk(st, n)
  }

  lemma InitInv(n: nat)
    ensures Inv(Init(n), n)
  {
  }

  lemma StartQueues(st: State, n: nat, s: nat, t: nat, mode: Mode)
    requires Inv(st, n) && Enabled(st, n, StartSync(s, t, mode))
    ensures InFlightOk(Apply(st, n, StartSync(s, t, mode)), n) && DeferredOk(Apply(st, n, StartSync(s, t, mode)), n)
  {
    hide AwaitingOk;
  }

  lemma StartWaits(st: State, n: nat, s: nat, t: nat, mode: Mode)
    requires Inv(st, n) && Enabled(st, n, StartSync(s, t, mode))
    ensures AwaitingOk(Apply(st, n, StartSync(s, t, mode)), n)
  {
    hide DeferredOk;
    var st' := Apply(st, n, StartSync(s, t, mode));
    forall r | 0 <= r < n && st.outer[r].AwaitAccept? && InQueue(st, n, st.outer[r].target, Msg(r, st.outer[r].mode))
      ensures InQueue(st', n, st.outer[r].target, Msg(r, st.outer[r].mode))
    {
    }
  }

  lemma StartServes(st: State, n: nat, s: nat, t: nat, mode: Mode)
    requires Inv(st, n) && Enabled(st, n, StartSync(s, t, mode))
    ensures ServingOk(Apply(st, n, StartSync(s, t, mode)), n)
  {
    hide DeferredOk, AwaitingOk;
  }

  lemma StartKeeps(st: State, n: nat, s: nat, t: nat, mode: Mode)
    requires Inv(st, n) && Enabled(st, n, StartSync(s, t, mode))
    ensures Inv(Apply(st, n, StartSync(s, t, mode)), n)
  {
    hide InFlightOk, DeferredOk, AwaitingOk, ServingOk;
    StartQueues(st, n, s, t, mode);
    StartWaits(st, n, s, t, mode);
    StartServes(st, n, s, t, mode);
  }

  lemma NestedQueues(st: State, n: nat, s: nat, t: nat, mode: Mode)
    requires Inv(st, n) && Enabled(st, n, StartNested(s, t, mode))
    ensures InFlightOk(Apply(st, n, StartNested(s, t, mode)), n) && DeferredOk(Apply(st, n, StartNested(s, t, mode)), n)
  {
    hide AwaitingOk;
  }

  lemma NestedWaits(st: State, n: nat, s: nat, t: nat, mode: Mode)
    requires Inv(st, n) && Enabled(st, n, StartNested(s, t, mode))
    ensures AwaitingOk(Apply(st, n, StartNested(s, t, mode)), n)
  {
    hide DeferredOk;
    var st' := Apply(st, n, StartNested(s, t, mode));
    forall r | 0 <= r < n && st.outer[r].AwaitAccept? && InQueue(st, n, st.outer[r].target, Msg(r, st.outer[r].mode))
      ensures InQueue(st', n, st.outer[r].target, Msg(r, st.outer[r].mode))
    {
    }
  }

  lemma NestedServes(st: State, n: nat, s: nat, t: nat, mode: Mode)
    requires Inv(st, n) && Enabled(st, n, StartNested(s, t, mode))
    ensures ServingOk(Apply(st, n, StartNested(s, t, mode)), n) && BelowOk(Apply(st, n, StartNested(s, t, mode)), n)
  {
    hide DeferredOk, AwaitingOk;
  }

  lemma NestedKeeps(st: State, n: nat, s: nat, t: nat, mode: Mode)
    requires Inv(st, n) && Enabled(st, n, StartNested(s, t, mode))
    ensures Inv(Apply(st, n, StartNested(s, t, mode)), n)
  {
    hide InFlightOk, DeferredOk, AwaitingOk, ServingOk, BelowOk;
    NestedQueues(st, n, s, t, mode);
    NestedWaits(st, n, s, t, mode);
    NestedServes(st, n, s, t, mode);
  }

  lemma ReceiveAcceptServing(st: State, n: nat, t: nat, s: nat)
    requires Inv(st, n) && Enabled(st, n, Receive(t, s)) && (st.outer[t].Main? || s < t)
    ensures ServingOk(Apply(st, n, Receive(t, s)), n)
  {
    hide AwaitingOk, DeferredOk;
  }

  lemma ReceiveAcceptAwaiting(st: State, n: nat, t: nat, s: nat)
    requires Inv(st, n) && Enabled(st, n, Receive(t, s)) && (st.outer[t].Main? || s < t)
    ensures AwaitingOk(Apply(st, n, Receive(t, s)), n)
  {
    hide DeferredOk;
    var st' := Apply(st, n, Receive(t, s));
    forall r | 0 <= r < n && st.outer[r].AwaitAccept? && InQueue(st, n, st.outer[r].target, Msg(r, st.outer[r].mode))
      ensures InQueue(st', n, st.outer[r].target, Msg(r, st.outer[r].mode))
    {
    }
  }

  lemma ReceiveAcceptKeeps(st: State, n: nat, t: nat, s: nat)
    requires Inv(st, n) && Enabled(st, n, Receive(t, s)) && (st.outer[t].Main? || s < t)
    ensures Inv(Apply(st, n, Receive(t, s)), n)
  {
    hide AwaitingOk, ServingOk;
    ReceiveAcceptServing(st, n, t, s);
    ReceiveAcceptAwaiting(st, n, t, s);
  }

  lemma ReceiveDeferQueues(st: State, n: nat, t: nat, s: nat)
    requires Inv(st, n) && Enabled(st, n, Receive(t, s)) && !st.outer[t].Main? && s >= t
    ensures InFlightOk(Apply(st, n, Receive(t, s)), n) && DeferredOk(Apply(st, n, Receive(t, s)), n)
  {
    hide AwaitingOk;
  }

  lemma ReceiveDeferWaits(st: State, n: nat, t: nat, s: nat)
    requires Inv(st, n) && Enabled(st, n, Receive(t, s)) && !st.outer[t].Main? && s >= t
    ensures AwaitingOk(Apply(st, n, Receive(t, s)), n)
  {
    hide DeferredOk;
    var st' := Apply(st, n, Receive(t, s));
    var m := Msg(s, st.inflight[s].1);
    assert st'.deferred[t][|st.deferred[t]|] == m;
    assert InQueue(st', n, t, m);
    forall r | 0 <= r < n && st.outer[r].AwaitAccept? && InQueue(st, n, st.outer[r].target, Msg(r, st.outer[r].mode))
      ensures InQueue(st', n, st.outer[r].target, Msg(r, st.outer[r].mode))
    {
    }
  }

  lemma ReceiveDeferServes(st: State, n: nat, t: nat, s: nat)
    requires Inv(st, n) && Enabled(st, n, Receive(t, s)) && !st.outer[t].Main? && s >= t
    ensures ServingOk(Apply(st, n, Receive(t, s)), n)
  {
    hide DeferredOk, AwaitingOk;
  }

  lemma ReceiveDeferKeeps(st: State, n: nat, t: nat, s: nat)
    requires Inv(st, n) && Enabled(st, n, Receive(t, s)) && !st.outer[t].Main? && s >= t
    ensures Inv(Apply(st, n, Receive(t, s)), n)
  {
    hide InFlightOk, DeferredOk, AwaitingOk, ServingOk;
    ReceiveDeferQueues(st, n, t, s);
    ReceiveDeferWaits(st, n, t, s);
    ReceiveDeferServes(st, n, t, s);
  }

  lemma NoticeAcceptQueues(st: State, n: nat, s: nat)
    requires Inv(st, n) && Enabled(st, n, NoticeAccept(s))
    ensures InFlightOk(Apply(st, n, NoticeAccept(s)), n) && DeferredOk(Apply(st, n, NoticeAccept(s)), n)
  {
    hide AwaitingOk;
  }

  lemma NoticeAcceptWaits(st: State, n: nat, s: nat)
    requires Inv(st, n) && Enabled(st, n, NoticeAccept(s))
    ensures AwaitingOk(Apply(st, n, NoticeAccept(s)), n)
  {
    hide DeferredOk;
    var st' := Apply(st, n, NoticeAccept(s));
    forall r | 0 <= r < n && st.outer[r].AwaitAccept? && InQueue(st, n, st.outer[r].target, Msg(r, st.outer[r].mode))
      ensures InQueue(st', n, st.outer[r].target, Msg(r, st.outer[r].mode))
    {
    }
  }

  lemma NoticeAcceptServes(st: State, n: nat, s: nat)
    requires Inv(st, n) && Enabled(st, n, NoticeAccept(s))
    ensures ServingOk(Apply(st, n, NoticeAccept(s)), n)
  {
    assert st.serving[st.outer[s].target] == Some(s);
  }

  lemma NoticeAcceptKeeps(st: State, n: nat, s: nat)
    requires Inv(st, n) && Enabled(st, n, NoticeAccept(s))
    ensures Inv(Apply(st, n, NoticeAccept(s)), n)
  {
    hide InFlightOk, DeferredOk, AwaitingOk, ServingOk;
    NoticeAcceptQueues(st, n, s);
    NoticeAcceptWaits(st, n, s);
    NoticeAcceptServes(st, n, s);
  }

  lemma NoticeSentQueues(st: State, n: nat, s: nat)
    requires Inv(st, n) && Enabled(st, n, NoticeSent(s))
    ensures InFlightOk(Apply(st, n, NoticeSent(s)), n) && DeferredOk(Apply(st, n, NoticeSent(s)), n)
    ensures PostedOk(Apply(st, n, NoticeSent(s)), n)
  {
    hide AwaitingOk;
  }

  lemma NoticeSentWaits(st: State, n: nat, s: nat)
    requires Inv(st, n) && Enabled(st, n, NoticeSent(s))
    ensures AwaitingOk(Apply(st, n, NoticeSent(s)), n)
  {
    hide DeferredOk;
    var st' := Apply(st, n, NoticeSent(s));
    forall r | 0 <= r < n && st.outer[r].AwaitAccept? && InQueue(st, n, st.outer[r].target, Msg(r, st.outer[r].mode))
      ensures InQueue(st', n, st.outer[r].target, Msg(r, st.outer[r].mode))
    {
    }
  }

  lemma ReturnedServes(st: State, n: nat, s: nat)
    requires Inv(st, n) && Enabled(st, n, NoticeSent(s))
    ensures ServingOk(Returned(st, n, s), n) && BelowOk(Returned(st, n, s), n)
  {
    hide DeferredOk, AwaitingOk, PostedOk;
  }

  lemma PostServes(st: State, n: nat, s: nat)
    requires Sized(st, n) && ServingOk(st, n) && BelowOk(st, n)
    ensures ServingOk(Post(st, n, s), n) && BelowOk(Post(st, n, s), n)
  {
  }

  lemma NoticeSentServes(st: State, n: nat, s: nat)
    requires Inv(st, n) && Enabled(st, n, NoticeSent(s))
    ensures ServingOk(Apply(st, n, NoticeSent(s)), n) && BelowOk(Apply(st, n, NoticeSent(s)), n)
  {
    hide InFlightOk, DeferredOk, AwaitingOk, PostedOk, ServingOk, BelowOk;
    ReturnedServes(st, n, s);
    PostServes(Returned(st, n, s), n, s);
  }

  lemma NoticeSentKeeps(st: State, n: nat, s: nat)
    requires Inv(st, n) && Enabled(st, n, NoticeSent(s))
    ensures Inv(Apply(st, n, NoticeSent(s)), n)
  {
    hide InFlightOk, DeferredOk, AwaitingOk, ServingOk, PostedOk, BelowOk;
    NoticeSentQueues(st, n, s);
    NoticeSentWaits(st, n, s);
    NoticeSentServes(st, n, s);
  }

  lemma PostedDeferred(st: State, n: nat, t: nat, i: nat)
    requires Inv(st, n) && Enabled(st, n, ReceivePosted(t, i))
    ensures DeferredOk(Apply(st, n, ReceivePosted(t, i)), n) && PostedOk(Apply(st, n, ReceivePosted(t, i)), n)
  {
    hide AwaitingOk, ServingOk;
  }

  lemma PostedWaits(st: State, n: nat, t: nat, i: nat)
    requires Inv(st, n) && Enabled(st, n, ReceivePosted(t, i))
    ensures AwaitingOk(Apply(st, n, ReceivePosted(t, i)), n)
  {
    hide DeferredOk;
    var st' := Apply(st, n, ReceivePosted(t, i));
    forall r | 0 <= r < n && st.outer[r].AwaitAccept? && InQueue(st, n, st.outer[r].target, Msg(r, st.outer[r].mode))
      ensures InQueue(st', n, st.outer[r].target, Msg(r, st.outer[r].mode))
    {
    }
  }

  lemma PostedServes(st: State, n: nat, t: nat, i: nat)
    requires Inv(st, n) && Enabled(st, n, ReceivePosted(t, i))
    ensures ServingOk(Apply(st, n, ReceivePosted(t, i)), n) && InFlightOk(Apply(st, n, ReceivePosted(t, i)), n)
    ensures BelowOk(Apply(st, n, ReceivePosted(t, i)), n)
  {
    hide DeferredOk, AwaitingOk;
  }

  lemma PostedKeeps(st: State, n: nat, t: nat, i: nat)
    requires Inv(st, n) && Enabled(st, n, ReceivePosted(t, i))
    ensures Inv(Apply(st, n, ReceivePosted(t, i)), n)
  {
    hide InFlightOk, DeferredOk, AwaitingOk, ServingOk, PostedOk, BelowOk;
    PostedDeferred(st, n, t, i);
    PostedWaits(st, n, t, i);
    PostedServes(st, n, t, i);
  }

  lemma ServeQueues(st: State, n: nat, t: nat)
    requires Inv(st, n) && Enabled(st, n, Serve(t))
    ensures InFlightOk(Apply(st, n, Serve(t)), n) && DeferredOk(Apply(st, n, Serve(t)), n)
  {
    hide AwaitingOk;
  }

  lemma ServeWaits(st: State, n: nat, t: nat)
    requires Inv(st, n) && Enabled(st, n, Serve(t))
    ensures AwaitingOk(Apply(st, n, Serve(t)), n)
  {
    hide DeferredOk;
    var st' := Apply(st, n, Serve(t));
    forall r | 0 <= r < n && st.outer[r].AwaitAccept? && InQueue(st, n, st.outer[r].target, Msg(r, st.outer[r].mode))
      ensures InQueue(st', n, st.outer[r].target, Msg(r, st.outer[r].mode))
    {
    }
  }

  lemma ServeServes(st: State, n: nat, t: nat)
    requires Inv(st, n) && Enabled(st, n, Serve(t))
    ensures ServingOk(Apply(st, n, Serve(t)), n)
  {
    hide DeferredOk, AwaitingOk;
  }

  lemma ServeKeeps(st: State, n: nat, t: nat)
    requires Inv(st, n) && Enabled(st, n, Serve(t))
    ensures Inv(Apply(st, n, Serve(t)), n)
  {
    hide InFlightOk, DeferredOk, AwaitingOk, ServingOk;
    ServeQueues(st, n, t);
    ServeWaits(st, n, t);
    ServeServes(st, n, t);
  }

  lemma NoticeReplyQueues(st: State, n: nat, s: nat)
    requires Inv(st, n) && Enabled(st, n, NoticeReply(s))
    ensures InFlightOk(Apply(st, n, NoticeReply(s)), n) && DeferredOk(Apply(st, n, NoticeReply(s)), n)
  {
    hide AwaitingOk;
  }

  lemma NoticeReplyWaits(st: State, n: nat, s: nat)
    requires Inv(st, n) && Enabled(st, n, NoticeReply(s))
    ensures AwaitingOk(Apply(st, n, NoticeReply(s)), n)
  {
    hide DeferredOk;
    var st' := Apply(st, n, NoticeReply(s));
    forall r | 0 <= r < n && st.outer[r].AwaitAccept? && InQueue(st, n, st.outer[r].target, Msg(r, st.outer[r].mode))
      ensures InQueue(st', n, st.outer[r].target, Msg(r, st.outer[r].mode))
    {
    }
  }

  lemma NoticeReplyServes(st: State, n: nat, s: nat)
    requires Inv(st, n) && Enabled(st, n, NoticeReply(s))
    ensures ServingOk(Apply(st, n, NoticeReply(s)), n) && BelowOk(Apply(st, n, NoticeReply(s)), n)
  {
    hide DeferredOk, AwaitingOk, PostedOk;
  }

  lemma NoticeReplyKeeps(st: State, n: nat, s: nat)
    requires Inv(st, n) && Enabled(st, n, NoticeReply(s))
    ensures Inv(Apply(st, n, NoticeReply(s)), n)
  {
    hide InFlightOk, DeferredOk, AwaitingOk, ServingOk, BelowOk;
    NoticeReplyQueues(st, n, s);
    NoticeReplyWaits(st, n, s);
    NoticeReplyServes(st, n, s);
  }

  lemma HandleQueues(st: State, n: nat, t: nat)
    requires Inv(st, n) && Enabled(st, n, HandleDeferred(t))
    ensures InFlightOk(Apply(st, n, HandleDeferred(t)), n)
    ensures DeferredOk(Apply(st, n, HandleDeferred(t)), n)
  {
    hide AwaitingOk, ServingOk;
    var st' := Apply(st, n, HandleDeferred(t));
    var q := st.deferred[t];
    assert forall i :: 0 <= i < |st'.deferred[t]| ==> st'.deferred[t][i] == q[i + 1];
  }

  lemma HandleAwaiting(st: State, n: nat, t: nat)
    requires Inv(st, n) && Enabled(st, n, HandleDeferred(t))
    ensures AwaitingOk(Apply(st, n, HandleDeferred(t)), n)
  {
    hide InFlightOk;
    var st' := Apply(st, n, HandleDeferred(t));
    var q, m := st.deferred[t], st.deferred[t][0];
    forall r | 0 <= r < n && st.outer[r].AwaitAccept? && InQueue(st, n, st.outer[r].target, Msg(r, st.outer[r].mode))
      ensures m == Msg(r, st.outer[r].mode) || InQueue(st', n, st.outer[r].target, Msg(r, st.outer[r].mode))
    {
      if st.outer[r].target == t {
        var i :| 0 <= i < |q| && q[i] == Msg(r, st.outer[r].mode);
        if i > 0 {
          assert st'.deferred[t][i - 1] == Msg(r, st.outer[r].mode);
        }
      }
    }
  }

  lemma HandleServing(st: State, n: nat, t: nat)
    requires Inv(st, n) && Enabled(st, n, HandleDeferred(t))
    ensures ServingOk(Apply(st, n, HandleDeferred(t)), n)
  {
    hide AwaitingOk, InFlightOk;
    assert st.deferred[t][0].src > t;
  }

  lemma HandleKeeps(st: State, n: nat, t: nat)
    requires Inv(st, n) && Enabled(st, n, HandleDeferred(t))
    ensures Inv(Apply(st, n, HandleDeferred(t)), n)
  {
    hide AwaitingOk, InFlightOk, DeferredOk, ServingOk;
    HandleQueues(st, n, t);
    HandleAwaiting(st, n, t);
    HandleServing(st, n, t);
  }

  lemma StepKeeps(st: State, n: nat, step: Step)
    requires Inv(st, n) && Enabled(st, n, step)
    ensures Inv(Apply(st, n, step), n)
  {
    hide AwaitingOk, InFlightOk, DeferredOk, ServingOk;
    match step
    case StartSync(s, t, mode) => StartKeeps(st, n, s, t, mode);
    case StartNested(s, t, mode) => NestedKeeps(st, n, s, t, mode);
    case Receive(t, s) =>
      if st.outer[t].Main? || s < t {
        ReceiveAcceptKeeps(st, n, t, s);
      } else {
        ReceiveDeferKeeps(st, n, t, s);
      }
    case ReceivePosted(t, i) => PostedKeeps(st, n, t, i);
    case NoticeAccept(s) => NoticeAcceptKeeps(st, n, s);
    case NoticeSent(s) => NoticeSentKeeps(st, n, s);
    case Serve(t) => ServeKeeps(st, n, t);
    case NoticeReply(s) => NoticeReplyKeeps(st, n, s);
    case HandleDeferred(t) => HandleKeeps(st, n, t);
  }

  lemma NextKeeps(st: State, st': State, n: nat)
    requires Inv(st, n) && Next(st, st', n)
    ensures Inv(st', n)
  {
    hide Inv;
    var step :| Enabled(st, n, step) && st' == Apply(st, n, step);
    StepKeeps(st, n, step);
  }

  lemma {:induction false} ReachableInv(n: nat, st: State, k: nat)
    requires Reachable(n, st, k)
    ensures Inv(st, n)
    decreases k
  {
    hide Inv, Next;
    if k == 0 {
      InitInv(n);
    } else {
      var st0 :| Reachable(n, st0, k - 1) && Next(st0, st, n);
      ReachableInv(n, st0, k - 1);
      NextKeeps(st0, st, n);
    }
  }

  // A server blocked on one it serves: following who serves whom goes down in
  // rank until someone can move.
  lemma {:induction false} ServingMoves(st: State, n: nat, t: nat) returns (step: Step)
    requires Inv(st, n) && t < n && st.serving[t].Some?
    ensures Forced(st, n, step)
    decreases st.serving[t].value
  {
    var s := st.serving[t].value;
    if st.outer[s] == AwaitReply(t) {
      step := Serve(t);
    } else if st.serving[s].None? {
      step := NoticeAccept(s);
    } else {
      step := ServingMoves(st, n, s);
    }
  }

  // A server blocked in an exchange, or one that serves, is not the end of the line.
  lemma BlockedMoves(st: State, n: nat, t: nat) returns (step: Step)
    requires Inv(st, n) && t < n && !Polling(st, n, t)
    ensures Forced(st, n, step)
  {
    if st.serving[t].Some? {
      step := ServingMoves(st, n, t);
    } else if t in st.replied {
      step := NoticeReply(t);
    } else {
      var u := st.outer[t].target;
      if st.below[u] != Some(t) {
        step := Serve(u);
      } else if st.serving[u].Some? {
        step := ServingMoves(st, n, u);
      } else {
        step := NoticeSent(u);
      }
    }
  }

  // A message in flight to anyone lets someone move.
  lemma FlightMoves(st: State, n: nat, s: nat) returns (step: Step)
    requires Inv(st, n) && s in st.inflight
    ensures Forced(st, n, step)
  {
    var t := st.inflight[s].0;
    if Polling(st, n, t) {
      step := if st.posted[t] == [] then Receive(t, s) else ReceivePosted(t, 0);
    } else {
      step := BlockedMoves(st, n, t);
    }
  }

  // A server waiting for acceptance lets someone move: if its sync is deferred,
  // it is deferred by a lower rank, which is through or waits in its turn.
  lemma {:induction false} AwaitingMoves(st: State, n: nat, s: nat) returns (step: Step)
    requires Inv(st, n) && s < n && st.outer[s].AwaitAccept?
    ensures Forced(st, n, step)
    decreases s
  {
    var t := st.outer[s].target;
    if st.serving[s].Some? {
      step := ServingMoves(st, n, s);
    } else if s in st.accepted {
      step := NoticeAccept(s);
    } else if s in st.inflight {
      step := FlightMoves(st, n, s);
    } else if !Polling(st, n, t) {
      step := BlockedMoves(st, n, t);
    } else {
      assert InQueue(st, n, t, Msg(s, st.outer[s].mode));
      assert t < s;
      match st.outer[t]
      case Main => step := HandleDeferred(t);
      case AwaitAccept(_, _) => step := AwaitingMoves(st, n, t);
      case AwaitSend(_, _) =>
        if t in st.inflight {
          step := FlightMoves(st, n, t);
        } else {
          step := NoticeSent(t);
        }
    }
  }

  lemma ReachableNext(n: nat, st: State, k: nat, step: Step)
    requires Reachable(n, st, k) && Sized(st, n) && Enabled(st, n, step)
    ensures Reachable(n, Apply(st, n, step), k + 1)
  {
    hide Enabled, Apply;
    assert Next(st, Apply(st, n, step), n);
  }

  function Pair(a: Outer, serving: Option<nat>, inflight: map<nat, (nat, Mode)>, accepted: set<nat>): State {
    State([a, Main], [None, serving], [None, None], [[], []], inflight, [[], []], accepted, {})
  }

  lemma Requested()
    ensures Reachable(2, Pair(AwaitAccept(1, Request), None, map[0 := (1, Request)], {}), 1)
  {
    var st := Init(2);
    assert Reachable(2, st, 0);
    ReachableNext(2, st, 0, StartSync(0, 1, Request));
    var st', end := Apply(st, 2, StartSync(0, 1, Request)), Pair(AwaitAccept(1, Request), None, map[0 := (1, Request)], {});
    hide Reachable;
    assert st'.outer == end.outer && st'.serving == end.serving && st'.below == end.below && st'.deferred == end.deferred;
    assert st'.posted == end.posted && st'.inflight == end.inflight;
    assert st' == end;
  }

  lemma Serving()
    ensures Reachable(2, Pair(AwaitReply(1), Some(0), map[], {}), 3)
  {
    hide Reachable;
    Requested();
    var st := Pair(AwaitAccept(1, Request), None, map[0 := (1, Request)], {});
    ReachableNext(2, st, 1, Receive(1, 0));
    var st1 := Pair(AwaitAccept(1, Request), Some(0), map[], {0});
    assert Apply(st, 2, Receive(1, 0)) == st1;
    ReachableNext(2, st1, 2, NoticeAccept(0));
    assert Apply(st1, 2, NoticeAccept(0)) == Pair(AwaitReply(1), Some(0), map[], {});
  }

  // A server serves another, and the request makes it send to that very server.
  const STUCK := State([AwaitReply(1), AwaitSend(0, Refcount)], [None, None], [None, Some(0)], [[], []],
                       map[1 := (0, Refcount)], [[], []], {}, {})

  lemma StuckIsReached()
    ensures Reachable(2, STUCK, 4)
  {
    hide Reachable;
    Serving();
    var st := Pair(AwaitReply(1), Some(0), map[], {});
    ReachableNext(2, st, 3, StartNested(1, 0, Refcount));
    assert Apply(st, 2, StartNested(1, 0, Refcount)) == STUCK;
  }

  /**
    That a send started while serving completes early is needed: here it is the
    only step left, since the message cannot be received before it.
   */
  lemma NestedSendNeedsBuffer()
    ensures Reachable(2, STUCK, 4) && Sized(STUCK, 2)
    ensures forall step: Step :: Enabled(STUCK, 2, step) <==> step == NoticeSent(1)
  {
    hide Reachable;
    StuckIsReached();
  }

  // Work left at one server, and in the whole system, if no sync is started.
  function LoadAt(st: State, n: nat, t: nat): nat
    requires Sized(st, n) && t < n
  {
    5 * |st.posted[t]| + 4 * |st.deferred[t]| + (if st.serving[t].Some? then 2 else 0)
    + (if st.below[t].Some? then 2 else 0) + (if st.outer[t].Main? then 0 else 1)
  }

  function LoadBelow(st: State, n: nat, k: nat): nat
    requires Sized(st, n) && k <= n
  {
    if k == 0 then 0 else LoadBelow(st, n, k - 1) + LoadAt(st, n, k - 1)
  }

  function Load(st: State, n: nat): nat
    requires Sized(st, n)
  {
    5 * |st.inflight| + |st.accepted| + |st.replied| + LoadBelow(st, n, n)
  }

  // Only server t's load changed.
  lemma {:induction false} LoadChange(st: State, st': State, n: nat, k: nat, t: nat)
    requires Sized(st, n) && Sized(st', n) && k <= n && t < n
    requires forall i :: 0 <= i < n && i != t ==> LoadAt(st, n, i) == LoadAt(st', n, i)
    ensures LoadBelow(st', n, k) - LoadBelow(st, n, k) == if t < k then LoadAt(st', n, t) - LoadAt(st, n, t) else 0
  {
    hide LoadAt;
    if k > 0 {
      LoadChange(st, st', n, k - 1, t);
    }
  }

  // Taking a message costs at most what a deferred one weighs.
  lemma TakeLoad(st: State, n: nat, t: nat, m: Msg)
    requires Sized(st, n) && t < n && st.serving[t].None?
    ensures var st' := Take(st, n, t, m);
            && Sized(st', n) && st'.inflight == st.inflight && st'.replied == st.replied
            && LoadBelow(st', n, n) + |st'.accepted| <= LoadBelow(st, n, n) + |st.accepted| + 4
  {
    var st' := Take(st, n, t, m);
    assert |st'.accepted| <= |st.accepted| + 1;
    LoadChange(st, st', n, n, t);
  }

  lemma ReceiveUsesLoad(st: State, n: nat, t: nat, s: nat)
    requires Sized(st, n) && Enabled(st, n, Receive(t, s))
    ensures Load(Apply(st, n, Receive(t, s)), n) < Load(st, n)
  {
    hide Take;
    var st1 := st.(inflight := st.inflight - {s});
    assert st1.inflight.Keys == st.inflight.Keys - {s};
    assert |st1.inflight| == |st1.inflight.Keys| && |st.inflight| == |st.inflight.Keys|;
    LoadChange(st, st1, n, n, t);
    TakeLoad(st1, n, t, Msg(s, st.inflight[s].1));
  }

  lemma HandleUsesLoad(st: State, n: nat, t: nat)
    requires Sized(st, n) && Enabled(st, n, HandleDeferred(t))
    ensures Load(Apply(st, n, HandleDeferred(t)), n) < Load(st, n)
  {
    var st' := Apply(st, n, HandleDeferred(t));
    assert |st'.accepted| <= |st.accepted| + 1;
    LoadChange(st, st', n, n, t);
  }

  lemma NoticeUsesLoad(st: State, n: nat, s: nat, step: Step)
    requires Sized(st, n) && Enabled(st, n, step)
    requires step == NoticeAccept(s) || step == NoticeReply(s)
    ensures Load(Apply(st, n, step), n) < Load(st, n)
  {
    LoadChange(st, Apply(st, n, step), n, n, s);
  }

  lemma SentUsesLoad(st: State, n: nat, s: nat)
    requires Inv(st, n) && Enabled(st, n, NoticeSent(s))
    ensures Load(Apply(st, n, NoticeSent(s)), n) < Load(st, n)
  {
    hide DeferredOk, AwaitingOk, ServingOk, PostedOk;
    var st1, st' := Returned(st, n, s), Apply(st, n, NoticeSent(s));
    LoadChange(st, st1, n, n, s);
    if s in st.inflight {
      var t := st.inflight[s].0;
      assert st'.inflight.Keys == st.inflight.Keys - {s};
      assert |st'.inflight| == |st'.inflight.Keys| && |st.inflight| == |st.inflight.Keys|;
      LoadChange(st1, st', n, n, t);
    }
  }

  lemma PostedUsesLoad(st: State, n: nat, t: nat, i: nat)
    requires Sized(st, n) && Enabled(st, n, ReceivePosted(t, i))
    ensures Load(Apply(st, n, ReceivePosted(t, i)), n) < Load(st, n)
  {
    hide Take;
    var st1 := st.(posted := st.posted[t := st.posted[t][..i] + st.posted[t][i + 1..]]);
    LoadChange(st, st1, n, n, t);
    TakeLoad(st1, n, t, st.posted[t][i]);
  }

  lemma ServeUsesLoad(st: State, n: nat, t: nat)
    requires Sized(st, n) && Enabled(st, n, Serve(t))
    ensures Load(Apply(st, n, Serve(t)), n) < Load(st, n)
  {
    var st' := Apply(st, n, Serve(t));
    assert |st'.replied| <= |st.replied| + 1;
    LoadChange(st, st', n, n, t);
  }

  // Every step but the start of a new sync uses up load.
  lemma StepsUseLoad(st: State, n: nat, step: Step)
    requires Inv(st, n) && Enabled(st, n, step) && !Starts(step)
    ensures Load(Apply(st, n, step), n) < Load(st, n)
  {
    hide Load, LoadAt, InFlightOk, DeferredOk, AwaitingOk, ServingOk, PostedOk;
    match step {
      case Receive(t, s) => ReceiveUsesLoad(st, n, t, s);
      case ReceivePosted(t, i) => PostedUsesLoad(st, n, t, i);
      case NoticeAccept(s) => NoticeUsesLoad(st, n, s, step);
      case NoticeSent(s) => SentUsesLoad(st, n, s);
      case Serve(t) => ServeUsesLoad(st, n, t);
      case NoticeReply(s) => NoticeUsesLoad(st, n, s, step);
      case HandleDeferred(t) => HandleUsesLoad(st, n, t);
    }
  }

  // A run of given steps from st, none of them starting a sync.
  ghost predicate Settling(st: State, n: nat, steps: seq<Step>)
    decreases |steps|
  {
    steps == [] ||
    (Sized(st, n) && Enabled(st, n, steps[0]) && !Starts(steps[0]) && Settling(Apply(st, n, steps[0]), n, steps[1..]))
  }

  ghost function Settled(st: State, n: nat, steps: seq<Step>): State
    requires Settling(st, n, steps)
    decreases |steps|
  {
    if steps == [] then st else Settled(Apply(st, n, steps[0]), n, steps[1..])
  }

  // Whatever is not as it was at the start lets someone move.
  lemma BusyMoves(st: State, n: nat, t: nat) returns (step: Step)
    requires Inv(st, n) && t < n
    requires !st.outer[t].Main? || st.serving[t].Some? || st.deferred[t] != [] || st.posted[t] != []
    ensures Forced(st, n, step)
  {
    if !Polling(st, n, t) {
      step := BlockedMoves(st, n, t);
    } else if st.posted[t] != [] {
      step := ReceivePosted(t, 0);
    } else if st.outer[t].AwaitAccept? {
      step := AwaitingMoves(st, n, t);
    } else if st.outer[t].AwaitSend? && t in st.inflight {
      step := FlightMoves(st, n, t);
    } else if st.outer[t].AwaitSend? {
      step := NoticeSent(t);
    } else {
      step := HandleDeferred(t);
    }
  }

  // If nobody need move, everything is as it was at the start.
  lemma QuietIsInitial(st: State, n: nat)
    requires Inv(st, n) && forall step: Step :: !Forced(st, n, step)
    ensures st == Init(n)
  {
    hide Forced, DeferredOk, AwaitingOk, PostedOk;
    forall t | 0 <= t < n
      ensures st.outer[t].Main? && st.serving[t].None? && st.deferred[t] == [] && st.posted[t] == []
    {
      if !(st.outer[t].Main? && st.serving[t].None? && st.deferred[t] == [] && st.posted[t] == []) {
        var step := BusyMoves(st, n, t);
      }
    }
    if s :| s in st.inflight {
      var step := FlightMoves(st, n, s);
    }
    assert st.inflight == map[] && st.accepted == {} && st.replied == {};
    var i := Init(n);
    assert st.outer == i.outer && st.serving == i.serving && st.below == i.below && st.deferred == i.deferred && st.posted == i.posted;
  }

  /**
    No deadlock: in every reachable state but the initial one some server can
    receive, accept, serve or proceed, without any send of a sync from the main
    loop having to complete before its message is received.
   */
  lemma NoDeadlock(n: nat, st: State, k: nat) returns (step: Step)
    requires Reachable(n, st, k) && st != Init(n)
    ensures Sized(st, n) && Forced(st, n, step)
  {
    ReachableInv(n, st, k);
    hide Forced, Reachable;
    if forall step :: !Forced(st, n, step) {
      QuietIsInitial(st, n);
    }
    step :| Forced(st, n, step);
  }

  // No livelock either: such a run has at most Load(st) steps, and if it need not
  // go on then every sync is through: nobody waits, serves or has put anything
  // off, and no message is on its way.
  lemma {:induction false} SyncsSettle(st: State, n: nat, steps: seq<Step>)
    requires Inv(st, n) && Settling(st, n, steps)
    ensures |steps| <= Load(st, n)
    ensures var end := Settled(st, n, steps);
            && Sized(end, n)
            && ((forall step: Step :: !Forced(end, n, step)) ==> end == Init(n))
    decreases |steps|
  {
    hide InFlightOk, DeferredOk, AwaitingOk, ServingOk, PostedOk, Load, Enabled, Forced, Apply, Init;
    if steps == [] {
      if forall step: Step :: !Forced(st, n, step) {
        QuietIsInitial(st, n);
      }
    } else {
      StepKeeps(st, n, steps[0]);
      StepsUseLoad(st, n, steps[0]);
      SyncsSettle(Apply(st, n, steps[0]), n, steps[1..]);
    }
  }
}
