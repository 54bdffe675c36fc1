/**
  Termination detection.  Server 0 is the master.  Serial numbers of idle-check
  rounds travel with steals: a server that gave work away to one that has seen
  this round's number will refuse to call itself idle in this round.
 */
module IdleCheck {

  // Per server: workers neither waiting nor shut down, waiting requests and
  // stealable units per type, and the last round number seen.
  datatype Server = Server(active: nat, requests: seq<nat>, work: seq<nat>, attempt: int)

  // A round of checks: servers below |reqs| have answered idle with these counts.
  datatype Round = NoRound | Checking(reqs: seq<seq<nat>>, works: seq<seq<nat>>) | Shutdown

  datatype State = State(servers: seq<Server>, round: Round)

  ghost predicate Shaped(st: State, types: nat) {
    && |st.servers| > 0
    && (forall i :: 0 <= i < |st.servers| ==> |st.servers[i].requests| == types && |st.servers[i].work| == types)
    && (st.round.Checking? ==>
          && 0 < |st.round.reqs| <= |st.servers| && |st.round.works| == |st.round.reqs|
          && forall i :: 0 <= i < |st.round.reqs| ==> |st.round.reqs[i]| == types && |st.round.works[i]| == types)
  }

  function Sum(s: seq<nat>): nat {
    if s == [] then 0 else s[0] + Sum(s[1..])
  }

  lemma {:induction false} SumPositive(s: seq<nat>)
    ensures Sum(s) == 0 <==> forall i :: 0 <= i < |s| ==> s[i] == 0
  {
    if s != [] {
      SumPositive(s[1..]);
      assert forall i :: 1 <= i < |s| ==> s[i] == s[1..][i - 1];
    }
  }

  function Plus(a: seq<nat>, b: seq<nat>): (r: seq<nat>)
    requires |a| == |b|
    ensures |r| == |a| && forall i :: 0 <= i < |a| ==> r[i] == a[i] + b[i]
  {
    seq(|a|, i requires 0 <= i < |a| => a[i] + b[i])
  }

  predicate Covers(a: seq<nat>, b: seq<nat>) {
    |a| == |b| && forall i :: 0 <= i < |a| ==> b[i] <= a[i]
  }

  function Minus(a: seq<nat>, b: seq<nat>): (r: seq<nat>)
    requires Covers(a, b)
    ensures |r| == |a| && forall i :: 0 <= i < |a| ==> r[i] == a[i] - b[i]
  {
    seq(|a|, i requires 0 <= i < |a| => a[i] - b[i])
  }

  datatype Step =
    | AskForWork(s: nat, t: nat)
    | PutWork(s: nat, t: nat)
    | WorkerShutdown(s: nat)
    | Steal(thief: nat, victim: nat, amounts: seq<nat>, matched: seq<nat>)
    | StartRound
    | Check
    | CheckNotIdle
    | Finish

  ghost predicate Enabled(st: State, types: nat, step: Step)
    requires Shaped(st, types)
  {
    var n := |st.servers|;
    match step
    case AskForWork(s, t) => s < n && t < types && st.servers[s].active > 0
    case PutWork(s, t) => s < n && t < types && st.servers[s].active > 0
    case WorkerShutdown(s) => s < n && st.servers[s].active > 0
    case Steal(thief, victim, amounts, matched) =>
      && thief < n && victim < n && thief != victim
      && Sum(amounts) > 0 && Covers(st.servers[victim].work, amounts)
      && Covers(st.servers[thief].requests, matched)
      && Covers(Plus(st.servers[thief].work, amounts), matched)
    case StartRound => st.round.NoRound? && st.servers[0].active == 0
    case Check => st.round.Checking? && |st.round.reqs| < n
    case CheckNotIdle => st.round.Checking? && |st.round.reqs| < n
    case Finish => st.round.Checking? && |st.round.reqs| == n
  }

  // Some type has a recorded request and recorded work.
  ghost predicate Conflict(reqs: seq<seq<nat>>, works: seq<seq<nat>>, types: nat)
    requires |reqs| == |works|
    requires forall i :: 0 <= i < |reqs| ==> |reqs[i]| == types && |works[i]| == types
  {
    exists t, i, j :: 0 <= t < types && 0 <= i < |reqs| && 0 <= j < |works| && reqs[i][t] > 0 && works[j][t] > 0
  }

  function Max(a: int, b: int): int {
    if a < b then b else a
  }

  ghost function Apply(st: State, types: nat, step: Step): State
    requires Shaped(st, types) && Enabled(st, types, step)
  {
    var v := st.servers;
    match step
    case AskForWork(s, t) =>
      var x := v[s];
      st.(servers := v[s := if x.work[t] > 0 then x.(work := x.work[t := x.work[t] - 1])
                            else x.(active := x.active - 1, requests := x.requests[t := x.requests[t] + 1])])
    case PutWork(s, t) =>
      var x := v[s];
      st.(servers := v[s := if x.requests[t] > 0
                            then x.(active := x.active + 1, requests := x.requests[t := x.requests[t] - 1])
                            else x.(work := x.work[t := x.work[t] + 1])])
    case WorkerShutdown(s) =>
      st.(servers := v[s := v[s].(active := v[s].active - 1)])
    case Steal(thief, victim, amounts, matched) =>
      var x, y := v[thief], v[victim];
      st.(servers := v[victim := y.(work := Minus(y.work, amounts), attempt := Max(y.attempt, x.attempt))]
                      [thief := x.(active := x.active + Sum(matched),
                                   requests := Minus(x.requests, matched),
                                   work := Minus(Plus(x.work, amounts), matched))])
    case StartRound =>
      var x := v[0].(attempt := v[0].attempt + 1);
      State(v[0 := x], Checking([x.requests], [x.work]))
    case Check =>
      var r := |st.round.reqs|;
      var k := v[0].attempt;
      if v[r].attempt == k then st.(round := NoRound)
      else if v[r].active > 0 then State(v[r := v[r].(attempt := k)], NoRound)
      else State(v[r := v[r].(attempt := k)], Checking(st.round.reqs + [v[r].requests], st.round.works + [v[r].work]))
    case CheckNotIdle =>
      // Not idle for long enough, or notifications are pending.
      var r := |st.round.reqs|;
      State(v[r := v[r].(attempt := v[0].attempt)], NoRound)
    case Finish =>
      st.(round := if Conflict(st.round.reqs, st.round.works, types) then NoRound else Shutdown)
  }

  ghost predicate Init(st: State, types: nat) {
    Shaped(st, types) && st.round.NoRound? && forall i :: 0 <= i < |st.servers| ==> st.servers[i].attempt == 0
  }

  ghost predicate Next(st: State, st': State, types: nat) {
    && Shaped(st, types) && !st.round.Shutdown?
    && exists step :: Enabled(st, types, step) && st' == Apply(st, types, step)
  }

  ghost predicate Reachable(st: State, types: nat, k: nat)
    decreases k
  {
    if k == 0 then Init(st, types) else exists st0 :: Reachable(st0, types, k - 1) && Next(st0, st, types)
  }

  // Nobody works and no waiting request could be matched anywhere.
  ghost predicate Terminated(st: State, types: nat)
    requires Shaped(st, types)
  {
    && (forall i :: 0 <= i < |st.servers| ==> st.servers[i].active == 0)
    && !exists t, i, j :: 0 <= t < types && 0 <= i < |st.servers| && 0 <= j < |st.servers|
                          && st.servers[i].requests[t] > 0 && st.servers[j].work[t] > 0
  }

  // A server not yet checked already carries this round's number.
  ghost predicate Poisoned(st: State)
    requires st.round.Checking? && |st.servers| > 0
  {
    exists j :: |st.round.reqs| <= j < |st.servers| && st.servers[j].attempt == st.servers[0].attempt
  }

  // The checked servers are as they answered, up to work moved among them or away.
  ghost predicate Clean(st: State, types: nat)
    requires Shaped(st, types) && st.round.Checking?
  {
    && (forall i :: 0 <= i < |st.round.reqs| ==>
          st.servers[i].active == 0 && st.servers[i].requests == st.round.reqs[i])
    && (forall t, i :: 0 <= t < types && 0 <= i < |st.round.reqs| && st.servers[i].work[t] > 0 ==> Recorded(st, types, t))
  }

  ghost predicate Recorded(st: State, types: nat, t: nat)
    requires Shaped(st, types) && st.round.Checking? && t < types
  {
    exists j :: 0 <= j < |st.round.works| && st.round.works[j][t] > 0
  }

  ghost predicate Numbers(st: State) {
    && |st.servers| > 0
    && (forall i :: 0 <= i < |st.servers| ==> st.servers[i].attempt <= st.servers[0].attempt)
    && (st.round.Checking? && |st.round.reqs| <= |st.servers| ==>
          forall i :: 0 <= i < |st.round.reqs| ==> st.servers[i].attempt == st.servers[0].attempt)
  }

  ghost predicate Inv(st: State, types: nat) {
    && Shaped(st, types) && Numbers(st)
    && (st.round.Checking? ==>
          Poisoned(st) || Conflict(st.round.reqs, st.round.works, types) || Clean(st, types))
    && (st.round.Shutdown? ==> Terminated(st, types))
  }

  lemma PoisonStays(st: State, st': State)
    requires |st.servers| > 0 && st.round.Checking? && Poisoned(st)
    requires |st'.servers| == |st.servers| && st'.round == st.round
    requires st'.servers[0].attempt == st.servers[0].attempt
    requires forall j :: 0 <= j < |st.servers| && st.servers[j].attempt == st.servers[0].attempt ==>
                           st'.servers[j].attempt == st.servers[0].attempt
    ensures Poisoned(st')
  {
    var j :| |st.round.reqs| <= j < |st.servers| && st.servers[j].attempt == st.servers[0].attempt;
    assert st'.servers[j].attempt == st'.servers[0].attempt;
  }

  // Checked servers unchanged, except that their work may have dwindled or
  // moved among them.
  lemma CleanStays(st: State, st': State, types: nat)
    requires Shaped(st, types) && Shaped(st', types) && st.round.Checking? && st'.round == st.round
    requires Clean(st, types)
    requires forall i :: 0 <= i < |st.round.reqs| ==>
                           st'.servers[i].active == 0 && st'.servers[i].requests == st.servers[i].requests
    requires forall t, i :: 0 <= t < types && 0 <= i < |st.round.reqs| && st'.servers[i].work[t] > 0 ==>
                              exists j :: 0 <= j < |st.round.reqs| && st.servers[j].work[t] > 0
    ensures Clean(st', types)
  {
    forall t, i | 0 <= t < types && 0 <= i < |st.round.reqs| && st'.servers[i].work[t] > 0
      ensures Recorded(st', types, t)
    {
      var j :| 0 <= j < |st.round.reqs| && st.servers[j].work[t] > 0;
      assert Recorded(st, types, t);
      var l :| 0 <= l < |st.round.works| && st.round.works[l][t] > 0;
    }
  }

  lemma LocalStepKeeps(st: State, types: nat, step: Step)
    requires Inv(st, types) && !st.round.Shutdown? && (step.AskForWork? || step.PutWork? || step.WorkerShutdown?)
    requires Enabled(st, types, step)
    ensures Inv(Apply(st, types, step), types)
  {
    var st' := Apply(st, types, step);
    if st.round.Checking? {
      if Poisoned(st) {
        PoisonStays(st, st');
      } else if Clean(st, types) {
        CleanStays(st, st', types);
      }
    }
  }

  // A checked thief and a checked victim: either nothing is matched, or the
  // match exposes a conflict in the recorded counts.
  lemma StealAmongChecked(st: State, types: nat, step: Step)
    requires Inv(st, types) && st.round.Checking? && Clean(st, types) && step.Steal? && Enabled(st, types, step)
    requires step.thief < |st.round.reqs| && step.victim < |st.round.reqs|
    ensures Conflict(st.round.reqs, st.round.works, types) || Clean(Apply(st, types, step), types)
  {
    var st' := Apply(st, types, step);
    var x, y := st.servers[step.thief], st.servers[step.victim];
    SumPositive(step.matched);
    if Sum(step.matched) > 0 {
      var t :| 0 <= t < types && step.matched[t] > 0;
      assert st.round.reqs[step.thief][t] > 0;
      assert x.work[t] > 0 || y.work[t] > 0;
      assert Recorded(st, types, t);
    } else {
      assert Minus(x.requests, step.matched) == x.requests;
      forall t, i | 0 <= t < types && 0 <= i < |st.round.reqs| && st'.servers[i].work[t] > 0
        ensures exists j :: 0 <= j < |st.round.reqs| && st.servers[j].work[t] > 0
      {
        assert st.servers[i].work[t] > 0 || st.servers[step.victim].work[t] > 0;
      }
      CleanStays(st, st', types);
    }
  }

  lemma StealKeeps(st: State, types: nat, step: Step)
    requires Inv(st, types) && !st.round.Shutdown? && step.Steal? && Enabled(st, types, step)
    ensures Inv(Apply(st, types, step), types)
  {
    var st' := Apply(st, types, step);
    if st.round.Checking? {
      var checked := |st.round.reqs|;
      if Poisoned(st) {
        PoisonStays(st, st');
      } else if Clean(st, types) {
        if step.thief < checked && step.victim < checked {
          StealAmongChecked(st, types, step);
        } else if step.thief < checked {
          assert st'.servers[step.victim].attempt == st'.servers[0].attempt;
          assert Poisoned(st');
        } else {
          CleanStays(st, st', types);
        }
      }
    }
  }

  lemma CheckKeeps(st: State, types: nat)
    requires Inv(st, types) && Enabled(st, types, Check)
    ensures Inv(Apply(st, types, Check), types)
  {
    var st' := Apply(st, types, Check);
    var r := |st.round.reqs|;
    if st'.round.Checking? {
      if Poisoned(st) {
        var j :| r <= j < |st.servers| && st.servers[j].attempt == st.servers[0].attempt;
        assert st'.servers[j].attempt == st'.servers[0].attempt;
      } else if Conflict(st.round.reqs, st.round.works, types) {
        var t, i, j :| 0 <= t < types && 0 <= i < r && 0 <= j < r && st.round.reqs[i][t] > 0 && st.round.works[j][t] > 0;
        assert st'.round.reqs[i][t] > 0 && st'.round.works[j][t] > 0;
      } else {
        forall t, i | 0 <= t < types && 0 <= i < r + 1 && st'.servers[i].work[t] > 0
          ensures Recorded(st', types, t)
        {
          if i < r {
            assert Recorded(st, types, t);
            var j :| 0 <= j < r && st.round.works[j][t] > 0;
            assert st'.round.works[j][t] > 0;
          } else {
            assert st'.round.works[r][t] > 0;
          }
        }
      }
    }
  }

  lemma StartKeeps(st: State, types: nat)
    requires Inv(st, types) && Enabled(st, types, StartRound)
    ensures Inv(Apply(st, types, StartRound), types)
  {
    var st' := Apply(st, types, StartRound);
    forall t, i | 0 <= t < types && 0 <= i < 1 && st'.servers[i].work[t] > 0
      ensures Recorded(st', types, t)
    {
      assert st'.round.works[0][t] > 0;
    }
  }

  lemma FinishKeeps(st: State, types: nat)
    requires Inv(st, types) && Enabled(st, types, Finish)
    ensures Inv(Apply(st, types, Finish), types)
  {
    if !Conflict(st.round.reqs, st.round.works, types) {
      assert Clean(st, types);
      forall t, i, j | 0 <= t < types && 0 <= i < |st.servers| && 0 <= j < |st.servers| && st.servers[j].work[t] > 0
        ensures st.servers[i].requests[t] == 0
      {
        assert Recorded(st, types, t);
        var l :| 0 <= l < |st.round.works| && st.round.works[l][t] > 0;
        assert st.round.reqs[i][t] == st.servers[i].requests[t];
      }
    }
  }

  lemma StepKeeps(st: State, types: nat, step: Step)
    requires Inv(st, types) && !st.round.Shutdown? && Enabled(st, types, step)
    ensures Inv(Apply(st, types, step), types)
  {
    hide Clean, Poisoned, Conflict, Terminated;
    match step
    case Steal(_, _, _, _) => StealKeeps(st, types, step);
    case StartRound => StartKeeps(st, types);
    case Check => CheckKeeps(st, types);
    case CheckNotIdle =>
    case Finish => FinishKeeps(st, types);
    case _ => LocalStepKeeps(st, types, step);
  }

  lemma NextKeeps(st: State, st': State, types: nat)
    requires Inv(st, types) && Next(st, st', types)
    ensures Inv(st', types)
  {
    hide Inv;
    var step :| Enabled(st, types, step) && st' == Apply(st, types, step);
    StepKeeps(st, types, step);
  }

  lemma {:induction false} ReachableInv(st: State, types: nat, k: nat)
    requires Reachable(st, types, k)
    ensures Inv(st, types)
    decreases k
  {
    hide Next, Conflict, Clean, Poisoned, Terminated;
    if k == 0 {
    } else {
      var st0 :| Reachable(st0, types, k - 1) && Next(st0, st, types);
      ReachableInv(st0, types, k - 1);
      NextKeeps(st0, st, types);
    }
  }

  // Safety over every run: when the master decides to shut down, no worker
  // anywhere is active and no type has both a request and stealable work.
  lemma ShutdownIsSafe(st: State, types: nat, k: nat)
    requires Reachable(st, types, k) && st.round.Shutdown?
    ensures Shaped(st, types) && Terminated(st, types)
  {
    ReachableInv(st, types, k);
  }

  // The master's comparison of all servers' counts, type by type; each row
  // holds one server's counts.
  method CrossCheck(reqs: seq<seq<nat>>, works: seq<seq<nat>>, types: nat) returns (allIdle: bool)
    requires |reqs| == |works|
    requires forall i :: 0 <= i < |reqs| ==> |reqs[i]| == types && |works[i]| == types
    ensures allIdle <==> !Conflict(reqs, works, types)
  {
    for t := 0 to types
      invariant forall u, i, j :: 0 <= u < t && 0 <= i < |reqs| && 0 <= j < |works| ==> reqs[i][u] == 0 || works[j][u] == 0
    {
      var hasRequests, hasWork := -1, -1;
      for server := 0 to |reqs|
        invariant -1 <= hasRequests < server && -1 <= hasWork < server
        invariant hasRequests != -1 ==> reqs[hasRequests][t] > 0
        invariant hasRequests == -1 ==> forall i :: 0 <= i < server ==> reqs[i][t] == 0
        invariant hasWork != -1 ==> works[hasWork][t] > 0
        invariant hasWork == -1 ==> forall i :: 0 <= i < server ==> works[i][t] == 0
      {
        if reqs[server][t] > 0 {
          hasRequests := server;
        }
        if works[server][t] > 0 {
          hasWork := server;
        }
      }
      if hasRequests != -1 && hasWork != -1 {
        assert reqs[hasRequests][t] > 0 && works[hasWork][t] > 0;
        return false;
      }
    }
    return true;
  }

  // Is there a request here that a unit counted there could answer?
  method CanSteal(requests: seq<nat>, work: seq<nat>) returns (can: bool)
    requires |requests| == |work|
    ensures can <==> exists t :: 0 <= t < |work| && requests[t] > 0 && work[t] > 0
  {
    for t := 0 to |work|
      invariant forall u :: 0 <= u < t ==> requests[u] == 0 || work[u] == 0
    {
      if requests[t] > 0 && work[t] > 0 {
        return true;
      }
    }
    return false;
  }

  // One server's part of a check, and of a steal.
  class IdleState {
    const workers: nat
    var blocked: nat
    var shutdown: nat
    var attempt: int

    ghost predicate Valid()
      reads this
    {
      blocked + shutdown <= workers
    }

    function Active(): nat
      requires Valid()
      reads this
    {
      workers - blocked - shutdown
    }

    constructor (workers: nat)
      ensures Valid() && Active() == workers && attempt == 0
    {
      this.workers := workers;
      blocked, shutdown, attempt := 0, 0, 0;
    }

    // `pendingNotifs` and `longEnough` are the two conditions besides idle workers.
    method CheckIdleLocal(master: bool, checkAttempt: int, pendingNotifs: bool, longEnough: bool) returns (idle: bool)
      requires Valid() && (!master ==> checkAttempt >= attempt)
      modifies this`attempt
      ensures Valid()
      ensures attempt == if master then old(attempt) else checkAttempt
      ensures idle <==> Active() == 0 && !pendingNotifs && longEnough && (master || checkAttempt != old(attempt))
    {
      if !master {
        if checkAttempt == attempt {
          return false;
        }
        attempt := checkAttempt;
      }
      if blocked + shutdown != workers {
        return false;
      }
      if pendingNotifs {
        return false;
      }
      return longEnough;
    }

    // Gave `stolen` units to a thief that has seen this round number.
    method AfterSteal(stolen: nat, thiefAttempt: int)
      modifies this`attempt
      ensures attempt == if stolen > 0 then Max(old(attempt), thiefAttempt) else old(attempt)
    {
      if stolen > 0 {
        if thiefAttempt > attempt {
          attempt := thiefAttempt;
        }
      }
    }
  }
}
