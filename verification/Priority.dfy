/** The priority ledger of `TransferQueue`: a flag per transfer and two shared
    counters, changed in separate atomic steps by the transfer's own task, by
    `prioritize`, `retry`, `pause`/`resume` and `cancel`. */
module Priority {
  import opened Options
  import opened Sums

  datatype TransferState = Queued | Running | Paused | Done | Failed | Canceled

  predicate Terminal(s: TransferState) { s == Done || s == Failed || s == Canceled }

  /** 0 = none, 1 = waiting ahead of others, 2 = running ahead of others. */
  type Flag = n: nat | n <= 2

  /** `owners`: tasks currently running this transfer. */
  datatype Transfer = Transfer(flag: Flag, state: TransferState, owners: nat)

  /** Counter updates an agent still has to make after winning a CAS. `Repay`
      has set a terminal state and will swap the flag to 0 next. */
  datatype Agent =
    | AddWaiting | AddRunning
    | GateSub | GateAdd
    | PauseSub | PauseAdd
    | Repay(t: nat)
    | RepayWaiting | RepayRunning

  /** The counters are `usize`; what is kept here is the sum of the updates
      made, whose value modulo 2^64 is what a reader sees. */
  datatype Queue = Queue(transfers: seq<Transfer>, waiting: int, running: int, agents: seq<Agent>)

  datatype Step =
    | Enqueue
    | Prioritize(t: nat)
    | Gate(t: nat)
    | PauseEdge(t: nat)
    | PauseMark(t: nat)
    | Prepare(t: nat)
    | Resume(t: nat)
    | Finish(t: nat, how: TransferState)
    | Retry(t: nat)
    | Land(a: nat)

  function Start(): Queue { Queue([], 0, 0, []) }

  predicate Enabled(q: Queue, step: Step) {
    match step
    case Enqueue => true
    case Land(a) => a < |q.agents| && (q.agents[a].Repay? ==> q.agents[a].t < |q.transfers|)
    case Prioritize(t) => t < |q.transfers|
    case Resume(t) => t < |q.transfers|
    case Retry(t) => t < |q.transfers|
    case Gate(t) => t < |q.transfers| && q.transfers[t].owners > 0
    case PauseEdge(t) => t < |q.transfers| && q.transfers[t].owners > 0
    case PauseMark(t) => t < |q.transfers| && q.transfers[t].owners > 0
    case Prepare(t) => t < |q.transfers| && q.transfers[t].owners > 0
    case Finish(t, how) => t < |q.transfers| && q.transfers[t].owners > 0 && Terminal(how)
  }

  function SetTransfer(q: Queue, t: nat, x: Transfer): Queue
    requires t < |q.transfers|
  {
    q.(transfers := q.transfers[t := x])
  }

  function Spawn(q: Queue, a: Agent): Queue {
    q.(agents := q.agents + [a])
  }

  /** An agent's next counter update. */
  function LandAgent(q: Queue, k: nat): Queue
    requires Enabled(q, Land(k))
  {
    var rest := q.(agents := q.agents[..k] + q.agents[k + 1..]);
    match q.agents[k]
    case AddWaiting => rest.(waiting := q.waiting + 1)
    case AddRunning => rest.(running := q.running + 1)
    case GateSub => q.(waiting := q.waiting - 1, agents := q.agents[k := GateAdd])
    case GateAdd => rest.(running := q.running + 1)
    case PauseSub => q.(running := q.running - 1, agents := q.agents[k := PauseAdd])
    case PauseAdd => rest.(waiting := q.waiting + 1)
    case Repay(t) =>
      var x := q.transfers[t];
      if x.flag == 0 then rest
      else q.(transfers := q.transfers[t := x.(flag := 0)],
              agents := q.agents[k := if x.flag == 1 then RepayWaiting else RepayRunning])
    case RepayWaiting => rest.(waiting := q.waiting - 1)
    case RepayRunning => rest.(running := q.running - 1)
  }

  function Next(q: Queue, step: Step): Queue
    requires Enabled(q, step)
  {
    match step
    case Enqueue => q.(transfers := q.transfers + [Transfer(0, Queued, 1)])
    case Prioritize(t) =>
      // the state is read and the flag set under the info lock
      var x := q.transfers[t];
      if Terminal(x.state) || x.flag != 0 then q
      else if x.state == Running then Spawn(SetTransfer(q, t, x.(flag := 2)), AddRunning)
      else Spawn(SetTransfer(q, t, x.(flag := 1)), AddWaiting)
    case Gate(t) =>
      var x := q.transfers[t];
      if x.flag == 1 then Spawn(SetTransfer(q, t, x.(flag := 2)), GateSub) else q
    case PauseEdge(t) => SetTransfer(q, t, q.transfers[t].(state := Paused))
    case PauseMark(t) =>
      // the flag is moved after the info lock is released
      var x := q.transfers[t];
      if x.flag == 2 then Spawn(SetTransfer(q, t, x.(flag := 1)), PauseSub) else q
    case Prepare(t) => SetTransfer(q, t, q.transfers[t].(state := Running))
    case Resume(t) => SetTransfer(q, t, q.transfers[t].(state := Running))
    case Finish(t, how) =>
      var x := q.transfers[t];
      Spawn(SetTransfer(q, t, x.(state := how, owners := x.owners - 1)), Repay(t))
    case Retry(t) =>
      var x := q.transfers[t];
      if x.state == Failed || x.state == Canceled then
        SetTransfer(q, t, x.(state := Queued, owners := x.owners + 1))
      else q
    case Land(k) => LandAgent(q, k)
  }

  /** The queue after a schedule that starts at `q`. */
  function RunFrom(q: Queue, steps: seq<Step>): Option<Queue> {
    if steps == [] then Some(q)
    else
      var k := |steps| - 1;
      var before := RunFrom(q, steps[..k]);
      if before.Some? && Enabled(before.value, steps[k]) then Some(Next(before.value, steps[k])) else None
  }

  function Run(steps: seq<Step>): Option<Queue> {
    RunFrom(Start(), steps)
  }

  // ---------- conservation ----------

  function IsWaiting(x: Transfer): int { if x.flag == 1 then 1 else 0 }
  function IsRunning(x: Transfer): int { if x.flag == 2 then 1 else 0 }

  /** By how much a counter is ahead of the flags because of this agent. */
  function WaitingLead(a: Agent): int {
    match a
    case AddWaiting => -1
    case GateSub => 1
    case PauseSub => -1
    case PauseAdd => -1
    case RepayWaiting => 1
    case _ => 0
  }

  function RunningLead(a: Agent): int {
    match a
    case AddRunning => -1
    case GateSub => -1
    case GateAdd => -1
    case PauseSub => 1
    case RepayRunning => 1
    case _ => 0
  }

  ghost predicate Balanced(q: Queue) {
    && q.waiting == Sum(q.transfers, IsWaiting) + Sum(q.agents, WaitingLead)
    && q.running == Sum(q.transfers, IsRunning) + Sum(q.agents, RunningLead)
  }

  lemma FlagStep(q: Queue, t: nat, x: Transfer, a: Agent)
    requires t < |q.transfers|
    ensures var r := Spawn(SetTransfer(q, t, x), a);
            && Sum(r.transfers, IsWaiting) == Sum(q.transfers, IsWaiting) - IsWaiting(q.transfers[t]) + IsWaiting(x)
            && Sum(r.transfers, IsRunning) == Sum(q.transfers, IsRunning) - IsRunning(q.transfers[t]) + IsRunning(x)
            && Sum(r.agents, WaitingLead) == Sum(q.agents, WaitingLead) + WaitingLead(a)
            && Sum(r.agents, RunningLead) == Sum(q.agents, RunningLead) + RunningLead(a)
  {
    SumUpdate(q.transfers, t, x, IsWaiting);
    SumUpdate(q.transfers, t, x, IsRunning);
    SumAppend(q.agents, a, WaitingLead);
    SumAppend(q.agents, a, RunningLead);
  }

  lemma LandBalanced(q: Queue, k: nat)
    requires Balanced(q) && Enabled(q, Land(k))
    ensures Balanced(LandAgent(q, k))
  {
    hide Sum;
    var r := LandAgent(q, k);
    SumRemove(q.agents, k, WaitingLead);
    SumRemove(q.agents, k, RunningLead);
    if |r.agents| == |q.agents| {
      SumUpdate(q.agents, k, r.agents[k], WaitingLead);
      SumUpdate(q.agents, k, r.agents[k], RunningLead);
    }
    if q.agents[k].Repay? {
      var t := q.agents[k].t;
      SumUpdate(q.transfers, t, q.transfers[t].(flag := 0), IsWaiting);
      SumUpdate(q.transfers, t, q.transfers[t].(flag := 0), IsRunning);
    }
  }

  lemma TransferStepBalanced(q: Queue, step: Step)
    requires Balanced(q) && Enabled(q, step) && !step.Land? && !step.Enqueue?
    ensures Balanced(Next(q, step))
  {
    hide Sum;
    var t, r := step.t, Next(q, step);
    if |r.agents| > |q.agents| {
      FlagStep(q, t, r.transfers[t], r.agents[|q.agents|]);
      assert r == Spawn(SetTransfer(q, t, r.transfers[t]), r.agents[|q.agents|]);
    } else {
      SumUpdate(q.transfers, t, r.transfers[t], IsWaiting);
      SumUpdate(q.transfers, t, r.transfers[t], IsRunning);
      assert r.transfers == q.transfers[t := r.transfers[t]];
    }
  }

  lemma StepBalanced(q: Queue, step: Step)
    requires Balanced(q) && Enabled(q, step)
    ensures Balanced(Next(q, step))
  {
    if step.Land? {
      LandBalanced(q, step.a);
    } else if step.Enqueue? {
      SumAppend(q.transfers, Transfer(0, Queued, 1), IsWaiting);
      SumAppend(q.transfers, Transfer(0, Queued, 1), IsRunning);
    } else {
      TransferStepBalanced(q, step);
    }
  }

  lemma {:induction false} RunBalanced(steps: seq<Step>)
    requires Run(steps).Some?
    ensures Balanced(Run(steps).value)
  {
    if steps != [] {
      var k := |steps| - 1;
      RunBalanced(steps[..k]);
      StepBalanced(Run(steps[..k]).value, steps[k]);
    }
  }

  /** Modulo updates in progress the two counters equal the number of transfers
      with flag 1 and flag 2, and at every quiescent point exactly. */
  lemma LedgerConserved(steps: seq<Step>)
    requires Run(steps).Some?
    ensures Balanced(Run(steps).value)
    ensures var q := Run(steps).value;
            q.agents == [] ==> q.waiting == Sum(q.transfers, IsWaiting) && q.running == Sum(q.transfers, IsRunning)
  {
    RunBalanced(steps);
  }

  // ---------- how flags and states move ----------

  /** Exactly how the flag of a transfer moves: a queued or paused one is marked
      waiting, a running one running; the gate turns waiting into running, a pause
      turns it back, and only a repayment clears it. */
  lemma FlagMoves(q: Queue, step: Step, t: nat)
    requires Enabled(q, step) && t < |q.transfers|
    ensures var was, now := q.transfers[t], Next(q, step).transfers[t].flag;
            && (was.flag == 0 && now == 1 <==>
                  step == Prioritize(t) && was.flag == 0 && (was.state == Queued || was.state == Paused))
            && (was.flag == 0 && now == 2 <==> step == Prioritize(t) && was.flag == 0 && was.state == Running)
            && (was.flag == 1 && now == 2 <==> step == Gate(t) && was.flag == 1)
            && (was.flag == 2 && now == 1 <==> step == PauseMark(t) && was.flag == 2)
            && (was.flag != 0 && now == 0 <==> step.Land? && q.agents[step.a] == Repay(t) && was.flag != 0)
  {
  }

  /** And how its state moves. */
  lemma StateMoves(q: Queue, step: Step, t: nat)
    requires Enabled(q, step) && t < |q.transfers|
    ensures var was, now := q.transfers[t].state, Next(q, step).transfers[t].state;
            match step
            case PauseEdge(u) => now == if u == t then Paused else was
            case Prepare(u) => now == if u == t then Running else was
            case Resume(u) => now == if u == t then Running else was
            case Finish(u, how) => now == if u == t then how else was
            case Retry(u) => now == if u == t && (was == Failed || was == Canceled) then Queued else was
            case _ => now == was
  {
  }

  // ---------- finished transfers ----------

  /** `resume` sets the state to running whatever it was. A polite schedule only
      resumes transfers that have not finished. */
  predicate PoliteStep(q: Queue, step: Step) {
    step.Resume? && step.t < |q.transfers| ==> !Terminal(q.transfers[step.t].state)
  }

  predicate PoliteFrom(q: Queue, steps: seq<Step>) {
    steps == [] ||
    var k := |steps| - 1;
    PoliteFrom(q, steps[..k]) && (RunFrom(q, steps[..k]).Some? ==> PoliteStep(RunFrom(q, steps[..k]).value, steps[k]))
  }

  predicate Polite(steps: seq<Step>) {
    PoliteFrom(Start(), steps)
  }

  ghost predicate Tidy(q: Queue, t: nat)
    requires t < |q.transfers|
  {
    var x := q.transfers[t];
    && x.owners <= 1
    && (x.owners == 0 <==> Terminal(x.state))
    && (x.owners == 0 ==> x.flag == 0 || Repay(t) in q.agents)
  }

  ghost predicate AllTidy(q: Queue) {
    forall t :: 0 <= t < |q.transfers| ==> Tidy(q, t)
  }

  lemma LandTidy(q: Queue, k: nat)
    requires AllTidy(q) && Enabled(q, Land(k))
    ensures AllTidy(LandAgent(q, k))
  {
    var r := LandAgent(q, k);
    forall t | 0 <= t < |r.transfers| ensures Tidy(r, t) {
      assert Tidy(q, t);
      if Repay(t) in q.agents && q.agents[k] != Repay(t) {
        var j :| 0 <= j < |q.agents| && q.agents[j] == Repay(t);
        assert r.agents[if |r.agents| < |q.agents| && j > k then j - 1 else j] == Repay(t);
      }
    }
  }

  lemma StepTidy(q: Queue, step: Step)
    requires AllTidy(q) && Enabled(q, step) && PoliteStep(q, step)
    ensures AllTidy(Next(q, step))
  {
    if step.Land? {
      LandTidy(q, step.a);
    } else {
      var r := Next(q, step);
      forall t | 0 <= t < |r.transfers| ensures Tidy(r, t) {
        assert t < |q.transfers| ==> Tidy(q, t);
        assert forall a :: a in q.agents ==> a in r.agents;
        if step.Finish? {
          assert r.agents[|q.agents|] == Repay(step.t);
        }
      }
    }
  }

  lemma {:induction false} TidyFrom(q: Queue, steps: seq<Step>)
    requires AllTidy(q) && RunFrom(q, steps).Some? && PoliteFrom(q, steps)
    ensures AllTidy(RunFrom(q, steps).value)
  {
    if steps != [] {
      hide AllTidy, Next, Enabled, PoliteStep;
      var k := |steps| - 1;
      TidyFrom(q, steps[..k]);
      StepTidy(RunFrom(q, steps[..k]).value, steps[k]);
    }
  }

  lemma RunTidy(steps: seq<Step>)
    requires Run(steps).Some? && Polite(steps)
    ensures AllTidy(Run(steps).value)
  {
    TidyFrom(Start(), steps);
  }

  /** In a polite schedule a transfer whose task has ended holds no priority
      once its repayment has landed; when all have ended both counters are 0,
      so nobody is left yielding to a finished transfer. */
  lemma FinishedHoldsNothing(steps: seq<Step>)
    requires Run(steps).Some? && Polite(steps)
    ensures var q := Run(steps).value;
            && (forall t :: 0 <= t < |q.transfers| && q.transfers[t].owners == 0 && Repay(t) !in q.agents ==>
                              q.transfers[t].flag == 0)
            && (q.agents == [] && (forall x :: x in q.transfers ==> x.owners == 0) ==> q.waiting == 0 && q.running == 0)
  {
    RunTidy(steps);
    RunBalanced(steps);
    var q := Run(steps).value;
    forall t | 0 <= t < |q.transfers| && q.transfers[t].owners == 0 && Repay(t) !in q.agents
      ensures q.transfers[t].flag == 0
    {
      assert Tidy(q, t);
    }
    if q.agents == [] && (forall x :: x in q.transfers ==> x.owners == 0) {
      forall x | x in q.transfers ensures x.flag == 0 {
        var t :| 0 <= t < |q.transfers| && q.transfers[t] == x;
        assert Tidy(q, t);
      }
      SumZero(q.transfers, IsWaiting);
      SumZero(q.transfers, IsRunning);
    }
  }

  /** A transfer nobody runs any more that still counts as running ahead. */
  ghost predicate Leaked(q: Queue, t: nat) {
    && t < |q.transfers|
    && q.transfers[t].owners == 0 && q.transfers[t].flag == 2 && q.transfers[t].state == Running
    && Repay(t) !in q.agents
  }

  /** Resuming and then prioritizing a finished transfer whose repayment has landed
      leaks a priority. */
  lemma RudeResumeLeaks(q: Queue, t: nat)
    requires t < |q.transfers| && q.transfers[t].owners == 0 && q.transfers[t].flag == 0 && Repay(t) !in q.agents
    ensures Leaked(Next(Next(q, Resume(t)), Prioritize(t)), t)
  {
  }

  /** Some polite continuation leads to a leak. */
  ghost predicate CanLeak(q: Queue) {
    exists steps, t: nat :: RunFrom(q, steps).Some? && PoliteFrom(q, steps) && Leaked(RunFrom(q, steps).value, t)
  }

  lemma TidyNeverLeaks(q: Queue)
    requires AllTidy(q)
    ensures !CanLeak(q)
  {
    forall steps, t: nat | RunFrom(q, steps).Some? && PoliteFrom(q, steps)
      ensures !Leaked(RunFrom(q, steps).value, t)
    {
      TidyFrom(q, steps);
      assert t < |RunFrom(q, steps).value.transfers| ==> Tidy(RunFrom(q, steps).value, t);
    }
  }

  /** A finished transfer that was resumed; its repayment may still be pending. */
  ghost predicate Revived(q: Queue, t: nat) {
    && t < |q.transfers| && q.transfers[t].owners == 0 && q.transfers[t].state == Running
    && (q.transfers[t].flag == 0 || Repay(t) in q.agents)
  }

  /** One more step of a polite schedule. */
  lemma Extend(q: Queue, steps: seq<Step>, step: Step)
    requires RunFrom(q, steps).Some? && PoliteFrom(q, steps)
    requires Enabled(RunFrom(q, steps).value, step) && PoliteStep(RunFrom(q, steps).value, step)
    ensures RunFrom(q, steps + [step]) == Some(Next(RunFrom(q, steps).value, step)) && PoliteFrom(q, steps + [step])
  {
    hide Next, Enabled, PoliteStep;
    assert (steps + [step])[..|steps|] == steps;
  }

  lemma LandRepay(q: Queue, k: nat, t: nat)
    requires Revived(q, t) && k < |q.agents| && q.agents[k] == Repay(t)
    ensures Enabled(q, Land(k)) && Revived(Next(q, Land(k)), t)
    ensures multiset(Next(q, Land(k)).agents)[Repay(t)] == multiset(q.agents)[Repay(t)] - 1
  {
    var r := Next(q, Land(k));
    var a, b := q.agents[..k], q.agents[k + 1..];
    assert q.agents == a + [Repay(t)] + b;
    if q.transfers[t].flag == 0 {
      assert r.agents == a + b;
    } else {
      assert r.agents == a + [r.agents[k]] + b;
    }
  }

  /** Every pending repayment of the revived transfer lands. */
  lemma LandRepays(q: Queue, t: nat) returns (steps: seq<Step>, r: Queue)
    requires Revived(q, t)
    ensures RunFrom(q, steps) == Some(r) && PoliteFrom(q, steps)
    ensures Revived(r, t) && Repay(t) !in r.agents
  {
    steps, r := [], q;
    hide Next, Enabled, RunFrom, PoliteFrom;
    assert RunFrom(q, []) == Some(q) && PoliteFrom(q, []) by { NoSteps(q); }
    while Repay(t) in r.agents
      invariant RunFrom(q, steps) == Some(r) && PoliteFrom(q, steps) && Revived(r, t)
      decreases multiset(r.agents)[Repay(t)]
    {
      var k :| 0 <= k < |r.agents| && r.agents[k] == Repay(t);
      LandRepay(r, k, t);
      Extend(q, steps, Land(k));
      steps, r := steps + [Land(k)], Next(r, Land(k));
    }
  }

  lemma NoSteps(q: Queue)
    ensures RunFrom(q, []) == Some(q) && PoliteFrom(q, [])
  {
  }

  lemma RevivedCanLeak(q: Queue, t: nat)
    requires Revived(q, t)
    ensures CanLeak(q)
  {
    var steps, r := LandRepays(q, t);
    Extend(q, steps, Prioritize(t));
    var n := Next(r, Prioritize(t));
    assert Leaked(n, t);
    assert RunFrom(q, steps + [Prioritize(t)]) == Some(n);
  }

  /** Exactly when a priority can be lost: after any polite schedule, the next
      step opens the way to a leak if and only if it resumes a transfer that has
      finished, which its caller could check. */
  lemma PolitenessExact(steps: seq<Step>, e: Step)
    requires Run(steps).Some? && Polite(steps) && Enabled(Run(steps).value, e)
    ensures CanLeak(Next(Run(steps).value, e)) <==> !PoliteStep(Run(steps).value, e)
  {
    hide CanLeak, RunFrom, PoliteFrom;
    var q := Run(steps).value;
    RunTidy(steps);
    if PoliteStep(q, e) {
      StepTidy(q, e);
      TidyNeverLeaks(Next(q, e));
    } else {
      assert Tidy(q, e.t);
      RevivedCanLeak(Next(q, e), e.t);
    }
  }

  /** Such a schedule exists: finish, repay, resume, prioritize. */
  lemma LeakReachable()
    ensures exists q :: Reachable(q) && Leaked(q, 0)
  {
    hide Run, Reachable;
    StartReachable();
    var q := Start();
    q := Then(q, Enqueue, Queue([Transfer(0, Queued, 1)], 0, 0, []));
    q := Then(q, Finish(0, Done), Queue([Transfer(0, Done, 0)], 0, 0, [Repay(0)]));
    q := Then(q, Land(0), Queue([Transfer(0, Done, 0)], 0, 0, []));
    q := Then(q, Resume(0), Queue([Transfer(0, Running, 0)], 0, 0, []));
    q := Then(q, Prioritize(0), Queue([Transfer(2, Running, 0)], 0, 0, [AddRunning]));
  }

  ghost predicate Reachable(q: Queue) { exists steps :: Run(steps) == Some(q) }

  lemma StartReachable()
    ensures Reachable(Start())
  {
    assert Run([]) == Some(Start());
  }

  lemma Then(q: Queue, step: Step, t: Queue) returns (r: Queue)
    requires Reachable(q) && Enabled(q, step) && t == Next(q, step)
    ensures r == t && Reachable(r)
  {
    var steps :| Run(steps) == Some(q);
    assert (steps + [step])[..|steps|] == steps;
    assert Run(steps + [step]) == Some(t);
    r := t;
  }

  /** And the leak is permanent: no step of any agent repairs it. */
  lemma LeakIsForever(q: Queue, t: nat, step: Step)
    requires Leaked(q, t) && Enabled(q, step)
    ensures Leaked(Next(q, step), t)
  {
    var r := Next(q, step);
    if step.Land? {
      assert forall a :: a in r.agents ==> a in q.agents || !a.Repay?;
    }
  }

  /** Once every other update has landed, a leak keeps `priority_running` at one
      or more, which makes every ordinary transfer yield. */
  lemma LeakKeepsOthersWaiting(steps: seq<Step>, t: nat)
    requires Run(steps).Some? && Leaked(Run(steps).value, t) && Run(steps).value.agents == []
    ensures Run(steps).value.running >= 1
  {
    RunBalanced(steps);
    SumAtLeast(Run(steps).value.transfers, t, IsRunning);
  }
}
