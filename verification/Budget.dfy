/** `Budget`: a counter taken by compare-and-swap, returned when a permit is
    dropped, with a `Notify` on which acquirers wait. Every atomic operation is
    one step, so a run is any interleaving of any number of tasks. */
module Budget {
  import opened Options
  import opened Sums

  /** Where one task stands in `try_acquire`, `acquire` or `acquire_timeout`.
      `Missed` is after a failed CAS and before the first poll of `notified()`;
      `Woken` has consumed or been handed a notification and has yet to retry;
      `Releasing` is between the decrement and the `notify_one` of a drop. */
  datatype Phase = Idle | Missed | Parked | Woken | Holding | Releasing

  /** `stored` is the single permit a `Notify` keeps when nobody waits. */
  datatype System = System(used: nat, rejected: nat, stored: bool, tasks: seq<Phase>)

  datatype Step =
    | Take(i: nat)
    | TryTake(i: nat)
    | Await(i: nat)
    | Drop(i: nat)
    | NotifyOne(i: nat, wake: nat)
    | Timeout(i: nat, wake: nat)

  function Start(n: nat): System {
    System(0, 0, false, seq(n, _ => Idle))
  }

  /** `notify_one`: hand the notification to a parked task (any of them), or
      store it, a second stored one being absorbed. */
  predicate CanNotify(s: System, wake: nat) {
    if Parked in s.tasks then wake < |s.tasks| && s.tasks[wake] == Parked else true
  }

  function Notify(s: System, wake: nat): System
    requires CanNotify(s, wake)
  {
    if Parked in s.tasks then s.(tasks := s.tasks[wake := Woken]) else s.(stored := true)
  }

  predicate Enabled(s: System, step: Step) {
    step.i < |s.tasks| &&
    match step
    case Take(i) => s.tasks[i] == Idle || s.tasks[i] == Woken
    case TryTake(i) => s.tasks[i] == Idle
    case Await(i) => s.tasks[i] == Missed
    case Drop(i) => s.tasks[i] == Holding && s.used > 0
    case NotifyOne(i, wake) => s.tasks[i] == Releasing && CanNotify(s.(tasks := s.tasks[i := Idle]), wake)
    case Timeout(i, wake) =>
      (s.tasks[i] == Parked || s.tasks[i] == Woken) && CanNotify(s.(tasks := s.tasks[i := Idle]), wake)
  }

  function Next(cap: nat, s: System, step: Step): System
    requires Enabled(s, step)
  {
    match step
    case Take(i) =>
      if s.used < cap then s.(used := s.used + 1, tasks := s.tasks[i := Holding])
      else s.(tasks := s.tasks[i := Missed])
    case TryTake(i) =>
      if s.used < cap then s.(used := s.used + 1, tasks := s.tasks[i := Holding])
      else s.(rejected := s.rejected + 1)
    case Await(i) =>
      if s.stored then s.(stored := false, tasks := s.tasks[i := Woken])
      else s.(tasks := s.tasks[i := Parked])
    case Drop(i) => s.(used := s.used - 1, tasks := s.tasks[i := Releasing])
    case NotifyOne(i, wake) => Notify(s.(tasks := s.tasks[i := Idle]), wake)
    case Timeout(i, wake) =>
      // dropping a notified waiter passes its notification on
      var left := s.(rejected := s.rejected + 1, tasks := s.tasks[i := Idle]);
      if s.tasks[i] == Woken then Notify(left, wake) else left
  }

  /** A task that asks for a unit gets it exactly when one is free; only a task that
      does not wait, or stops waiting, is counted as rejected. */
  lemma TakesExactlyWhenFree(cap: nat, s: System, step: Step)
    requires Enabled(s, step)
    ensures var t := Next(cap, s, step);
            && (step.Take? || step.TryTake? ==> (t.tasks[step.i] == Holding <==> s.used < cap))
            && (t.rejected == s.rejected + 1 <==> step.Timeout? || (step.TryTake? && s.used >= cap))
            && (t.rejected != s.rejected + 1 ==> t.rejected == s.rejected)
            && (step.TryTake? && s.used >= cap ==> t.tasks == s.tasks)
  {
  }

  /** The state after a schedule, or `None` if it asks for a disabled step. */
  function Run(cap: nat, n: nat, steps: seq<Step>): Option<System> {
    if steps == [] then Some(Start(n))
    else
      var k := |steps| - 1;
      var before := Run(cap, n, steps[..k]);
      if before.Some? && Enabled(before.value, steps[k]) then Some(Next(cap, before.value, steps[k])) else None
  }

  function Held(p: Phase): int { if p == Holding then 1 else 0 }

  /** A task that will still signal or use a freed unit. */
  function Lively(p: Phase): int { if p == Holding || p == Releasing || p == Woken then 1 else 0 }

  ghost predicate Inv(cap: nat, s: System) {
    && s.used == Sum(s.tasks, Held)
    && s.used <= cap
    && (s.stored ==> Parked !in s.tasks)
    && (Parked in s.tasks || Missed in s.tasks ==> s.stored || Sum(s.tasks, Lively) > 0)
  }

  lemma HeldAreLively(tasks: seq<Phase>)
    ensures 0 <= Sum(tasks, Held) <= Sum(tasks, Lively)
  {
    if tasks != [] {
      HeldAreLively(tasks[1..]);
    }
  }

  lemma NotifyKeeps(cap: nat, s: System, wake: nat)
    requires CanNotify(s, wake)
    requires s.used == Sum(s.tasks, Held) <= cap
    requires s.stored ==> Parked !in s.tasks
    ensures Inv(cap, Notify(s, wake))
  {
    if Parked in s.tasks {
      var t := s.tasks[wake := Woken];
      SumUpdate(s.tasks, wake, Woken, Held);
      LivelyAt(t, wake);
    }
  }

  lemma LivelyAt(tasks: seq<Phase>, i: nat)
    requires i < |tasks| && Lively(tasks[i]) == 1
    ensures Sum(tasks, Lively) > 0
  {
    SumAtLeast(tasks, i, Lively);
  }

  lemma StepKeeps(cap: nat, s: System, step: Step)
    requires cap >= 1 && Inv(cap, s) && Enabled(s, step)
    ensures Inv(cap, Next(cap, s, step))
  {
    var t := Next(cap, s, step);
    var i := step.i;
    HeldAreLively(s.tasks);
    match step
    case NotifyOne(_, wake) =>
      SumUpdate(s.tasks, i, Idle, Held);
      NotifyKeeps(cap, s.(tasks := s.tasks[i := Idle]), wake);
    case Timeout(_, wake) =>
      SumUpdate(s.tasks, i, Idle, Held);
      SumUpdate(s.tasks, i, Idle, Lively);
      if s.tasks[i] == Woken {
        NotifyKeeps(cap, s.(rejected := s.rejected + 1, tasks := s.tasks[i := Idle]), wake);
      }
    case Take(_) =>
      SumUpdate(s.tasks, i, t.tasks[i], Held);
      HeldAreLively(t.tasks);
    case TryTake(_) =>
      SumUpdate(s.tasks, i, t.tasks[i], Held);
      HeldAreLively(t.tasks);
    case Await(_) =>
      SumUpdate(s.tasks, i, t.tasks[i], Held);
      SumUpdate(s.tasks, i, t.tasks[i], Lively);
      HeldAreLively(t.tasks);
      assert Missed in s.tasks;
    case Drop(_) =>
      SumUpdate(s.tasks, i, Releasing, Held);
      LivelyAt(t.tasks, i);
  }

  lemma {:induction false} RunKeeps(cap: nat, n: nat, steps: seq<Step>)
    requires cap >= 1 && Run(cap, n, steps).Some?
    ensures Inv(cap, Run(cap, n, steps).value)
  {
    if steps == [] {
      SumZero(Start(n).tasks, Held);
    } else {
      var k := |steps| - 1;
      RunKeeps(cap, n, steps[..k]);
      StepKeeps(cap, Run(cap, n, steps[..k]).value, steps[k]);
    }
  }

  /** In every interleaving the counter equals the live permits, never exceeds
      the cap, and a parked acquirer is never stranded: somebody holds a unit,
      is about to notify, or has been notified and will retry. */
  lemma NoStrandedAcquirer(cap: nat, n: nat, steps: seq<Step>)
    requires cap >= 1 && Run(cap, n, steps).Some?
    ensures var t := Run(cap, n, steps).value;
            && t.used == Sum(t.tasks, Held) <= cap
            && (Parked in t.tasks ==>
                  exists k :: 0 <= k < |t.tasks| && t.tasks[k] in {Holding, Releasing, Woken})
  {
    RunKeeps(cap, n, steps);
    var t := Run(cap, n, steps).value;
    if Parked in t.tasks {
      var k := SumWitness(t.tasks, Lively);
      assert t.tasks[k] in {Holding, Releasing, Woken};
    }
  }

  ghost predicate Reachable(cap: nat, n: nat, s: System) {
    exists steps :: Run(cap, n, steps) == Some(s)
  }

  lemma Then(cap: nat, n: nat, s: System, step: Step, t: System) returns (r: System)
    requires Reachable(cap, n, s) && Enabled(s, step) && t == Next(cap, s, step)
    ensures r == t && Reachable(cap, n, t)
  {
    var steps :| Run(cap, n, steps) == Some(s);
    assert (steps + [step])[..|steps|] == steps;
    assert Run(cap, n, steps + [step]) == Some(t);
    r := t;
  }

  // ---------- exactly when a free unit can coexist with a parked task ----------

  /** Nobody is between two steps: every task is idle, parked or holding. */
  predicate AtRest(s: System) {
    forall k :: 0 <= k < |s.tasks| ==> s.tasks[k] in {Idle, Parked, Holding}
  }

  /** A unit stays free although a task is parked. */
  predicate Overlooked(cap: nat, s: System) {
    AtRest(s) && s.used < cap && Parked in s.tasks
  }

  function Waits(p: Phase): int { if p == Missed || p == Parked then 1 else 0 }
  function Frees(p: Phase): int { if p == Releasing then 1 else 0 }

  /** What holds besides while at most one task can wait: a waiting task has been
      or will be told of any free unit. */
  ghost predicate OneWaits(cap: nat, s: System) {
    && Sum(s.tasks, Waits) <= 1
    && (Sum(s.tasks, Waits) == 1 ==> s.used == cap || s.stored || Sum(s.tasks, Frees) > 0)
  }

  lemma {:induction false} HeldAndWaiting(tasks: seq<Phase>)
    ensures 0 <= Sum(tasks, Held) && 0 <= Sum(tasks, Waits) && 0 <= Sum(tasks, Frees)
    ensures Sum(tasks, Held) + Sum(tasks, Waits) <= |tasks|
  {
    if tasks != [] {
      HeldAndWaiting(tasks[1..]);
    }
  }

  lemma NoneWaits(tasks: seq<Phase>)
    ensures Sum(tasks, Waits) == 0 <==> Parked !in tasks && Missed !in tasks
  {
    if Sum(tasks, Waits) == 0 {
      forall k | 0 <= k < |tasks| ensures Waits(tasks[k]) == 0 {
        SumAtLeast(tasks, k, Waits);
      }
    } else if Parked !in tasks && Missed !in tasks {
      SumZero(tasks, Waits);
    }
  }

  lemma SetSums(tasks: seq<Phase>, i: nat, p: Phase)
    requires i < |tasks|
    ensures Sum(tasks[i := p], Held) == Sum(tasks, Held) - Held(tasks[i]) + Held(p)
    ensures Sum(tasks[i := p], Waits) == Sum(tasks, Waits) - Waits(tasks[i]) + Waits(p)
    ensures Sum(tasks[i := p], Frees) == Sum(tasks, Frees) - Frees(tasks[i]) + Frees(p)
    ensures 0 <= Sum(tasks, Waits) && 0 <= Sum(tasks[i := p], Waits)
    ensures 0 <= Sum(tasks, Frees) && 0 <= Sum(tasks[i := p], Frees)
    ensures Sum(tasks[i := p], Held) + Sum(tasks[i := p], Waits) <= |tasks|
  {
    SumUpdate(tasks, i, p, Held);
    SumUpdate(tasks, i, p, Waits);
    SumUpdate(tasks, i, p, Frees);
    HeldAndWaiting(tasks);
    HeldAndWaiting(tasks[i := p]);
  }

  lemma NotifyOneWaits(cap: nat, s: System, wake: nat)
    requires CanNotify(s, wake) && Sum(s.tasks, Waits) <= 1
    ensures OneWaits(cap, Notify(s, wake))
  {
    hide Sum;
    if Parked in s.tasks {
      SetSums(s.tasks, wake, Woken);
    }
  }

  lemma StepOneWaits(cap: nat, s: System, step: Step)
    requires |s.tasks| <= cap + 1 && Inv(cap, s) && OneWaits(cap, s) && Enabled(s, step)
    ensures OneWaits(cap, Next(cap, s, step)) && |Next(cap, s, step).tasks| == |s.tasks|
  {
    hide Sum;
    var i := step.i;
    var t := Next(cap, s, step);
    match step
    case NotifyOne(_, wake) =>
      SetSums(s.tasks, i, Idle);
      NotifyOneWaits(cap, s.(tasks := s.tasks[i := Idle]), wake);
    case Timeout(_, wake) =>
      SetSums(s.tasks, i, Idle);
      if s.tasks[i] == Woken {
        NotifyOneWaits(cap, s.(rejected := s.rejected + 1, tasks := s.tasks[i := Idle]), wake);
      }
    case _ =>
      assert t.tasks == s.tasks[i := t.tasks[i]];
      SetSums(s.tasks, i, t.tasks[i]);
  }

  lemma {:induction false} RunOneWaits(cap: nat, n: nat, steps: seq<Step>)
    requires cap >= 1 && n <= cap + 1 && Run(cap, n, steps).Some?
    ensures var s := Run(cap, n, steps).value; |s.tasks| == n && OneWaits(cap, s)
  {
    if steps == [] {
      SumZero(Start(n).tasks, Waits);
    } else {
      hide OneWaits, Inv, Next, Enabled;
      var k := |steps| - 1;
      RunOneWaits(cap, n, steps[..k]);
      RunKeeps(cap, n, steps[..k]);
      StepOneWaits(cap, Run(cap, n, steps[..k]).value, steps[k]);
    }
  }

  /** With one unit, or with at most one task more than units, it cannot happen. */
  lemma NeverOverlooked(cap: nat, n: nat, s: System)
    requires cap >= 1 && (cap == 1 || n <= cap + 1) && Reachable(cap, n, s)
    ensures !Overlooked(cap, s)
  {
    var steps :| Run(cap, n, steps) == Some(s);
    RunKeeps(cap, n, steps);
    if AtRest(s) && Parked in s.tasks {
      RestIsHeld(s.tasks);
      if cap > 1 {
        RunOneWaits(cap, n, steps);
        NoneWaits(s.tasks);
        HeldAndWaiting(s.tasks);
      }
    }
  }

  lemma RestIsHeld(tasks: seq<Phase>)
    requires forall k :: 0 <= k < |tasks| ==> tasks[k] in {Idle, Parked, Holding}
    ensures Sum(tasks, Lively) == Sum(tasks, Held) && Sum(tasks, Frees) == 0
  {
    if tasks != [] {
      RestIsHeld(tasks[1..]);
    }
  }

  /** The first two holders in phases `a` and `b`, the next ones holding, the two
      tasks after them in `c` and `d`, the rest idle. */
  function Lineup(cap: nat, n: nat, a: Phase, b: Phase, c: Phase, d: Phase): seq<Phase> {
    seq(n, i requires 0 <= i < n =>
      if i == 0 then a else if i == 1 then b else if i < cap then Holding
      else if i == cap then c else if i == cap + 1 then d else Idle)
  }

  function Fill(n: nat, k: nat): seq<Phase> {
    seq(n, i requires 0 <= i < n => if i < k then Holding else Idle)
  }

  lemma {:induction false} Filled(cap: nat, n: nat, k: nat) returns (s: System)
    requires k <= cap <= n
    ensures s == System(k, 0, false, Fill(n, k)) && Reachable(cap, n, s)
  {
    if k == 0 {
      s := Start(n);
      assert s.tasks == Fill(n, 0);
      assert Run(cap, n, []) == Some(s);
    } else {
      s := Filled(cap, n, k - 1);
      assert Fill(n, k - 1)[k - 1 := Holding] == Fill(n, k);
      s := Then(cap, n, s, Take(k - 1), System(k, 0, false, Fill(n, k)));
    }
  }

  lemma TwoMissAtCap(cap: nat, n: nat) returns (s: System)
    requires cap >= 2 && n >= cap + 2
    ensures s == System(cap, 0, false, Lineup(cap, n, Holding, Holding, Missed, Missed)) && Reachable(cap, n, s)
  {
    s := Filled(cap, n, cap);
    hide Reachable, Run;
    assert Fill(n, cap)[cap := Missed] == Lineup(cap, n, Holding, Holding, Missed, Idle);
    s := Then(cap, n, s, Take(cap), System(cap, 0, false, Lineup(cap, n, Holding, Holding, Missed, Idle)));
    assert s.tasks[cap + 1 := Missed] == Lineup(cap, n, Holding, Holding, Missed, Missed);
    s := Then(cap, n, s, Take(cap + 1), System(cap, 0, false, Lineup(cap, n, Holding, Holding, Missed, Missed)));
  }

  lemma FirstReleases(cap: nat, n: nat) returns (s: System)
    requires cap >= 2 && n >= cap + 2
    ensures s == System(cap - 1, 0, true, Lineup(cap, n, Idle, Holding, Missed, Missed)) && Reachable(cap, n, s)
  {
    s := TwoMissAtCap(cap, n);
    hide Reachable, Run;
    assert s.tasks[0 := Releasing] == Lineup(cap, n, Releasing, Holding, Missed, Missed);
    s := Then(cap, n, s, Drop(0), System(cap - 1, 0, false, Lineup(cap, n, Releasing, Holding, Missed, Missed)));
    assert s.tasks[0 := Idle] == Lineup(cap, n, Idle, Holding, Missed, Missed);
    s := Then(cap, n, s, NotifyOne(0, 0), System(cap - 1, 0, true, Lineup(cap, n, Idle, Holding, Missed, Missed)));
  }

  lemma BothReleaseBeforePolling(cap: nat, n: nat) returns (s: System)
    requires cap >= 2 && n >= cap + 2
    ensures s == System(cap - 2, 0, true, Lineup(cap, n, Idle, Idle, Missed, Missed)) && Reachable(cap, n, s)
  {
    s := FirstReleases(cap, n);
    hide Reachable, Run;
    assert s.tasks[1 := Releasing] == Lineup(cap, n, Idle, Releasing, Missed, Missed);
    s := Then(cap, n, s, Drop(1), System(cap - 2, 0, true, Lineup(cap, n, Idle, Releasing, Missed, Missed)));
    assert s.tasks[1 := Idle] == Lineup(cap, n, Idle, Idle, Missed, Missed);
    s := Then(cap, n, s, NotifyOne(1, 0), System(cap - 2, 0, true, Lineup(cap, n, Idle, Idle, Missed, Missed)));
  }

  /** The stronger wish "a free unit means nobody is parked" fails: two releases
      before either waiter polls leave one stored notification, so one waiter
      takes a unit and the other stays parked beside a free one. */
  lemma FreeUnitWithParkedTask(cap: nat, n: nat) returns (s: System)
    requires cap >= 2 && n >= cap + 2
    ensures Reachable(cap, n, s) && Overlooked(cap, s)
  {
    s := BothReleaseBeforePolling(cap, n);
    hide Reachable, Run;
    assert s.tasks[cap := Woken] == Lineup(cap, n, Idle, Idle, Woken, Missed);
    s := Then(cap, n, s, Await(cap), System(cap - 2, 0, false, Lineup(cap, n, Idle, Idle, Woken, Missed)));
    assert s.tasks[cap + 1 := Parked] == Lineup(cap, n, Idle, Idle, Woken, Parked);
    s := Then(cap, n, s, Await(cap + 1), System(cap - 2, 0, false, Lineup(cap, n, Idle, Idle, Woken, Parked)));
    assert s.tasks[cap := Holding] == Lineup(cap, n, Idle, Idle, Holding, Parked);
    s := Then(cap, n, s, Take(cap), System(cap - 1, 0, false, Lineup(cap, n, Idle, Idle, Holding, Parked)));
    assert s.tasks[cap + 1] == Parked;
  }

  /** Exactly when it can happen: with two units or more and two tasks more than
      units. A budget of one unit, or one with fewer users, never overlooks. */
  lemma FreeUnitAtRestIff(cap: nat, n: nat)
    requires cap >= 1
    ensures (exists s :: Reachable(cap, n, s) && Overlooked(cap, s)) <==> cap >= 2 && n >= cap + 2
  {
    if cap >= 2 && n >= cap + 2 {
      var s := FreeUnitWithParkedTask(cap, n);
    } else {
      forall s | Reachable(cap, n, s) ensures !Overlooked(cap, s) {
        NeverOverlooked(cap, n, s);
      }
    }
  }
}
