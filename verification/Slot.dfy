/** `SubsystemSlot`: at most one recovery at a time, shared by all callers, with
    generations and a back-off after failure. Lock sections, the probe and the
    factory call, watch reads and clock ticks are steps. */
module Slot {
  import opened Options

  type Client = nat

  datatype SlotState =
    | Empty
    | Failed(at: nat, error: string)
    | Recovering(id: nat)
    | Ready(generation: nat, client: Client)

  datatype Outcome = Got(client: Client) | Err(error: string)

  datatype Old = Old(generation: nat, client: Client)

  /** What the recovery task will settle with. */
  datatype Result = Kept(prior: Old) | Fresh(client: Client) | Broke(error: string)

  /** A spawned recovery task: probing, calling the factory, or with its answer
      and about to take the lock. `id` names the watch channel it will send on. */
  datatype Task =
    | Probing(id: nat, prior: Old)
    | Connecting(id: nat)
    | Settling(id: nat, result: Result)

  /** A caller of `get`: about to look, about to enter `ensure`, waiting on a
      recovery's channel, returned, or dropped. */
  datatype Caller =
    | Entering | Ensuring | Waiting(id: nat) | Returned(via: Option<nat>, outcome: Outcome) | Gone

  /** `outcomes[id]` is the value of watch channel `id` once sent. The last
      two fields record the past and are read by no step. */
  datatype Slot = Slot(
    state: SlotState, suspect: bool, generations: nat, now: nat, tasks: seq<Task>, channels: nat,
    outcomes: map<nat, Outcome>, callers: seq<Caller>,
    clients: seq<Client>, lastFailure: Option<nat>)

  datatype Step =
    | Arrive | Look(c: nat) | Ensure(c: nat) | Read(c: nat) | Drop(c: nat)
    | ProbeDone(k: nat, ok: bool) | FactoryDone(k: nat, result: Outcome) | Settle(k: nat)
    | RecordError | Invalidate | Tick(d: nat)

  function Start(): Slot {
    Slot(Empty, false, 0, 0, [], 0, map[], [], [], None)
  }

  predicate Enabled(s: Slot, step: Step) {
    match step
    case Arrive => true
    case Look(c) => c < |s.callers| && s.callers[c] == Entering
    case Ensure(c) => c < |s.callers| && s.callers[c] == Ensuring
    case Read(c) => c < |s.callers| && s.callers[c].Waiting? && s.callers[c].id in s.outcomes
    case Drop(c) => c < |s.callers| && (s.callers[c] == Ensuring || s.callers[c].Waiting?)
    case ProbeDone(k, _) => k < |s.tasks| && s.tasks[k].Probing?
    case FactoryDone(k, _) => k < |s.tasks| && s.tasks[k].Connecting?
    case Settle(k) => k < |s.tasks| && s.tasks[k].Settling?
    case RecordError => true
    case Invalidate => true
    case Tick(_) => true
  }

  function Leave(s: Slot, c: nat, id: Option<nat>, o: Outcome): Slot
    requires c < |s.callers|
  {
    s.(callers := s.callers[c := Returned(id, o)])
  }

  /** Entering recovery, inside the lock: new channel, new task. Without an old
      client to probe the task goes straight to the factory. */
  function Recover(s: Slot, c: nat, prior: Option<Old>): Slot
    requires c < |s.callers|
  {
    var id := s.channels;
    s.(state := Recovering(id), channels := id + 1, callers := s.callers[c := Waiting(id)],
       tasks := s.tasks + [if prior.Some? then Probing(id, prior.value) else Connecting(id)])
  }

  function Next(backoff: nat, s: Slot, step: Step): Slot
    requires Enabled(s, step)
  {
    match step
    case Arrive => s.(callers := s.callers + [Entering])
    case Look(c) =>
      if s.state.Ready? && !s.suspect then Leave(s, c, None, Got(s.state.client))
      else s.(callers := s.callers[c := Ensuring])
    case Ensure(c) =>
      (match s.state
       case Ready(g, client) =>
         if !s.suspect then Leave(s, c, None, Got(client)) else Recover(s, c, Some(Old(g, client)))
       case Empty => Recover(s, c, None)
       case Failed(at, error) =>
         if s.now < at + backoff then Leave(s, c, None, Err(error)) else Recover(s, c, None)
       case Recovering(id) => s.(callers := s.callers[c := Waiting(id)]))
    case Read(c) => Leave(s, c, Some(s.callers[c].id), s.outcomes[s.callers[c].id])
    case Drop(c) => s.(callers := s.callers[c := Gone])
    case ProbeDone(k, ok) =>
      var t := s.tasks[k];
      if ok then s.(tasks := s.tasks[k := Settling(t.id, Kept(t.prior))])
      else s.(tasks := s.tasks[k := Connecting(t.id)])
    case FactoryDone(k, r) =>
      var result := if r.Got? then Fresh(r.client) else Broke(r.error);
      s.(tasks := s.tasks[k := Settling(s.tasks[k].id, result)])
    case Settle(k) =>
      var id := s.tasks[k].id;
      var rest := s.(tasks := s.tasks[..k] + s.tasks[k + 1..]);
      (match s.tasks[k].result
       case Kept(o) =>
         rest.(state := Ready(o.generation, o.client), suspect := false, outcomes := s.outcomes[id := Got(o.client)])
       case Fresh(client) =>
         rest.(state := Ready(s.generations + 1, client), suspect := false, generations := s.generations + 1,
               clients := s.clients + [client], outcomes := s.outcomes[id := Got(client)])
       case Broke(e) =>
         rest.(state := if backoff == 0 then Empty else Failed(s.now, e), lastFailure := Some(s.now),
               outcomes := s.outcomes[id := Err(e)]))
    case RecordError => s.(suspect := true)
    case Invalidate => if s.state.Ready? then s.(state := Empty) else s
    case Tick(d) => s.(now := s.now + d)
  }

  function Run(backoff: nat, steps: seq<Step>): Option<Slot> {
    if steps == [] then Some(Start())
    else
      var k := |steps| - 1;
      var before := Run(backoff, steps[..k]);
      if before.Some? && Enabled(before.value, steps[k]) then Some(Next(backoff, before.value, steps[k])) else None
  }

  // ---------- invariant ----------

  /** A live task exists exactly while the state is Recovering, it is the only
      one, and it sends on the channel the waiters hold. */
  ghost predicate SingleFlight(s: Slot) {
    && (s.state.Recovering? <==> |s.tasks| == 1)
    && |s.tasks| <= 1
    && (s.state.Recovering? ==> s.tasks[0].id == s.state.id && s.state.id + 1 == s.channels)
    && (forall id :: id in s.outcomes ==> id < s.channels && (s.state.Recovering? ==> id != s.state.id))
    && (forall id: nat :: id < s.channels && id !in s.outcomes ==> s.state == Recovering(id))
  }

  ghost predicate OldCurrent(s: Slot, o: Old) {
    1 <= o.generation == |s.clients| && s.clients[o.generation - 1] == o.client
  }

  /** The generation of a ready client is the number of factory successes. */
  ghost predicate Generations(s: Slot) {
    && s.generations == |s.clients|
    && (s.state.Ready? ==> OldCurrent(s, Old(s.state.generation, s.state.client)))
    && (forall t :: t in s.tasks && t.Probing? ==> OldCurrent(s, t.prior))
    && (forall t :: t in s.tasks && t.Settling? && t.result.Kept? ==> OldCurrent(s, t.result.prior))
  }

  ghost predicate CallerSound(s: Slot, c: Caller) {
    && (c.Waiting? ==> c.id < s.channels)
    && (c.Returned? && c.via.Some? ==> c.via.value in s.outcomes && s.outcomes[c.via.value] == c.outcome)
  }

  /** After a failure the factory is left alone for the whole window: until it
      has passed the slot stays failed. */
  ghost predicate Window(backoff: nat, s: Slot) {
    && (s.lastFailure.Some? ==> s.lastFailure.value <= s.now)
    && (s.lastFailure.Some? && s.now < s.lastFailure.value + backoff ==>
          s.state.Failed? && s.state.at == s.lastFailure.value)
    && (s.state.Failed? ==> s.lastFailure == Some(s.state.at))
  }

  ghost predicate Inv(backoff: nat, s: Slot) {
    && SingleFlight(s)
    && Generations(s)
    && (forall c :: c in s.callers ==> CallerSound(s, c))
    && Window(backoff, s)
  }

  lemma CallersKept(s: Slot, t: Slot, i: nat)
    requires forall c :: c in s.callers ==> CallerSound(s, c)
    requires s.channels <= t.channels
    requires forall id :: id in s.outcomes ==> id in t.outcomes && t.outcomes[id] == s.outcomes[id]
    requires forall k :: 0 <= k < |t.callers| && k != i ==> t.callers[k] in s.callers
    requires i < |t.callers| ==> CallerSound(t, t.callers[i])
    ensures forall c :: c in t.callers ==> CallerSound(t, c)
  {
    forall k | 0 <= k < |t.callers| ensures CallerSound(t, t.callers[k]) {
      if k != i {
        assert CallerSound(s, t.callers[k]);
      }
    }
  }

  /** Answering, dropping or sending a caller on changes only that caller. */
  lemma CallerMoveKeeps(backoff: nat, s: Slot, step: Step)
    requires Inv(backoff, s) && Enabled(s, step)
    requires step.Look? || step.Read? || step.Drop?
    ensures Inv(backoff, Next(backoff, s, step))
  {
    var t := Next(backoff, s, step);
    assert t == s.(callers := t.callers);
    assert s.callers[step.c] in s.callers;
    CallersKept(s, t, step.c);
  }

  lemma RecoverKeeps(backoff: nat, s: Slot, c: nat, prior: Option<Old>)
    requires Inv(backoff, s) && c < |s.callers| && !s.state.Recovering?
    requires s.state.Failed? ==> s.now >= s.state.at + backoff
    requires prior.Some? ==> OldCurrent(s, prior.value)
    ensures Inv(backoff, Recover(s, c, prior))
  {
    var t := Recover(s, c, prior);
    assert s.tasks == [];
    assert SingleFlight(t);
    assert Generations(t);
    CallersKept(s, t, c);
  }

  lemma EnsureKeeps(backoff: nat, s: Slot, c: nat)
    requires Inv(backoff, s) && Enabled(s, Ensure(c))
    ensures Inv(backoff, Next(backoff, s, Ensure(c)))
  {
    var t := Next(backoff, s, Ensure(c));
    if |t.tasks| > |s.tasks| {
      var prior := if s.state.Ready? then Some(Old(s.state.generation, s.state.client)) else None;
      RecoverKeeps(backoff, s, c, prior);
    } else {
      assert t == s.(callers := t.callers);
      CallersKept(s, t, c);
    }
  }

  lemma CallerStepKeeps(backoff: nat, s: Slot, step: Step)
    requires Inv(backoff, s) && Enabled(s, step)
    requires step.Look? || step.Ensure? || step.Read? || step.Drop?
    ensures Inv(backoff, Next(backoff, s, step))
  {
    hide Inv, Next;
    if step.Ensure? {
      EnsureKeeps(backoff, s, step.c);
    } else {
      CallerMoveKeeps(backoff, s, step);
    }
  }

  lemma TaskStepKeeps(backoff: nat, s: Slot, step: Step)
    requires Inv(backoff, s) && Enabled(s, step)
    requires step.ProbeDone? || step.FactoryDone? || step.Settle?
    ensures Inv(backoff, Next(backoff, s, step))
  {
    var t := Next(backoff, s, step);
    assert s.tasks == [s.tasks[0]];
    assert SingleFlight(t);
    CallersKept(s, t, |t.callers|);
    hide SingleFlight, CallerSound;
  }

  lemma StepKeeps(backoff: nat, s: Slot, step: Step)
    requires Inv(backoff, s) && Enabled(s, step)
    ensures Inv(backoff, Next(backoff, s, step))
  {
    var t := Next(backoff, s, step);
    match step
    case Arrive => CallersKept(s, t, |s.callers|);
    case RecordError =>
    case Invalidate =>
    case Tick(_) =>
    case ProbeDone(_, _) => TaskStepKeeps(backoff, s, step);
    case FactoryDone(_, _) => TaskStepKeeps(backoff, s, step);
    case Settle(_) => TaskStepKeeps(backoff, s, step);
    case _ => CallerStepKeeps(backoff, s, step);
  }

  lemma {:induction false} RunKeeps(backoff: nat, steps: seq<Step>)
    requires Run(backoff, steps).Some?
    ensures Inv(backoff, Run(backoff, steps).value)
  {
    if steps != [] {
      var k := |steps| - 1;
      RunKeeps(backoff, steps[..k]);
      StepKeeps(backoff, Run(backoff, steps[..k]).value, steps[k]);
    }
  }

  // ---------- results ----------

  /** In every run there is a live recovery task exactly while the slot is
      recovering, and never more than one. */
  lemma AtMostOneRecovery(backoff: nat, steps: seq<Step>)
    requires Run(backoff, steps).Some?
    ensures var s := Run(backoff, steps).value;
            |s.tasks| <= 1 && (s.state.Recovering? <==> |s.tasks| == 1)
  {
    RunKeeps(backoff, steps);
  }

  /** All callers that waited for one recovery got the same outcome. */
  lemma WaitersAgree(backoff: nat, steps: seq<Step>, a: nat, b: nat)
    requires Run(backoff, steps).Some?
    requires var cs := Run(backoff, steps).value.callers;
             a < |cs| && b < |cs| && cs[a].Returned? && cs[b].Returned? && cs[a].via.Some? && cs[a].via == cs[b].via
    ensures var cs := Run(backoff, steps).value.callers; cs[a].outcome == cs[b].outcome
  {
    RunKeeps(backoff, steps);
    var s := Run(backoff, steps).value;
    assert s.callers[a] in s.callers && s.callers[b] in s.callers;
  }

  /** A waiter is never left without an answer: its recovery has either sent its
      outcome or is still running. */
  lemma WaiterHasTask(backoff: nat, steps: seq<Step>, c: nat)
    requires Run(backoff, steps).Some?
    requires c < |Run(backoff, steps).value.callers| && Run(backoff, steps).value.callers[c].Waiting?
    ensures var s := Run(backoff, steps).value;
            s.callers[c].id in s.outcomes || (|s.tasks| == 1 && s.tasks[0].id == s.callers[c].id)
  {
    RunKeeps(backoff, steps);
    var s := Run(backoff, steps).value;
    assert s.callers[c] in s.callers;
  }

  lemma {:induction false} ClientsGrow(backoff: nat, steps: seq<Step>, k: nat)
    requires k <= |steps| && Run(backoff, steps).Some?
    ensures Run(backoff, steps[..k]).Some?
    ensures Run(backoff, steps[..k]).value.clients <= Run(backoff, steps).value.clients
  {
    if k < |steps| {
      var n := |steps| - 1;
      assert steps[..n][..k] == steps[..k];
      ClientsGrow(backoff, steps[..n], k);
    } else {
      assert steps[..k] == steps;
    }
  }

  /** A ready client's generation is the number of factory successes so far, so
      one generation never names two clients, even at different times. */
  lemma GenerationNamesOneClient(backoff: nat, steps: seq<Step>, k: nat)
    requires k <= |steps| && Run(backoff, steps).Some? && Run(backoff, steps).value.state.Ready?
    ensures var s := Run(backoff, steps).value;
            s.state.generation == s.generations == |s.clients|
    ensures Run(backoff, steps[..k]).Some?
    ensures var s, e := Run(backoff, steps).value, Run(backoff, steps[..k]).value;
            e.state.Ready? && e.state.generation == s.state.generation ==> e.state.client == s.state.client
  {
    RunKeeps(backoff, steps);
    ClientsGrow(backoff, steps, k);
    RunKeeps(backoff, steps[..k]);
  }

  /** Some recovery task is probing the client `o`, or has probed it with success. */
  predicate Probes(s: Slot, o: Old) {
    exists t :: t in s.tasks && (t == Probing(t.id, o) || t == Settling(t.id, Kept(o)))
  }

  /** Where a task that was not there before comes from. */
  lemma NewTask(backoff: nat, s: Slot, step: Step, x: Task)
    requires Enabled(s, step) && x in Next(backoff, s, step).tasks && x !in s.tasks
    ensures match step
            case Ensure(_) =>
              if s.state.Ready? then s.suspect && x.Probing? && x.prior == Old(s.state.generation, s.state.client)
              else x.Connecting? && (s.state.Empty? || (s.state.Failed? && s.now >= s.state.at + backoff))
            case ProbeDone(k, ok) =>
              if ok then x.Settling? && x.result.Kept? && s.tasks[k] == Probing(x.id, x.result.prior)
              else x.Connecting?
            case FactoryDone(k, o) =>
              x == Settling(s.tasks[k].id, if o.Got? then Fresh(o.client) else Broke(o.error))
            case _ => false
  {
    var t := Next(backoff, s, step);
    if step.ProbeDone? || step.FactoryDone? {
      assert t.tasks == s.tasks[step.k := t.tasks[step.k]];
    }
  }

  lemma ProbesBefore(backoff: nat, s: Slot, step: Step, o: Old)
    requires Enabled(s, step) && Probes(Next(backoff, s, step), o)
    ensures Probes(s, o) || s.state == Ready(o.generation, o.client)
  {
    var t := Next(backoff, s, step);
    hide Next;
    var x :| x in t.tasks && (x == Probing(x.id, o) || x == Settling(x.id, Kept(o)));
    if x !in s.tasks {
      NewTask(backoff, s, step, x);
      if step.ProbeDone? {
        assert s.tasks[step.k] in s.tasks;
      }
    }
  }

  /** The client a recovery probes was the ready one at some earlier moment. */
  lemma {:induction false} ProbedWasReady(backoff: nat, steps: seq<Step>, o: Old) returns (k: nat)
    requires Run(backoff, steps).Some? && Probes(Run(backoff, steps).value, o)
    ensures k <= |steps| && Run(backoff, steps[..k]).Some?
    ensures Run(backoff, steps[..k]).value.state == Ready(o.generation, o.client)
  {
    var n := |steps| - 1;
    var before := Run(backoff, steps[..n]).value;
    RunKeeps(backoff, steps[..n]);
    hide Inv, Next, Enabled;
    ProbesBefore(backoff, before, steps[n], o);
    if Probes(before, o) {
      k := ProbedWasReady(backoff, steps[..n], o);
      assert steps[..n][..k] == steps[..k];
    } else {
      k := n;
    }
  }

  /** In every run, whatever happened since the client came under suspicion: a
      recovery whose probe passed puts back exactly the client and generation
      that were ready at any moment since the last factory success, creates no
      new generation, clears the suspicion and answers with that client. */
  lemma PassingProbeKeepsClient(backoff: nat, steps: seq<Step>, j: nat, k: nat)
    requires Run(backoff, steps).Some? && Enabled(Run(backoff, steps).value, Settle(j))
    requires Run(backoff, steps).value.tasks[j].result.Kept?
    requires k <= |steps| && Run(backoff, steps[..k]).Some? && Run(backoff, steps[..k]).value.state.Ready?
    requires |Run(backoff, steps[..k]).value.clients| == |Run(backoff, steps).value.clients|
    ensures var s, e := Run(backoff, steps).value, Run(backoff, steps[..k]).value;
            var t := Next(backoff, s, Settle(j));
            && t.state == e.state && t.clients == s.clients && t.generations == s.generations && !t.suspect
            && t.outcomes == s.outcomes[s.tasks[j].id := Got(e.state.client)]
  {
    RunKeeps(backoff, steps);
    RunKeeps(backoff, steps[..k]);
    ClientsGrow(backoff, steps, k);
    assert Run(backoff, steps).value.tasks[j] in Run(backoff, steps).value.tasks;
  }

  /** Such a moment always exists. */
  lemma PassingProbeHasOrigin(backoff: nat, steps: seq<Step>, j: nat) returns (k: nat)
    requires Run(backoff, steps).Some? && Enabled(Run(backoff, steps).value, Settle(j))
    requires Run(backoff, steps).value.tasks[j].result.Kept?
    ensures k <= |steps| && Run(backoff, steps[..k]).Some? && Run(backoff, steps[..k]).value.state.Ready?
    ensures |Run(backoff, steps[..k]).value.clients| == |Run(backoff, steps).value.clients|
    ensures Next(backoff, Run(backoff, steps).value, Settle(j)).state == Run(backoff, steps[..k]).value.state
  {
    var s := Run(backoff, steps).value;
    var x := s.tasks[j];
    assert x in s.tasks && x == Settling(x.id, Kept(x.result.prior));
    k := ProbedWasReady(backoff, steps, x.result.prior);
    RunKeeps(backoff, steps);
    RunKeeps(backoff, steps[..k]);
  }

  predicate Calling(s: Slot) { exists k :: 0 <= k < |s.tasks| && s.tasks[k].Connecting? }

  /** The factory is never called inside the back-off window of a failure. */
  lemma NoCallInsideBackoff(backoff: nat, steps: seq<Step>, step: Step)
    requires Run(backoff, steps).Some? && Enabled(Run(backoff, steps).value, step)
    requires var s := Run(backoff, steps).value; !Calling(s) && Calling(Next(backoff, s, step))
    ensures var s := Run(backoff, steps).value;
            s.lastFailure.Some? ==> s.now >= s.lastFailure.value + backoff
  {
    RunKeeps(backoff, steps);
  }

  // ---------- what callers get ----------

  /** How callers and the clock move: a caller that looks is answered or goes on to
      `ensure`, there it is answered or waits for the one recovery under way, a read
      answers it, and a drop ends it; nobody else moves. */
  lemma CallersMove(backoff: nat, s: Slot, step: Step)
    requires Inv(backoff, s) && Enabled(s, step)
    ensures var t := Next(backoff, s, step);
            match step
            case Arrive => t.callers == s.callers + [Entering]
            case Look(c) =>
              t.callers == s.callers[c := t.callers[c]] && (t.callers[c].Returned? || t.callers[c] == Ensuring)
            case Ensure(c) =>
              && t.callers == s.callers[c := t.callers[c]]
              && (t.callers[c].Returned? || (t.state.Recovering? && t.callers[c] == Waiting(t.state.id)))
            case Read(c) => t.callers == s.callers[c := t.callers[c]] && t.callers[c].Returned?
            case Drop(c) => t.callers == s.callers[c := Gone]
            case Tick(d) => t.callers == s.callers && t.now == s.now + d
            case _ => t.callers == s.callers && t.now == s.now
  {
    hide Generations, Window, CallerSound;
  }

  /** A caller that gets its answer without waiting gets the ready client, which is
      not under suspicion, or the error of a failure whose window is not over. */
  lemma UnwaitedAnswer(backoff: nat, steps: seq<Step>, step: Step, c: nat, o: Outcome)
    requires Run(backoff, steps).Some? && Enabled(Run(backoff, steps).value, step)
    requires var s := Run(backoff, steps).value;
             && c < |s.callers| && s.callers[c] != Returned(None, o)
             && Next(backoff, s, step).callers[c] == Returned(None, o)
    ensures var s := Run(backoff, steps).value;
            match o
            case Got(client) => s.state.Ready? && s.state.client == client && !s.suspect
            case Err(e) => s.state.Failed? && s.state.error == e && s.now < s.state.at + backoff
  {
  }

  /** Only the settling of a recovery clears a suspicion. */
  lemma {:induction false} SuspicionStays(backoff: nat, steps: seq<Step>, p: nat)
    requires p < |steps| && Run(backoff, steps).Some? && steps[p] == RecordError
    requires forall q :: p < q < |steps| ==> !steps[q].Settle?
    ensures Run(backoff, steps).value.suspect
  {
    var n := |steps| - 1;
    if p < n {
      SuspicionStays(backoff, steps[..n], p);
    }
  }

  /** Hence after an error was recorded nobody is handed a client without waiting
      until a recovery has settled. */
  lemma NoClientUnderSuspicion(backoff: nat, steps: seq<Step>, p: nat, step: Step, c: nat, client: Client)
    requires p < |steps| && Run(backoff, steps).Some? && steps[p] == RecordError
    requires forall q :: p < q < |steps| ==> !steps[q].Settle?
    requires Enabled(Run(backoff, steps).value, step) && c < |Run(backoff, steps).value.callers|
    ensures var s := Run(backoff, steps).value;
            Next(backoff, s, step).callers[c] == Returned(None, Got(client)) ==> s.callers[c] == Returned(None, Got(client))
  {
    var s := Run(backoff, steps).value;
    SuspicionStays(backoff, steps, p);
    if Next(backoff, s, step).callers[c] == Returned(None, Got(client)) && s.callers[c] != Returned(None, Got(client)) {
      UnwaitedAnswer(backoff, steps, step, c, Got(client));
    }
  }

  /** The factory is called only where there is no client, outside the window, or
      after the probe of the suspected client failed. */
  lemma FactoryNeedsCause(backoff: nat, s: Slot, step: Step)
    requires Enabled(s, step) && !Calling(s) && Calling(Next(backoff, s, step))
    ensures (step.ProbeDone? && !step.ok) ||
            (step.Ensure? && (s.state.Empty? || (s.state.Failed? && s.now >= s.state.at + backoff)))
  {
    var t := Next(backoff, s, step);
    var k :| 0 <= k < |t.tasks| && t.tasks[k].Connecting?;
    NewTask(backoff, s, step, t.tasks[k]);
  }

  /** The recovery on channel `id` has come to the answer `o`, or has sent it. */
  ghost predicate Answered(s: Slot, id: nat, o: Outcome) {
    if id in s.outcomes then s.outcomes[id] == o
    else |s.tasks| == 1 && s.tasks[0].id == id && s.tasks[0].Settling? &&
         match s.tasks[0].result
         case Kept(prior) => o == Got(prior.client)
         case Fresh(client) => o == Got(client)
         case Broke(e) => o == Err(e)
  }

  lemma AnsweredStays(backoff: nat, s: Slot, step: Step, id: nat, o: Outcome)
    requires Inv(backoff, s) && Enabled(s, step) && Answered(s, id, o)
    ensures Answered(Next(backoff, s, step), id, o)
  {
    hide Generations, Window, CallerSound;
  }

  /** The factory call, or the passing probe, of task `k` ends with `o`. */
  predicate ComesTo(s: Slot, step: Step, k: nat, o: Outcome) {
    && k < |s.tasks|
    && (step == FactoryDone(k, o) ||
        (step == ProbeDone(k, true) && s.tasks[k].Probing? && o == Got(s.tasks[k].prior.client)))
  }

  lemma AnswerComes(backoff: nat, s: Slot, step: Step, k: nat, o: Outcome)
    requires Inv(backoff, s) && Enabled(s, step) && ComesTo(s, step, k, o)
    ensures Answered(Next(backoff, s, step), s.tasks[k].id, o)
  {
    hide Generations, Window, CallerSound;
    assert s.state.Recovering? && s.tasks[k].id !in s.outcomes;
  }

  /** Waiters are told what the recovery came to: the client or error of the factory
      call, or the probed client if the probe passed. */
  lemma {:induction false} AnswerIsResult(backoff: nat, steps: seq<Step>, p: nat, k: nat, o: Outcome)
    requires p < |steps| && Run(backoff, steps).Some? && Run(backoff, steps[..p]).Some?
    requires ComesTo(Run(backoff, steps[..p]).value, steps[p], k, o)
    ensures Answered(Run(backoff, steps).value, Run(backoff, steps[..p]).value.tasks[k].id, o)
  {
    hide Next, Enabled, Answered, Inv;
    var n := |steps| - 1;
    RunKeeps(backoff, steps[..n]);
    if p == n {
      AnswerComes(backoff, Run(backoff, steps[..p]).value, steps[p], k, o);
    } else {
      assert steps[..n][..p] == steps[..p];
      AnswerIsResult(backoff, steps[..n], p, k, o);
      AnsweredStays(backoff, Run(backoff, steps[..n]).value, steps[n], Run(backoff, steps[..p]).value.tasks[k].id, o);
    }
  }

  /** When a recovery settles, the slot is left as its answer says: ready with the
      client sent and no longer suspected, or without a client, and failed from now
      on if there is a back-off. */
  lemma SettledAsAnswered(backoff: nat, steps: seq<Step>, k: nat)
    requires Run(backoff, steps).Some? && Enabled(Run(backoff, steps).value, Settle(k))
    ensures var s := Run(backoff, steps).value;
            var t := Next(backoff, s, Settle(k));
            && s.tasks[k].id in t.outcomes
            && match t.outcomes[s.tasks[k].id]
               case Got(client) => t.state.Ready? && t.state.client == client && !t.suspect && t.clients != [] &&
                                   t.clients[|t.clients| - 1] == client
               case Err(e) => t.state == (if backoff == 0 then Empty else Failed(s.now, e)) && t.clients == s.clients
  {
    RunKeeps(backoff, steps);
    var s := Run(backoff, steps).value;
    assert s.tasks[k] in s.tasks;
  }

  /** There is no client of the first `n`, nor can a probe bring one back. */
  ghost predicate Renewed(s: Slot, n: nat) {
    |s.clients| > n ||
    (|s.clients| == n && !s.state.Ready? && forall x :: x in s.tasks ==> !x.Probing? && !(x.Settling? && x.result.Kept?))
  }

  lemma RenewedStays(backoff: nat, s: Slot, step: Step, n: nat)
    requires Inv(backoff, s) && Enabled(s, step) && Renewed(s, n)
    ensures Renewed(Next(backoff, s, step), n)
  {
    hide Window, CallerSound;
    var t := Next(backoff, s, step);
    assert step.ProbeDone? ==> s.tasks[step.k] in s.tasks;
    forall x | x in t.tasks && x !in s.tasks && |s.clients| == n
      ensures !x.Probing? && !(x.Settling? && x.result.Kept?)
    {
      NewTask(backoff, s, step, x);
    }
    if step.Settle? {
      assert s.tasks[step.k] in s.tasks;
    }
  }

  /** An invalidated client never comes back: the next ready one is a new one of a
      later generation. */
  lemma {:induction false} InvalidateForcesNew(backoff: nat, steps: seq<Step>, p: nat)
    requires p < |steps| && Run(backoff, steps).Some? && Run(backoff, steps[..p]).Some?
    requires steps[p] == Invalidate && Run(backoff, steps[..p]).value.state.Ready?
    ensures Renewed(Run(backoff, steps).value, |Run(backoff, steps[..p]).value.clients|)
    ensures var s, t := Run(backoff, steps[..p]).value, Run(backoff, steps).value;
            t.state.Ready? ==> t.state.generation > s.state.generation
  {
    var n := |steps| - 1;
    RunKeeps(backoff, steps[..n]);
    RunKeeps(backoff, steps);
    RunKeeps(backoff, steps[..p]);
    if p == n {
      assert steps[..p] == steps[..n];
    } else {
      hide Next, Enabled;
      assert steps[..n][..p] == steps[..p];
      InvalidateForcesNew(backoff, steps[..n], p);
      RenewedStays(backoff, Run(backoff, steps[..n]).value, steps[n], |Run(backoff, steps[..p]).value.clients|);
    }
  }
}
