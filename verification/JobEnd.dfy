/** How a directory job ends: the pending counter, the `scan_done` flag, the
    terminal check made by the coordinator and by every worker, and `cancel`.
    Each load, counter update or lock section is one step of one agent. */
module JobEnd {
  import opened Options
  import opened Sums

  datatype JobState = Scanning | Transferring | Finalizing | Completed | Failed | Canceled

  predicate Terminal(s: JobState) { s == Completed || s == Failed || s == Canceled }

  /** `refresh_phase`, then `check_terminal` read by read; `Emit` is after the
      state was set and before the callback fires. */
  datatype Check = Refresh | SeeScan | SeePending | SeeActive | Decide | Emit

  /** `Counting`: a task was sent and the pending increment has not landed. */
  datatype CoordPc = Placing | Counting | Leaving | CoordCheck(c: Check) | CoordEnded

  /** `Reporting`: the attempt guard is gone, the outcome is not counted yet.
      `Settled`: counted, but pending not decremented yet. */
  datatype WorkerPc =
    | Waiting | Holding | Running | Reporting(ok: bool) | Settled
    | WorkerCheck(c: Check, leaving: bool) | Exited

  /** `cancel()`: not started, state set, flag set, or done. */
  datatype CancelPc = Ready | MustFlag | MustEmit | CancelDone

  /** `completed`, `failed`, `skipped` and `canceled` count files only; the scan's
      own failures and skips, kept in the same source counters, are left to `Scan`.
      `lost` counts tasks taken and dropped by a cancelled worker. */
  datatype Job = Job(
    state: JobState, error: bool, scanDone: bool, cancel: bool,
    discovered: nat, unplaced: nat, queued: nat, pending: int, active: int,
    completed: nat, failed: nat, skipped: nat, canceled: nat, lost: nat,
    emitted: nat, coord: CoordPc, workers: seq<WorkerPc>, cancels: seq<CancelPc>)

  const WRAP: int := 0x1_0000_0000_0000_0000

  /** A `u64` counter that reads zero. */
  predicate ReadsZero(x: int) { x % WRAP == 0 }

  datatype Step =
    | Discover(n: nat) | TrySend | CountPending | Leave | StoreDone | CoordStep
    | Take(w: nat) | Skip(w: nat) | ResolveFail(w: nat) | Begin(w: nat) | Again(w: nat)
    | Finish(w: nat, ok: bool) | Count(w: nat) | CancelRunning(w: nat) | CancelHolding(w: nat)
    | DropTask(w: nat) | Decrement(w: nat) | LeaveLoop(w: nat) | WorkerStep(w: nat)
    | CancelLock(k: nat) | CancelFlag(k: nat) | CancelEmit(k: nat)

  function Start(workers: nat, cancels: nat, error: bool): Job {
    Job(Scanning, error, false, false, 0, 0, 0, 0, 0, 0, 0, 0, 0, 0, 0, Placing,
        seq(workers, _ => Waiting), seq(cancels, _ => Ready))
  }

  /** The coordinator has stored `scan_done`. */
  predicate Closed(j: Job) { j.coord != Placing && j.coord != Counting && j.coord != Leaving }

  /** The coordinator has dropped its end of the ready queue, just before that. */
  predicate Drained(j: Job) { j.coord != Placing && j.coord != Counting }

  predicate Enabled(j: Job, step: Step) {
    match step
    case Discover(n) => j.coord == Placing && j.discovered + n < WRAP
    case TrySend => j.coord == Placing && j.unplaced > 0
    case CountPending => j.coord == Counting
    case Leave => j.coord == Placing && (j.unplaced == 0 || j.cancel)
    case StoreDone => j.coord == Leaving
    case CoordStep => j.coord.CoordCheck?
    case Take(w) => w < |j.workers| && j.workers[w] == Waiting && j.queued > 0
    case Skip(w) => w < |j.workers| && j.workers[w] == Holding
    case ResolveFail(w) => w < |j.workers| && j.workers[w] == Holding
    case Begin(w) => w < |j.workers| && j.workers[w] == Holding
    case Again(w) => w < |j.workers| && j.workers[w] == Running
    case Finish(w, _) => w < |j.workers| && j.workers[w] == Running
    case Count(w) => w < |j.workers| && j.workers[w].Reporting?
    case CancelRunning(w) => w < |j.workers| && j.workers[w] == Running && j.cancel
    case CancelHolding(w) => w < |j.workers| && j.workers[w] == Holding && j.cancel
    case DropTask(w) => w < |j.workers| && j.workers[w] == Holding && j.cancel
    case Decrement(w) => w < |j.workers| && j.workers[w] == Settled
    case LeaveLoop(w) => w < |j.workers| && j.workers[w] == Waiting && (j.cancel || (Drained(j) && j.queued == 0))
    case WorkerStep(w) => w < |j.workers| && j.workers[w].WorkerCheck?
    case CancelLock(k) => k < |j.cancels| && j.cancels[k] == Ready
    case CancelFlag(k) => k < |j.cancels| && j.cancels[k] == MustFlag
    case CancelEmit(k) => k < |j.cancels| && j.cancels[k] == MustEmit
  }

  /** The lock section of `refresh_phase`. */
  function Phase(j: Job): JobState {
    if Terminal(j.state) then j.state
    else if !j.scanDone then Scanning
    else if ReadsZero(j.pending) && ReadsZero(j.active) then Finalizing
    else Transferring
  }

  /** One step of the terminal check; `None` when the check is over. */
  function CheckStep(j: Job, c: Check): (Job, Option<Check>) {
    match c
    case Refresh => (j.(state := Phase(j)), Some(SeeScan))
    case SeeScan => (j, if j.scanDone then Some(SeePending) else None)
    case SeePending => (j, if ReadsZero(j.pending) then Some(SeeActive) else None)
    case SeeActive => (j, if ReadsZero(j.active) then Some(Decide) else None)
    case Decide =>
      if Terminal(j.state) then (j, None)
      else (j.(state := if j.error then Failed else Completed), Some(Emit))
    case Emit => (j.(emitted := j.emitted + 1), None)
  }

  function Put(j: Job, w: nat, pc: WorkerPc): Job
    requires w < |j.workers|
  {
    j.(workers := j.workers[w := pc])
  }

  function Next(j: Job, step: Step): Job
    requires Enabled(j, step)
  {
    match step
    case Discover(n) => j.(discovered := j.discovered + n, unplaced := j.unplaced + n)
    case TrySend => j.(unplaced := j.unplaced - 1, queued := j.queued + 1, coord := Counting)
    case CountPending => j.(pending := j.pending + 1, coord := Placing)
    case Leave => j.(coord := Leaving)
    case StoreDone => j.(scanDone := true, coord := CoordCheck(Refresh))
    case CoordStep =>
      var (t, c) := CheckStep(j, j.coord.c);
      t.(coord := if c.Some? then CoordCheck(c.value) else CoordEnded)
    case Take(w) => Put(j.(queued := j.queued - 1), w, Holding)
    case Skip(w) => Put(j.(skipped := j.skipped + 1), w, Settled)
    case ResolveFail(w) => Put(j.(failed := j.failed + 1), w, Settled)
    case Begin(w) => Put(j.(active := j.active + 1), w, Running)
    case Again(w) => Put(j.(active := j.active - 1), w, Holding)
    case Finish(w, ok) => Put(j.(active := j.active - 1), w, Reporting(ok))
    case Count(w) =>
      Put(if j.workers[w].ok then j.(completed := j.completed + 1) else j.(failed := j.failed + 1), w, Settled)
    case CancelRunning(w) => Put(j.(active := j.active - 1, canceled := j.canceled + 1), w, Settled)
    case CancelHolding(w) => Put(j.(canceled := j.canceled + 1), w, Settled)
    case DropTask(w) => Put(j.(lost := j.lost + 1), w, WorkerCheck(SeeScan, true))
    case Decrement(w) => Put(j.(pending := j.pending - 1), w, WorkerCheck(Refresh, false))
    case LeaveLoop(w) => Put(j, w, WorkerCheck(SeeScan, true))
    case WorkerStep(w) =>
      var (t, c) := CheckStep(j, j.workers[w].c);
      var leaving := j.workers[w].leaving;
      Put(t, w, if c.Some? then WorkerCheck(c.value, leaving) else if leaving then Exited else Waiting)
    case CancelLock(k) =>
      if Terminal(j.state) then j.(cancels := j.cancels[k := CancelDone])
      else j.(state := Canceled, cancels := j.cancels[k := MustFlag])
    case CancelFlag(k) => j.(cancel := true, cancels := j.cancels[k := MustEmit])
    case CancelEmit(k) => j.(emitted := j.emitted + 1, cancels := j.cancels[k := CancelDone])
  }

  function Run(start: Job, steps: seq<Step>): Option<Job> {
    if steps == [] then Some(start)
    else
      var k := |steps| - 1;
      var before := Run(start, steps[..k]);
      if before.Some? && Enabled(before.value, steps[k]) then Some(Next(before.value, steps[k])) else None
  }

  // ---------- invariant ----------

  /** Tasks in hand and not counted; tasks not yet taken off pending; attempts
      in progress; checks that may still set the state; callbacks due. */
  function InHand(w: WorkerPc): int { if w == Holding || w == Running || w.Reporting? then 1 else 0 }
  function Owed(w: WorkerPc): int { if w == Settled then 1 else InHand(w) }
  function Active(w: WorkerPc): int { if w == Running then 1 else 0 }
  function Checks(c: Check): int { if c == Emit then 0 else 1 }
  function Checking(w: WorkerPc): int { if w.WorkerCheck? then Checks(w.c) else 0 }
  function Emitting(w: WorkerPc): int { if w.WorkerCheck? && w.c == Emit then 1 else 0 }
  function Cancelling(k: CancelPc): int { if k == MustFlag || k == MustEmit then 1 else 0 }
  function CoordChecks(c: CoordPc): int { if c.CoordCheck? then Checks(c.c) else 0 }
  function CoordEmits(c: CoordPc): int { if c == CoordCheck(Emit) then 1 else 0 }
  function Counted(j: Job): nat { j.completed + j.failed + j.skipped }

  ghost predicate PastPending(c: Check) { c == SeeActive || c == Decide }
  ghost predicate PastScan(c: Check) { c == SeePending || PastPending(c) }

  ghost predicate Known(j: Job, c: Check) {
    && (PastScan(c) ==> j.scanDone)
    && (PastPending(c) ==> j.pending == 0)
    && (c == Emit ==> Terminal(j.state))
  }

  /** Where every discovered file is, and what the counters say about it. */
  ghost predicate Books(j: Job) {
    && j.discovered < WRAP
    && j.discovered == j.unplaced + j.queued + Sum(j.workers, InHand) + Counted(j) + j.canceled + j.lost
    && j.pending == j.queued + Sum(j.workers, Owed) + j.lost - (if j.coord == Counting then 1 else 0)
    && j.active == Sum(j.workers, Active)
    && Sum(j.workers, Owed) - Sum(j.workers, InHand) <= Counted(j) + j.canceled
  }

  ghost predicate Order(j: Job) {
    && (j.scanDone <==> Closed(j))
    && (j.coord == Leaving || j.scanDone ==> j.unplaced == 0 || j.cancel)
    && (j.cancel ==> j.state == Canceled)
    && (forall k :: k in j.cancels && Cancelling(k) == 1 ==> j.state == Canceled)
    && (j.canceled + j.lost > 0 ==> j.cancel)
    && (forall w :: w in j.workers && w.WorkerCheck? ==> Known(j, w.c))
    && (j.coord.CoordCheck? ==> Known(j, j.coord.c))
    && (forall w :: w in j.workers && (w == Exited || (w.WorkerCheck? && w.leaving)) ==>
                      j.cancel || (Drained(j) && j.queued == 0))
  }

  /** The job is over in the books of a completed or failed job. */
  ghost predicate Outcome(j: Job) {
    && (j.state == Completed || j.state == Failed ==>
          j.scanDone && j.pending == 0 && !j.cancel && j.discovered == Counted(j))
    && j.emitted + Sum(j.workers, Emitting) + Sum(j.cancels, Cancelling) + CoordEmits(j.coord) ==
       (if Terminal(j.state) then 1 else 0)
    && (j.scanDone && j.pending == 0 && !Terminal(j.state) ==>
          Sum(j.workers, Checking) + CoordChecks(j.coord) > 0)
  }

  ghost predicate Inv(j: Job) {
    Books(j) && Order(j) && Outcome(j)
  }

  lemma WorkerSums(ws: seq<WorkerPc>)
    ensures 0 <= Sum(ws, Active) <= Sum(ws, InHand) <= Sum(ws, Owed)
    ensures 0 <= Sum(ws, Emitting) && 0 <= Sum(ws, Checking)
  {
    if ws != [] {
      WorkerSums(ws[1..]);
    }
  }

  lemma PutSums(ws: seq<WorkerPc>, w: nat, pc: WorkerPc)
    requires w < |ws|
    ensures Sum(ws[w := pc], InHand) == Sum(ws, InHand) - InHand(ws[w]) + InHand(pc)
    ensures Sum(ws[w := pc], Owed) == Sum(ws, Owed) - Owed(ws[w]) + Owed(pc)
    ensures Sum(ws[w := pc], Active) == Sum(ws, Active) - Active(ws[w]) + Active(pc)
    ensures Sum(ws[w := pc], Checking) == Sum(ws, Checking) - Checking(ws[w]) + Checking(pc)
    ensures Sum(ws[w := pc], Emitting) == Sum(ws, Emitting) - Emitting(ws[w]) + Emitting(pc)
    ensures 0 <= Sum(ws, Active) <= Sum(ws, InHand) <= Sum(ws, Owed)
    ensures 0 <= Sum(ws[w := pc], Active) <= Sum(ws[w := pc], InHand) <= Sum(ws[w := pc], Owed)
    ensures 0 <= Sum(ws, Checking) && 0 <= Sum(ws[w := pc], Checking)
    ensures 0 <= Sum(ws[w := pc], Emitting)
  {
    SumUpdate(ws, w, pc, InHand);
    SumUpdate(ws, w, pc, Owed);
    SumUpdate(ws, w, pc, Active);
    SumUpdate(ws, w, pc, Checking);
    SumUpdate(ws, w, pc, Emitting);
    WorkerSums(ws);
    WorkerSums(ws[w := pc]);
  }

  /** Workers' own steps other than the terminal check. */
  predicate WorkerMove(step: Step) {
    match step
    case Take(_) => true
    case Skip(_) => true
    case ResolveFail(_) => true
    case Begin(_) => true
    case Again(_) => true
    case Finish(_, _) => true
    case Count(_) => true
    case CancelRunning(_) => true
    case CancelHolding(_) => true
    case DropTask(_) => true
    case Decrement(_) => true
    case LeaveLoop(_) => true
    case _ => false
  }

  lemma TaskMoveBooks(j: Job, step: Step)
    requires Books(j) && Enabled(j, step) && (step.Take? || step.Skip? || step.ResolveFail? || step.Count?)
    ensures Books(Next(j, step))
  {
    hide Sum, ReadsZero;
    var pc := Next(j, step).workers[step.w];
    assert Next(j, step).workers == j.workers[step.w := pc];
    PutSums(j.workers, step.w, pc);
  }

  lemma AttemptMoveBooks(j: Job, step: Step)
    requires Books(j) && Enabled(j, step) && (step.Begin? || step.Again? || step.Finish?)
    ensures Books(Next(j, step))
  {
    hide Sum, ReadsZero;
    var pc := Next(j, step).workers[step.w];
    assert Next(j, step).workers == j.workers[step.w := pc];
    PutSums(j.workers, step.w, pc);
  }

  lemma LeaveMoveBooks(j: Job, step: Step)
    requires Books(j) && Enabled(j, step)
    requires step.CancelRunning? || step.CancelHolding? || step.DropTask? || step.Decrement? || step.LeaveLoop?
    ensures Books(Next(j, step))
  {
    hide Sum, ReadsZero;
    var pc := Next(j, step).workers[step.w];
    assert Next(j, step).workers == j.workers[step.w := pc];
    PutSums(j.workers, step.w, pc);
  }

  lemma WorkerMoveBooks(j: Job, step: Step)
    requires Books(j) && Enabled(j, step) && WorkerMove(step)
    ensures Books(Next(j, step))
  {
    hide Books, Next, Enabled;
    if step.CancelRunning? || step.CancelHolding? || step.DropTask? || step.Decrement? || step.LeaveLoop? {
      LeaveMoveBooks(j, step);
    } else if step.Begin? || step.Again? || step.Finish? {
      AttemptMoveBooks(j, step);
    } else {
      TaskMoveBooks(j, step);
    }
  }

  /** A worker moving to `pc` leaves the order as it is if it drops a task only
      when cancelled, leaves only when there is no more work, and does not make
      pending non-zero again. */
  lemma OrderPut(j: Job, t: Job, w: nat, pc: WorkerPc)
    requires Order(j) && w < |j.workers| && t.workers == j.workers[w := pc]
    requires t == j.(queued := t.queued, pending := t.pending, active := t.active, completed := t.completed,
                     failed := t.failed, skipped := t.skipped, canceled := t.canceled, lost := t.lost,
                     workers := t.workers)
    requires t.queued <= j.queued && (j.scanDone && j.pending == 0 ==> t.pending == 0)
    requires t.canceled + t.lost > 0 ==> t.cancel
    requires pc.WorkerCheck? ==> Known(t, pc.c)
    requires pc == Exited || (pc.WorkerCheck? && pc.leaving) ==> t.cancel || (Drained(t) && t.queued == 0)
    ensures Order(t)
  {
    assert forall x :: x in t.workers ==> x in j.workers || x == pc;
  }

  lemma TaskMoveOrder(j: Job, step: Step)
    requires Books(j) && Order(j) && Enabled(j, step)
    requires step.Take? || step.Skip? || step.ResolveFail? || step.Begin? || step.Again? || step.Finish? || step.Count?
    ensures Order(Next(j, step))
  {
    hide Sum, ReadsZero, Phase;
    var t := Next(j, step);
    if j.scanDone && j.pending == 0 {
      WorkerMoveNeedsTask(j, step);
    }
    var pc := t.workers[step.w];
    assert t.workers == j.workers[step.w := pc];
    assert j.canceled + j.lost > 0 ==> j.cancel;
    hide Books, Order;
    OrderPut(j, t, step.w, pc);
  }

  lemma CancelMoveOrder(j: Job, step: Step)
    requires Books(j) && Order(j) && Enabled(j, step)
    requires step.CancelRunning? || step.CancelHolding? || step.DropTask?
    ensures Order(Next(j, step))
  {
    hide Sum, ReadsZero, Phase;
    var t := Next(j, step);
    if j.scanDone && j.pending == 0 {
      WorkerMoveNeedsTask(j, step);
    }
    var pc := t.workers[step.w];
    assert t.workers == j.workers[step.w := pc];
    assert j.canceled + j.lost > 0 ==> j.cancel;
    hide Books, Order;
    OrderPut(j, t, step.w, pc);
  }

  lemma LeaveMoveOrder(j: Job, step: Step)
    requires Books(j) && Order(j) && Enabled(j, step) && (step.Decrement? || step.LeaveLoop?)
    ensures Order(Next(j, step))
  {
    hide Sum, ReadsZero, Phase;
    var t := Next(j, step);
    if j.scanDone && j.pending == 0 {
      WorkerMoveNeedsTask(j, step);
    }
    var pc := t.workers[step.w];
    assert t.workers == j.workers[step.w := pc];
    assert j.canceled + j.lost > 0 ==> j.cancel;
    hide Books, Order;
    OrderPut(j, t, step.w, pc);
  }

  lemma WorkerMoveOrder(j: Job, step: Step)
    requires Books(j) && Order(j) && Enabled(j, step) && WorkerMove(step)
    ensures Order(Next(j, step))
  {
    hide Books, Order, Next, Enabled;
    if step.Decrement? || step.LeaveLoop? {
      LeaveMoveOrder(j, step);
    } else if step.CancelRunning? || step.CancelHolding? || step.DropTask? {
      CancelMoveOrder(j, step);
    } else {
      TaskMoveOrder(j, step);
    }
  }

  /** Once pending is zero after the scan, only leaving the loop is possible. */
  lemma WorkerMoveNeedsTask(j: Job, step: Step)
    requires Books(j) && Enabled(j, step) && WorkerMove(step) && j.coord != Counting && j.pending == 0
    ensures step.LeaveLoop?
  {
    WorkerSums(j.workers);
    SumAtLeastOwed(j.workers, step.w);
  }

  lemma SumAtLeastOwed(ws: seq<WorkerPc>, w: nat)
    requires w < |ws|
    ensures Sum(ws, Owed) >= Owed(ws[w])
  {
    SumAtLeast(ws, w, Owed);
  }

  lemma WorkerMoveOutcome(j: Job, step: Step)
    requires Inv(j) && Enabled(j, step) && WorkerMove(step)
    ensures Outcome(Next(j, step))
  {
    hide Sum, ReadsZero, Books, Known;
    var pc := Next(j, step).workers[step.w];
    assert Next(j, step).workers == j.workers[step.w := pc];
    PutSums(j.workers, step.w, pc);
    if j.coord != Counting && j.pending == 0 {
      WorkerMoveNeedsTask(j, step);
    }
  }

  lemma CoordMoveKeeps(j: Job, step: Step)
    requires Inv(j) && Enabled(j, step)
    requires step.Discover? || step.TrySend? || step.CountPending? || step.Leave? || step.StoreDone?
    ensures Inv(Next(j, step))
  {
    WorkerSums(j.workers);
  }

  /** Reading zero really means zero, because the counters stay small. */
  lemma ZeroIsZero(j: Job)
    requires Books(j)
    ensures ReadsZero(j.pending) <==> j.pending == 0
    ensures j.coord != Counting && j.pending == 0 ==>
              j.queued == 0 && Sum(j.workers, Owed) == 0 && j.active == 0 && j.lost == 0
  {
    WorkerSums(j.workers);
    OwedBound(j);
  }

  lemma {:induction false} OwedBound(j: Job)
    requires Books(j)
    ensures -1 <= j.pending < WRAP
  {
    WorkerSums(j.workers);
  }

  lemma CheckStepFrame(j: Job, c: Check)
    ensures var (t, _) := CheckStep(j, c); t == j.(state := t.state, emitted := t.emitted)
  {
  }

  /** One step of the terminal check by any agent: what it changes is the state
      or the number of callbacks, and it respects what is known. */
  lemma CheckStepSound(j: Job, c: Check)
    requires Inv(j) && Known(j, c)
    ensures var (t, n) := CheckStep(j, c);
            && t == j.(state := t.state, emitted := t.emitted)
            && (Terminal(j.state) ==> t.state == j.state)
            && (n.Some? ==> Known(t, n.value))
            && (t.state == Completed || t.state == Failed ==>
                  j.scanDone && j.pending == 0 && !j.cancel && j.discovered == Counted(j))
            && t.emitted + (if n == Some(Emit) then 1 else 0) + (if Terminal(j.state) then 1 else 0) ==
               j.emitted + (if c == Emit then 1 else 0) + (if Terminal(t.state) then 1 else 0)
            && (t.state == Canceled ==> j.state == Canceled)
            && (t.state != j.state ==> (t.state == Completed ==> !j.error) && (t.state == Failed ==> j.error))
            && (c != Emit && n == None && j.scanDone && j.pending == 0 ==> Terminal(t.state))
  {
    ZeroIsZero(j);
    WorkerSums(j.workers);
  }

  lemma WorkerStepBooks(j: Job, w: nat)
    requires Inv(j) && Enabled(j, WorkerStep(w))
    ensures Books(Next(j, WorkerStep(w)))
  {
    hide Sum, ReadsZero, CheckStep, Order, Outcome;
    CheckStepFrame(j, j.workers[w].c);
    var pc := Next(j, WorkerStep(w)).workers[w];
    assert Next(j, WorkerStep(w)).workers == j.workers[w := pc];
    PutSums(j.workers, w, pc);
  }

  lemma WorkerStepOrder(j: Job, w: nat)
    requires Inv(j) && Enabled(j, WorkerStep(w))
    ensures Order(Next(j, WorkerStep(w)))
  {
    hide Sum, ReadsZero, CheckStep, Books, Outcome;
    assert j.workers[w] in j.workers;
    CheckStepSound(j, j.workers[w].c);
    var t := Next(j, WorkerStep(w));
    assert forall x :: x in t.workers ==> x in j.workers || x == t.workers[w];
  }

  lemma WorkerStepOutcome(j: Job, w: nat)
    requires Inv(j) && Enabled(j, WorkerStep(w))
    ensures Outcome(Next(j, WorkerStep(w)))
  {
    hide Sum, ReadsZero, CheckStep, Books;
    assert j.workers[w] in j.workers;
    CheckStepSound(j, j.workers[w].c);
    var pc := Next(j, WorkerStep(w)).workers[w];
    assert Next(j, WorkerStep(w)).workers == j.workers[w := pc];
    PutSums(j.workers, w, pc);
  }

  lemma CoordStepKeeps(j: Job)
    requires Inv(j) && Enabled(j, CoordStep)
    ensures Inv(Next(j, CoordStep))
  {
    hide Sum, ReadsZero, CheckStep;
    CheckStepSound(j, j.coord.c);
    WorkerSums(j.workers);
  }

  lemma CancelLockKeeps(j: Job, k: nat)
    requires Inv(j) && Enabled(j, CancelLock(k))
    ensures Inv(Next(j, CancelLock(k)))
  {
    hide Sum, ReadsZero;
    var t := Next(j, CancelLock(k));
    SumUpdate(j.cancels, k, t.cancels[k], Cancelling);
    assert forall x :: x in t.cancels ==> x in j.cancels || x == t.cancels[k];
    if !Terminal(j.state) {
      NoneCancelling(j);
    }
  }

  lemma CancelRestKeeps(j: Job, step: Step)
    requires Inv(j) && Enabled(j, step) && (step.CancelFlag? || step.CancelEmit?)
    ensures Inv(Next(j, step))
  {
    hide Sum, ReadsZero;
    var t := Next(j, step);
    SumUpdate(j.cancels, step.k, t.cancels[step.k], Cancelling);
    assert j.cancels[step.k] in j.cancels;
    assert t.cancels == j.cancels[step.k := t.cancels[step.k]];
    assert forall x :: x in t.cancels ==> x in j.cancels || x == t.cancels[step.k];
  }

  lemma NoneCancelling(j: Job)
    requires Inv(j) && !Terminal(j.state)
    ensures forall k :: k in j.cancels ==> Cancelling(k) == 0
  {
  }

  lemma {:induction false} InvAlways(start: Job, steps: seq<Step>)
    requires Inv(start) && Run(start, steps).Some?
    ensures Inv(Run(start, steps).value)
  {
    hide Inv, Next, Enabled;
    if steps != [] {
      var k := |steps| - 1;
      InvAlways(start, steps[..k]);
      StepKeeps(Run(start, steps[..k]).value, steps[k]);
    }
  }

  lemma StepKeeps(j: Job, step: Step)
    requires Inv(j) && Enabled(j, step)
    ensures Inv(Next(j, step))
  {
    hide Books, Order, Outcome, Next, Enabled;
    if WorkerMove(step) {
      WorkerMoveBooks(j, step);
      WorkerMoveOrder(j, step);
      WorkerMoveOutcome(j, step);
    } else if step.WorkerStep? {
      WorkerStepBooks(j, step.w);
      WorkerStepOrder(j, step.w);
      WorkerStepOutcome(j, step.w);
    } else if step.CoordStep? {
      CoordStepKeeps(j);
    } else if step.CancelLock? {
      CancelLockKeeps(j, step.k);
    } else if step.CancelFlag? || step.CancelEmit? {
      CancelRestKeeps(j, step);
    } else {
      CoordMoveKeeps(j, step);
    }
  }

  lemma StartInv(workers: nat, cancels: nat, error: bool)
    ensures Inv(Start(workers, cancels, error))
  {
    var j := Start(workers, cancels, error);
    SumZero(j.workers, InHand);
    SumZero(j.workers, Owed);
    SumZero(j.workers, Active);
    SumZero(j.workers, Emitting);
    SumZero(j.cancels, Cancelling);
  }

  // ---------- results ----------

  /** A job becomes Completed (or Failed) only when every discovered file has
      been completed, failed or skipped by policy, in every interleaving,
      including a worker finishing a task before its increment lands. */
  lemma CompletedMeansAllAccounted(workers: nat, cancels: nat, error: bool, steps: seq<Step>)
    requires Run(Start(workers, cancels, error), steps).Some?
    ensures var j := Run(Start(workers, cancels, error), steps).value;
            j.state == Completed || j.state == Failed ==>
              && j.discovered == j.completed + j.failed + j.skipped && j.unplaced == 0 && j.queued == 0
              && j.state == if error then Failed else Completed
  {
    StartInv(workers, cancels, error);
    StateMeans(workers, cancels, error, steps);
    InvAlways(Start(workers, cancels, error), steps);
    WorkerSums(Run(Start(workers, cancels, error), steps).value.workers);
  }

  /** Terminal states are absorbing. */
  lemma TerminalIsAbsorbing(j: Job, step: Step)
    requires Enabled(j, step) && Terminal(j.state)
    ensures Next(j, step).state == j.state
  {
  }

  /** The job callback never fires twice, fires only for a terminal job, and has
      fired once no agent still owes it. */
  lemma OneTerminalEvent(workers: nat, cancels: nat, error: bool, steps: seq<Step>)
    requires Run(Start(workers, cancels, error), steps).Some?
    ensures var j := Run(Start(workers, cancels, error), steps).value;
            && j.emitted <= 1
            && (j.emitted == 1 ==> Terminal(j.state))
            && (Terminal(j.state) && Sum(j.workers, Emitting) + Sum(j.cancels, Cancelling) + CoordEmits(j.coord) == 0 ==>
                  j.emitted == 1)
  {
    StartInv(workers, cancels, error);
    InvAlways(Start(workers, cancels, error), steps);
    var j := Run(Start(workers, cancels, error), steps).value;
    WorkerSums(j.workers);
    SumNonNegative(j.cancels, Cancelling);
  }

  /** When the coordinator and all workers have ended, the job is terminal: the
      race between `scan_done` and the last decrement is always decided. */
  lemma EndedJobIsTerminal(workers: nat, cancels: nat, error: bool, steps: seq<Step>)
    requires workers > 0 && Run(Start(workers, cancels, error), steps).Some?
    requires var j := Run(Start(workers, cancels, error), steps).value;
             j.coord == CoordEnded && forall w :: w in j.workers ==> w == Exited
    ensures Terminal(Run(Start(workers, cancels, error), steps).value.state)
  {
    StartInv(workers, cancels, error);
    InvAlways(Start(workers, cancels, error), steps);
    WorkersStay(Start(workers, cancels, error), steps);
    var j := Run(Start(workers, cancels, error), steps).value;
    SumZero(j.workers, Owed);
    SumZero(j.workers, Checking);
    assert j.workers[0] in j.workers;
  }

  lemma StepKeepsWorkers(j: Job, step: Step)
    requires Enabled(j, step)
    ensures |Next(j, step).workers| == |j.workers|
  {
    hide CheckStep, Terminal;
    if step.WorkerStep? {
      CheckStepFrame(j, j.workers[step.w].c);
    } else if step.CoordStep? {
      CheckStepFrame(j, j.coord.c);
    }
  }

  lemma {:induction false} WorkersStay(start: Job, steps: seq<Step>)
    requires Run(start, steps).Some?
    ensures |Run(start, steps).value.workers| == |start.workers|
  {
    hide Next, Enabled;
    if steps != [] {
      var k := |steps| - 1;
      WorkersStay(start, steps[..k]);
      StepKeepsWorkers(Run(start, steps[..k]).value, steps[k]);
    }
  }

  // ---------- which state, and which counter ----------

  /** What the state says besides being terminal or not. */
  ghost predicate Named(j: Job) {
    && (j.state == Completed ==> !j.error)
    && (j.state == Failed ==> j.error)
    && (j.state == Canceled ==> j.cancels != [])
    && (j.state == Transferring || j.state == Finalizing ==> j.scanDone)
    && (j.state == Finalizing ==> j.pending == 0)
  }

  /** No step changes the error or the number of callers of `cancel`. */
  ghost predicate SameJob(j: Job, t: Job) {
    t.error == j.error && |t.cancels| == |j.cancels|
  }

  lemma CheckNamed(j: Job, c: Check)
    requires Inv(j) && Known(j, c) && Named(j)
    ensures Named(CheckStep(j, c).0)
  {
    ZeroIsZero(j);
  }

  lemma CheckStepNamed(j: Job, step: Step)
    requires Inv(j) && Named(j) && Enabled(j, step) && (step.WorkerStep? || step.CoordStep?)
    ensures Named(Next(j, step)) && SameJob(j, Next(j, step))
  {
    hide CheckStep, Books, Outcome;
    if step.WorkerStep? {
      assert j.workers[step.w] in j.workers;
      CheckNamed(j, j.workers[step.w].c);
      CheckStepFrame(j, j.workers[step.w].c);
    } else {
      CheckNamed(j, j.coord.c);
      CheckStepFrame(j, j.coord.c);
    }
  }

  lemma MoveNamed(j: Job, step: Step)
    requires Inv(j) && Named(j) && Enabled(j, step) && WorkerMove(step)
    ensures Named(Next(j, step)) && SameJob(j, Next(j, step))
  {
    hide Outcome, Sum;
    if j.scanDone && j.pending == 0 {
      WorkerMoveNeedsTask(j, step);
    }
    hide Books;
  }

  lemma RestNamed(j: Job, step: Step)
    requires Inv(j) && Named(j) && Enabled(j, step) && !WorkerMove(step) && !step.WorkerStep? && !step.CoordStep?
    ensures Named(Next(j, step)) && SameJob(j, Next(j, step))
  {
    hide Outcome, Sum, Books;
  }

  lemma {:induction false} NamedAlways(start: Job, steps: seq<Step>)
    requires Inv(start) && Named(start) && Run(start, steps).Some?
    ensures Named(Run(start, steps).value) && SameJob(start, Run(start, steps).value)
  {
    if steps != [] {
      hide Inv, Named, Next, Enabled;
      var k := |steps| - 1;
      var j := Run(start, steps[..k]).value;
      NamedAlways(start, steps[..k]);
      InvAlways(start, steps[..k]);
      if WorkerMove(steps[k]) {
        MoveNamed(j, steps[k]);
      } else if steps[k].WorkerStep? || steps[k].CoordStep? {
        CheckStepNamed(j, steps[k]);
      } else {
        RestNamed(j, steps[k]);
      }
    }
  }

  /** The state means what it says, in every run: Completed is for a job without a
      fatal error and Failed for one with, Canceled needs a call of `cancel`, the
      phases after Scanning need the scan to be done, and Finalizing that no task
      is pending. */
  lemma StateMeans(workers: nat, cancels: nat, error: bool, steps: seq<Step>)
    requires Run(Start(workers, cancels, error), steps).Some?
    ensures var j := Run(Start(workers, cancels, error), steps).value;
            && (j.state == Completed ==> !error)
            && (j.state == Failed ==> error)
            && (j.state == Canceled ==> cancels > 0)
            && (j.state == Transferring || j.state == Finalizing ==> j.scanDone)
            && (j.state == Finalizing ==> j.pending == 0)
  {
    StartInv(workers, cancels, error);
    NamedAlways(Start(workers, cancels, error), steps);
  }

  /** A job nobody cancels ends as Completed, or as Failed if it had a fatal error. */
  lemma UncancelledJobEnds(workers: nat, error: bool, steps: seq<Step>)
    requires workers > 0 && Run(Start(workers, 0, error), steps).Some?
    requires var j := Run(Start(workers, 0, error), steps).value;
             j.coord == CoordEnded && forall w :: w in j.workers ==> w == Exited
    ensures Run(Start(workers, 0, error), steps).value.state == if error then Failed else Completed
  {
    EndedJobIsTerminal(workers, 0, error, steps);
    StateMeans(workers, 0, error, steps);
  }

  /** What one step adds to each of the outcomes. */
  datatype Tally = Tally(good: nat, bad: nat, skipped: nat, canceled: nat, lost: nat, found: nat)

  function Adds(step: Step): Tally {
    match step
    case Finish(_, true) => Tally(1, 0, 0, 0, 0, 0)
    case Finish(_, false) => Tally(0, 1, 0, 0, 0, 0)
    case ResolveFail(_) => Tally(0, 1, 0, 0, 0, 0)
    case Skip(_) => Tally(0, 0, 1, 0, 0, 0)
    case CancelRunning(_) => Tally(0, 0, 0, 1, 0, 0)
    case CancelHolding(_) => Tally(0, 0, 0, 1, 0, 0)
    case DropTask(_) => Tally(0, 0, 0, 0, 1, 0)
    case Discover(n) => Tally(0, 0, 0, 0, 0, n)
    case _ => Tally(0, 0, 0, 0, 0, 0)
  }

  function Plus(a: Tally, b: Tally): Tally {
    Tally(a.good + b.good, a.bad + b.bad, a.skipped + b.skipped, a.canceled + b.canceled, a.lost + b.lost,
          a.found + b.found)
  }

  /** What happened in a schedule: transfers that succeeded, tasks that failed, and so on. */
  function Happened(steps: seq<Step>): Tally {
    if steps == [] then Tally(0, 0, 0, 0, 0, 0)
    else Plus(Happened(steps[..|steps| - 1]), Adds(steps[|steps| - 1]))
  }

  function SaysGood(w: WorkerPc): int { if w == Reporting(true) then 1 else 0 }
  function SaysBad(w: WorkerPc): int { if w == Reporting(false) then 1 else 0 }

  /** The counters are what happened, up to outcomes a worker is about to count. */
  ghost predicate Counts(j: Job, h: Tally) {
    && h.good == j.completed + Sum(j.workers, SaysGood)
    && h.bad == j.failed + Sum(j.workers, SaysBad)
    && h.skipped == j.skipped && h.canceled == j.canceled && h.lost == j.lost && h.found == j.discovered
  }

  lemma WorkerCounts(j: Job, step: Step, h: Tally)
    requires Enabled(j, step) && WorkerMove(step) && Counts(j, h)
    ensures Counts(Next(j, step), Plus(h, Adds(step)))
  {
    hide Sum;
    var t := Next(j, step);
    assert t.workers == j.workers[step.w := t.workers[step.w]];
    SumUpdate(j.workers, step.w, t.workers[step.w], SaysGood);
    SumUpdate(j.workers, step.w, t.workers[step.w], SaysBad);
  }

  lemma CheckCounts(j: Job, step: Step, h: Tally)
    requires Enabled(j, step) && (step.WorkerStep? || step.CoordStep?) && Counts(j, h)
    ensures Counts(Next(j, step), Plus(h, Adds(step)))
  {
    hide Sum, CheckStep;
    var t := Next(j, step);
    if step.WorkerStep? {
      CheckStepFrame(j, j.workers[step.w].c);
      assert t.workers == j.workers[step.w := t.workers[step.w]];
      SumUpdate(j.workers, step.w, t.workers[step.w], SaysGood);
      SumUpdate(j.workers, step.w, t.workers[step.w], SaysBad);
    } else {
      CheckStepFrame(j, j.coord.c);
    }
  }

  lemma RestCounts(j: Job, step: Step, h: Tally)
    requires Enabled(j, step) && !WorkerMove(step) && !step.WorkerStep? && !step.CoordStep? && Counts(j, h)
    ensures Counts(Next(j, step), Plus(h, Adds(step)))
  {
    hide Sum;
  }

  /** In every run the counters are exactly what happened: completed counts the
      transfers that succeeded, failed those that did not and the tasks whose
      target could not be resolved, and so on, up to outcomes still to be counted. */
  lemma {:induction false} CountersAreWhatHappened(workers: nat, cancels: nat, error: bool, steps: seq<Step>)
    requires Run(Start(workers, cancels, error), steps).Some?
    ensures Counts(Run(Start(workers, cancels, error), steps).value, Happened(steps))
  {
    var start := Start(workers, cancels, error);
    if steps == [] {
      SumZero(start.workers, SaysGood);
      SumZero(start.workers, SaysBad);
    } else {
      hide Counts, Next, Enabled, Adds, Plus;
      var k := |steps| - 1;
      var j := Run(start, steps[..k]).value;
      CountersAreWhatHappened(workers, cancels, error, steps[..k]);
      if WorkerMove(steps[k]) {
        WorkerCounts(j, steps[k], Happened(steps[..k]));
      } else if steps[k].WorkerStep? || steps[k].CoordStep? {
        CheckCounts(j, steps[k], Happened(steps[..k]));
      } else {
        RestCounts(j, steps[k], Happened(steps[..k]));
      }
    }
  }
}
