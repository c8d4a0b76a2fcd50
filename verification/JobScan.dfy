/** The scan and the ending of a job as one system: the coordinator's steps in
    `Scan` are its steps in `JobEnd`, the ready queue carries the tasks from the
    one to the workers of the other, and every task is followed to its outcome. */
module JobScan {
  import opened Options
  import opened Sums
  import Scan
  import JobEnd

  type Task = Scan.Task

  /** The tasks that ended, by outcome. */
  datatype Files = Files(
    completed: multiset<Task>, failed: multiset<Task>, skipped: multiset<Task>,
    canceled: multiset<Task>, lost: multiset<Task>)

  /** `queue` is the content of the ready queue, `hand[w]` the task of worker `w`. */
  datatype Joint = Joint(
    scan: Scan.State, job: JobEnd.Job, queue: seq<Task>, hand: seq<Option<Task>>, files: Files)

  datatype Step =
    | Receive(n: nat)
    | PlaceFile(i: nat)
    | Take(w: nat)
    | Finish
    | Recheck
    | Quit
    | SetCancel(k: nat)
    | ScanOnly(e: Scan.Step)
    | JobOnly(j: JobEnd.Step)

  function Start(roots: seq<Scan.Item>, workers: nat, cancels: nat, error: bool): Joint {
    Joint(Scan.Start(roots), JobEnd.Start(workers, cancels, error), [], seq(workers, _ => None),
          Files(multiset{}, multiset{}, multiset{}, multiset{}, multiset{}))
  }

  /** What each step is in the two systems. */
  function ScanOf(step: Step): Option<Scan.Step> {
    match step
    case Receive(_) => Some(Scan.Recv)
    case PlaceFile(i) => Some(Scan.PlaceFile(i))
    case Take(_) => Some(Scan.TakeTask)
    case Finish => Some(Scan.CheckChannel)
    case Recheck => Some(Scan.CheckChannel)
    case Quit => Some(Scan.Abort)
    case SetCancel(_) => Some(Scan.Cancel)
    case ScanOnly(e) => Some(e)
    case JobOnly(_) => None
  }

  function JobOf(step: Step): Option<JobEnd.Step> {
    match step
    case Receive(n) => Some(JobEnd.Discover(n))
    case PlaceFile(_) => Some(JobEnd.TrySend)
    case Take(w) => Some(JobEnd.Take(w))
    case Finish => Some(JobEnd.Leave)
    case Recheck => None
    case Quit => Some(JobEnd.Leave)
    case SetCancel(k) => Some(JobEnd.CancelFlag(k))
    case ScanOnly(_) => None
    case JobOnly(e) => Some(e)
  }

  /** Steps of the scan that the job's books do not see. */
  predicate ScanAlone(e: Scan.Step) {
    e.Spawn? || e.PlaceDir? || e.List? || e.Send? || e.ReturnSlot? || e.SeeIdle? || e.SetPause?
  }

  predicate JobAlone(e: JobEnd.Step) {
    !e.Discover? && !e.TrySend? && !e.Leave? && !e.Take? && !e.CancelFlag?
  }

  function FilesIn(x: Scan.Item): nat {
    if x.dir.Listing? then |x.dir.files| else 0
  }

  predicate Enabled(caps: Scan.Caps, s: Joint, step: Step) {
    && (ScanOf(step).Some? ==> Scan.Enabled(caps, s.scan, ScanOf(step).value))
    && (JobOf(step).Some? ==> JobEnd.Enabled(s.job, JobOf(step).value))
    && match step
       case Receive(n) => n == FilesIn(s.scan.chan[0])
       case Finish => s.scan.chan == []
       case Recheck => s.scan.chan != [] && s.job.coord == JobEnd.Placing
       // between a send and its increment the coordinator does nothing else
       case ScanOnly(e) => ScanAlone(e) && (e.Spawn? || e.PlaceDir? || e.SeeIdle? ==> s.job.coord == JobEnd.Placing)
       case JobOnly(e) => JobAlone(e)
       case _ => true
  }

  /** The worker's task has come to its outcome. */
  predicate Ends(e: JobEnd.Step) {
    e.Skip? || e.ResolveFail? || e.Count? || e.CancelRunning? || e.CancelHolding? || e.DropTask?
  }

  function File(f: Files, j: JobEnd.Job, e: JobEnd.Step, x: Task): Files
    requires Ends(e) && JobEnd.Enabled(j, e)
  {
    match e
    case Skip(_) => f.(skipped := f.skipped + multiset{x})
    case ResolveFail(_) => f.(failed := f.failed + multiset{x})
    case Count(w) =>
      if j.workers[w].ok then f.(completed := f.completed + multiset{x}) else f.(failed := f.failed + multiset{x})
    case DropTask(_) => f.(lost := f.lost + multiset{x})
    case _ => f.(canceled := f.canceled + multiset{x})
  }

  function Next(caps: Scan.Caps, s: Joint, step: Step): Joint
    requires Enabled(caps, s, step)
  {
    var t := s.(
      scan := if ScanOf(step).Some? then Scan.Next(caps, s.scan, ScanOf(step).value) else s.scan,
      job := if JobOf(step).Some? then JobEnd.Next(s.job, JobOf(step).value) else s.job);
    match step
    case PlaceFile(i) =>
      var h := s.scan.held[i];
      t.(queue := s.queue + [Scan.TaskOf(h.parent, h.files[0])])
    case Take(w) =>
      if s.queue != [] && w < |s.hand| then t.(queue := s.queue[1..], hand := s.hand[w := Some(s.queue[0])]) else t
    case JobOnly(e) =>
      if Ends(e) && e.w < |s.hand| && s.hand[e.w].Some? then
        t.(hand := s.hand[e.w := None], files := File(s.files, s.job, e, s.hand[e.w].value))
      else t
    case _ => t
  }

  function Run(caps: Scan.Caps, start: Joint, steps: seq<Step>): Option<Joint> {
    if steps == [] then Some(start)
    else
      var k := |steps| - 1;
      var before := Run(caps, start, steps[..k]);
      if before.Some? && Enabled(caps, before.value, steps[k]) then Some(Next(caps, before.value, steps[k])) else None
  }

  // ---------- a joint run is a run of each ----------

  function ScanPart(steps: seq<Step>): seq<Scan.Step> {
    if steps == [] then []
    else
      var k := |steps| - 1;
      ScanPart(steps[..k]) + if ScanOf(steps[k]).Some? then [ScanOf(steps[k]).value] else []
  }

  function JobPart(steps: seq<Step>): seq<JobEnd.Step> {
    if steps == [] then []
    else
      var k := |steps| - 1;
      JobPart(steps[..k]) + if JobOf(steps[k]).Some? then [JobOf(steps[k]).value] else []
  }

  lemma ScanMore(caps: Scan.Caps, roots: seq<Scan.Item>, steps: seq<Scan.Step>, e: Scan.Step)
    requires Scan.Run(caps, roots, steps).Some? && Scan.Enabled(caps, Scan.Run(caps, roots, steps).value, e)
    ensures Scan.Run(caps, roots, steps + [e]) == Some(Scan.Next(caps, Scan.Run(caps, roots, steps).value, e))
  {
    hide Scan.Next, Scan.Enabled;
    assert (steps + [e])[..|steps|] == steps;
  }

  lemma JobMore(start: JobEnd.Job, steps: seq<JobEnd.Step>, e: JobEnd.Step)
    requires JobEnd.Run(start, steps).Some? && JobEnd.Enabled(JobEnd.Run(start, steps).value, e)
    ensures JobEnd.Run(start, steps + [e]) == Some(JobEnd.Next(JobEnd.Run(start, steps).value, e))
  {
    hide JobEnd.Next, JobEnd.Enabled;
    assert (steps + [e])[..|steps|] == steps;
  }

  lemma NextParts(caps: Scan.Caps, s: Joint, step: Step)
    requires Enabled(caps, s, step)
    ensures Next(caps, s, step).scan ==
            if ScanOf(step).Some? then Scan.Next(caps, s.scan, ScanOf(step).value) else s.scan
    ensures Next(caps, s, step).job ==
            if JobOf(step).Some? then JobEnd.Next(s.job, JobOf(step).value) else s.job
  {
    hide Scan.Next, JobEnd.Next, JobEnd.Enabled;
  }

  lemma {:induction false} Projects(
    caps: Scan.Caps, roots: seq<Scan.Item>, workers: nat, cancels: nat, error: bool, steps: seq<Step>)
    requires Run(caps, Start(roots, workers, cancels, error), steps).Some?
    ensures var s := Run(caps, Start(roots, workers, cancels, error), steps).value;
            && Scan.Run(caps, roots, ScanPart(steps)) == Some(s.scan)
            && JobEnd.Run(JobEnd.Start(workers, cancels, error), JobPart(steps)) == Some(s.job)
  {
    if steps != [] {
      hide Next, Scan.Run, JobEnd.Run, JobEnd.Next, Scan.Next, JobEnd.Enabled, Scan.Enabled;
      var k := |steps| - 1;
      var s := Run(caps, Start(roots, workers, cancels, error), steps[..k]).value;
      Projects(caps, roots, workers, cancels, error, steps[..k]);
      NextParts(caps, s, steps[k]);
      if ScanOf(steps[k]).Some? {
        ScanMore(caps, roots, ScanPart(steps[..k]), ScanOf(steps[k]).value);
      } else {
        assert ScanPart(steps) == ScanPart(steps[..k]);
      }
      if JobOf(steps[k]).Some? {
        JobMore(JobEnd.Start(workers, cancels, error), JobPart(steps[..k]), JobOf(steps[k]).value);
      } else {
        assert JobPart(steps) == JobPart(steps[..k]);
      }
    } else {
      assert Scan.Run(caps, roots, []) == Some(Scan.Start(roots));
    }
  }

  // ---------- what the two sides say of each other ----------

  predicate Over(s: Scan.State) { s.pc == Scan.Finished || s.pc == Scan.Aborted }

  /** The coordinator has left its loop on both sides or on neither, and it left
      early only because of a cancel that both sides see. */
  ghost predicate Linked(s: Joint) {
    && s.job.cancel == s.scan.cancel
    && (Over(s.scan) <==> s.job.coord != JobEnd.Placing && s.job.coord != JobEnd.Counting)
    && (s.scan.pc == Scan.Aborted ==> s.scan.cancel)
    && s.job.discovered == s.scan.discovered
  }

  ghost predicate SameEnd(s: Scan.State, t: Scan.State) {
    t.cancel == s.cancel && t.discovered == s.discovered && (Over(t) <==> Over(s)) && (Over(s) ==> t.pc == s.pc)
  }

  lemma PlacingAlone(caps: Scan.Caps, s: Scan.State, e: Scan.Step)
    requires Scan.Enabled(caps, s, e) && (e.PlaceDir? || e.PlaceFile?)
    ensures SameEnd(s, Scan.Next(caps, s, e))
  {
    hide Scan.Pruned, Scan.TaskOf, Scan.Child;
  }

  lemma AloneScan(caps: Scan.Caps, s: Scan.State, e: Scan.Step)
    requires Scan.Enabled(caps, s, e) && (ScanAlone(e) || e.PlaceFile? || e.TakeTask?)
    ensures SameEnd(s, Scan.Next(caps, s, e))
  {
    if e.PlaceDir? || e.PlaceFile? {
      PlacingAlone(caps, s, e);
    }
  }

  /** Steps of the scan that change nothing the job would have to agree on. */
  lemma LinkedAlone(caps: Scan.Caps, s: Joint, step: Step)
    requires Linked(s) && Enabled(caps, s, step) && (step.ScanOnly? || step.PlaceFile? || step.Take?)
    ensures Linked(Next(caps, s, step))
  {
    NextParts(caps, s, step);
    AloneScan(caps, s.scan, ScanOf(step).value);
    hide Scan.Next, Scan.Enabled;
  }

  lemma LinkedReceive(caps: Scan.Caps, s: Joint, n: nat)
    requires Linked(s) && Enabled(caps, s, Receive(n))
    ensures Linked(Next(caps, s, Receive(n)))
  {
  }

  lemma LinkedEnd(caps: Scan.Caps, s: Joint, step: Step)
    requires Linked(s) && Enabled(caps, s, step) && (step.Finish? || step.Recheck? || step.Quit? || step.SetCancel?)
    ensures Linked(Next(caps, s, step))
  {
  }

  predicate Gone(j: JobEnd.Job) { j.coord != JobEnd.Placing && j.coord != JobEnd.Counting }

  ghost predicate SameJobEnd(j: JobEnd.Job, t: JobEnd.Job) {
    t.cancel == j.cancel && t.discovered == j.discovered && (Gone(t) <==> Gone(j))
  }

  lemma CheckAlone(j: JobEnd.Job, e: JobEnd.Step)
    requires JobEnd.Enabled(j, e) && (e.WorkerStep? || e.CoordStep?)
    ensures SameJobEnd(j, JobEnd.Next(j, e))
  {
    hide JobEnd.CheckStep;
    JobEnd.CheckStepFrame(j, if e.WorkerStep? then j.workers[e.w].c else j.coord.c);
  }

  lemma AloneJob(j: JobEnd.Job, e: JobEnd.Step)
    requires JobEnd.Enabled(j, e) && JobAlone(e)
    ensures SameJobEnd(j, JobEnd.Next(j, e))
  {
    hide JobEnd.CheckStep;
    if e.WorkerStep? || e.CoordStep? {
      CheckAlone(j, e);
    }
  }

  lemma LinkedJob(caps: Scan.Caps, s: Joint, e: JobEnd.Step)
    requires Linked(s) && Enabled(caps, s, JobOnly(e))
    ensures Linked(Next(caps, s, JobOnly(e)))
  {
    hide JobEnd.Next, JobEnd.Enabled, Next, Scan.Next, Scan.Enabled;
    NextParts(caps, s, JobOnly(e));
    AloneJob(s.job, e);
  }

  // ---------- every task is somewhere ----------

  function Held(x: Option<Task>): multiset<Task> {
    if x.Some? then multiset{x.value} else multiset{}
  }

  function Hands(hand: seq<Option<Task>>): multiset<Task> {
    if hand == [] then multiset{} else Held(hand[0]) + Hands(hand[1..])
  }

  /** Multisets are added in any order. */
  lemma Regroup(a: multiset<Task>, b: multiset<Task>, c: multiset<Task>)
    ensures a + b + c == a + (b + c) && a + b == b + a && a + b + c == a + c + b
  {
  }

  lemma {:induction false} HandsUpdate(hand: seq<Option<Task>>, w: nat, x: Option<Task>)
    requires w < |hand|
    ensures Hands(hand[w := x]) + Held(hand[w]) == Hands(hand) + Held(x)
  {
    var first, rest := Held(hand[0]), hand[1..];
    if w == 0 {
      assert hand[w := x][1..] == rest;
      Regroup(Held(x), Hands(rest), first);
      Regroup(first, Hands(rest), Held(x));
    } else {
      HandsUpdate(rest, w - 1, x);
      assert hand[w := x][1..] == rest[w - 1 := x];
      Regroup(first, Hands(rest[w - 1 := x]), Held(hand[w]));
      Regroup(first, Hands(rest), Held(x));
    }
  }

  lemma {:induction false} EmptyHands(hand: seq<Option<Task>>)
    requires forall w :: 0 <= w < |hand| ==> hand[w] == None
    ensures Hands(hand) == multiset{}
  {
    if hand != [] {
      EmptyHands(hand[1..]);
    }
  }

  function Ended(f: Files): multiset<Task> {
    f.completed + f.failed + f.skipped + f.canceled + f.lost
  }

  /** A worker has a task exactly while the job's books say so. */
  ghost predicate InHands(s: Joint) {
    && |s.hand| == |s.job.workers|
    && forall w :: 0 <= w < |s.hand| ==> (s.hand[w].Some? <==> JobEnd.InHand(s.job.workers[w]) == 1)
  }

  ghost predicate Counts(s: Joint) {
    |s.queue| == s.job.queued && Tallied(s.files, s.job)
  }

  ghost predicate Everywhere(s: Joint) {
    s.scan.sent == multiset(s.queue) + Hands(s.hand) + Ended(s.files)
  }

  ghost predicate Followed(s: Joint) {
    InHands(s) && Counts(s) && Everywhere(s)
  }

  /** Steps that neither move a task nor change who has one. */
  predicate Quiet(step: Step) {
    step.Receive? || step.Finish? || step.Recheck? || step.Quit? || step.SetCancel? || step.ScanOnly?
    || (step.JobOnly? && !Ends(step.j))
  }

  /** The same workers have tasks, and no task was queued, taken or counted. */
  ghost predicate SameTasks(j: JobEnd.Job, t: JobEnd.Job) {
    && |t.workers| == |j.workers| && t.queued == j.queued
    && (forall w :: 0 <= w < |j.workers| ==> JobEnd.InHand(t.workers[w]) == JobEnd.InHand(j.workers[w]))
    && t.completed == j.completed && t.failed == j.failed && t.skipped == j.skipped
    && t.canceled == j.canceled && t.lost == j.lost
  }

  lemma QuietCheck(j: JobEnd.Job, e: JobEnd.Step)
    requires JobEnd.Enabled(j, e) && (e.WorkerStep? || e.CoordStep?)
    ensures SameTasks(j, JobEnd.Next(j, e)) && JobEnd.Next(j, e).unplaced == j.unplaced
  {
    hide JobEnd.CheckStep;
    JobEnd.CheckStepFrame(j, if e.WorkerStep? then j.workers[e.w].c else j.coord.c);
  }

  lemma QuietWorker(j: JobEnd.Job, e: JobEnd.Step)
    requires JobEnd.Enabled(j, e) && (e.Begin? || e.Again? || e.Finish? || e.Decrement? || e.LeaveLoop?)
    ensures SameTasks(j, JobEnd.Next(j, e)) && JobEnd.Next(j, e).unplaced == j.unplaced
  {
  }

  lemma QuietRest(j: JobEnd.Job, e: JobEnd.Step)
    requires JobEnd.Enabled(j, e) && (e.Discover? || e.CountPending? || e.Leave? || e.StoreDone?
                                      || e.CancelLock? || e.CancelFlag? || e.CancelEmit?)
    ensures SameTasks(j, JobEnd.Next(j, e)) && (e.Discover? || JobEnd.Next(j, e).unplaced == j.unplaced)
  {
  }

  lemma QuietJob(j: JobEnd.Job, e: JobEnd.Step)
    requires JobEnd.Enabled(j, e) && !e.TrySend? && !e.Take? && !Ends(e)
    ensures SameTasks(j, JobEnd.Next(j, e)) && (e.Discover? || JobEnd.Next(j, e).unplaced == j.unplaced)
  {
    hide JobEnd.Next, JobEnd.Enabled, SameTasks;
    if e.WorkerStep? || e.CoordStep? {
      QuietCheck(j, e);
    } else if e.Begin? || e.Again? || e.Finish? || e.Decrement? || e.LeaveLoop? {
      QuietWorker(j, e);
    } else {
      QuietRest(j, e);
    }
  }

  lemma QuietScan(caps: Scan.Caps, s: Scan.State, e: Scan.Step)
    requires Scan.Enabled(caps, s, e) && !e.PlaceFile?
    ensures Scan.Next(caps, s, e).sent == s.sent && (e.TakeTask? || Scan.Next(caps, s, e).ready == s.ready)
  {
  }

  lemma QuietFrame(caps: Scan.Caps, s: Joint, step: Step)
    requires Enabled(caps, s, step) && Quiet(step)
    ensures var t := Next(caps, s, step); t == s.(scan := t.scan, job := t.job)
  {
    hide Scan.Next, JobEnd.Next, JobEnd.Enabled, Scan.Enabled;
  }

  lemma FollowedFrame(s: Joint, t: Joint)
    requires Followed(s) && t == s.(scan := t.scan, job := t.job)
    requires t.scan.sent == s.scan.sent && SameTasks(s.job, t.job)
    ensures Followed(t)
  {
    hide Hands, Ended;
  }

  lemma QuietKeeps(caps: Scan.Caps, s: Joint, step: Step)
    requires Followed(s) && Enabled(caps, s, step) && Quiet(step)
    ensures Followed(Next(caps, s, step))
  {
    hide Scan.Next, Scan.Enabled, JobEnd.Next, JobEnd.Enabled, Next, Followed, SameTasks;
    NextParts(caps, s, step);
    QuietFrame(caps, s, step);
    if ScanOf(step).Some? {
      QuietScan(caps, s.scan, ScanOf(step).value);
    }
    if JobOf(step).Some? {
      QuietJob(s.job, JobOf(step).value);
    } else {
      assert SameTasks(s.job, s.job) by { Same(s.job); }
    }
    FollowedFrame(s, Next(caps, s, step));
  }

  lemma Same(j: JobEnd.Job)
    ensures SameTasks(j, j)
  {
  }

  /** Worker `w` goes to `pc` and has `x` in hand. */
  lemma HandPut(s: Joint, t: Joint, w: nat, pc: JobEnd.WorkerPc, x: Option<Task>)
    requires InHands(s) && w < |s.hand| && t.hand == s.hand[w := x] && t.job.workers == s.job.workers[w := pc]
    requires x.Some? <==> JobEnd.InHand(pc) == 1
    ensures InHands(t)
  {
  }

  lemma PlaceKeeps(caps: Scan.Caps, s: Joint, i: nat)
    requires Followed(s) && Enabled(caps, s, PlaceFile(i))
    ensures Followed(Next(caps, s, PlaceFile(i)))
  {
    hide Hands, Ended;
  }

  lemma TakeMoves(queue: seq<Task>, hand: seq<Option<Task>>, w: nat, ended: multiset<Task>)
    requires queue != [] && w < |hand| && hand[w] == None
    ensures multiset(queue[1..]) + Hands(hand[w := Some(queue[0])]) + ended ==
            multiset(queue) + Hands(hand) + ended
  {
    hide Hands;
    var x, rest := multiset{queue[0]}, multiset(queue[1..]);
    HandsUpdate(hand, w, Some(queue[0]));
    assert queue == [queue[0]] + queue[1..];
    assert multiset(queue) == x + rest;
    assert Hands(hand[w := Some(queue[0])]) + multiset{} == Hands(hand[w := Some(queue[0])]);
    Regroup(rest, Hands(hand), x);
    Regroup(rest, x, Hands(hand));
    Regroup(x, rest, Hands(hand));
  }

  lemma TakeJob(j: JobEnd.Job, w: nat)
    requires JobEnd.Enabled(j, JobEnd.Take(w))
    ensures w < |j.workers| && JobEnd.InHand(j.workers[w]) == 0 && j.queued > 0
    ensures JobEnd.Next(j, JobEnd.Take(w)) ==
            j.(queued := j.queued - 1, workers := j.workers[w := JobEnd.Holding])
  {
  }

  lemma TakeFrame(caps: Scan.Caps, s: Joint, w: nat)
    requires Enabled(caps, s, Take(w)) && s.queue != [] && w < |s.hand|
    ensures var t := Next(caps, s, Take(w));
            t == s.(scan := t.scan, job := t.job, queue := s.queue[1..], hand := s.hand[w := Some(s.queue[0])])
  {
    hide Scan.Next, JobEnd.Next, JobEnd.Enabled, Scan.Enabled;
  }

  lemma TakeFollowed(s: Joint, t: Joint, w: nat)
    requires Followed(s) && s.queue != [] && w < |s.hand| && JobEnd.InHand(s.job.workers[w]) == 0
    requires t == s.(scan := t.scan, job := t.job, queue := s.queue[1..], hand := s.hand[w := Some(s.queue[0])])
    requires t.scan.sent == s.scan.sent
    requires t.job == s.job.(queued := s.job.queued - 1, workers := s.job.workers[w := JobEnd.Holding])
    ensures Followed(t)
  {
    hide Hands, Ended;
    HandPut(s, t, w, JobEnd.Holding, Some(s.queue[0]));
    TakeMoves(s.queue, s.hand, w, Ended(s.files));
  }

  lemma TakeKeeps(caps: Scan.Caps, s: Joint, w: nat)
    requires Followed(s) && Enabled(caps, s, Take(w))
    ensures Followed(Next(caps, s, Take(w)))
  {
    hide Hands, Ended, JobEnd.Next, JobEnd.Enabled, Scan.Next, Scan.Enabled, Next, Everywhere;
    TakeJob(s.job, w);
    QuietScan(caps, s.scan, Scan.TakeTask);
    NextParts(caps, s, Take(w));
    TakeFrame(caps, s, w);
    TakeFollowed(s, Next(caps, s, Take(w)), w);
  }

  lemma EndJob(j: JobEnd.Job, e: JobEnd.Step)
    requires JobEnd.Enabled(j, e) && Ends(e)
    ensures e.w < |j.workers| && JobEnd.InHand(j.workers[e.w]) == 1
    ensures var t := JobEnd.Next(j, e);
            && |t.workers| == |j.workers| && JobEnd.InHand(t.workers[e.w]) == 0
            && t.workers == j.workers[e.w := t.workers[e.w]] && t.queued == j.queued
  {
  }

  ghost predicate Tallied(f: Files, j: JobEnd.Job) {
    && |f.completed| == j.completed && |f.failed| == j.failed
    && |f.skipped| == j.skipped && |f.canceled| == j.canceled && |f.lost| == j.lost
  }

  lemma OneMore(m: multiset<Task>, x: Task)
    ensures |m + multiset{x}| == |m| + 1
  {
  }

  lemma OutcomeCounts(f: Files, j: JobEnd.Job, e: JobEnd.Step, x: Task)
    requires JobEnd.Enabled(j, e) && (e.Skip? || e.ResolveFail?) && Tallied(f, j)
    ensures Tallied(File(f, j, e, x), JobEnd.Next(j, e))
  {
    OneMore(f.skipped, x);
    OneMore(f.failed, x);
  }

  lemma CountCounts(f: Files, j: JobEnd.Job, w: nat, x: Task)
    requires JobEnd.Enabled(j, JobEnd.Count(w)) && Tallied(f, j)
    ensures Tallied(File(f, j, JobEnd.Count(w), x), JobEnd.Next(j, JobEnd.Count(w)))
  {
    if j.workers[w].ok {
      OneMore(f.completed, x);
    } else {
      OneMore(f.failed, x);
    }
  }

  lemma CancelCounts(f: Files, j: JobEnd.Job, e: JobEnd.Step, x: Task)
    requires JobEnd.Enabled(j, e) && (e.CancelRunning? || e.CancelHolding? || e.DropTask?) && Tallied(f, j)
    ensures Tallied(File(f, j, e, x), JobEnd.Next(j, e))
  {
    OneMore(f.canceled, x);
    OneMore(f.lost, x);
  }

  lemma FileCounts(f: Files, j: JobEnd.Job, e: JobEnd.Step, x: Task)
    requires JobEnd.Enabled(j, e) && Ends(e) && Tallied(f, j)
    ensures Tallied(File(f, j, e, x), JobEnd.Next(j, e))
  {
    hide JobEnd.Enabled, JobEnd.Next, File, Tallied;
    if e.Skip? || e.ResolveFail? {
      OutcomeCounts(f, j, e, x);
    } else if e.Count? {
      CountCounts(f, j, e.w, x);
    } else {
      CancelCounts(f, j, e, x);
    }
  }

  /** Adding to any of five files adds to them all together. */
  lemma Five(a: multiset<Task>, b: multiset<Task>, c: multiset<Task>, d: multiset<Task>, e: multiset<Task>, x: multiset<Task>)
    ensures a + x + b + c + d + e == a + b + c + d + e + x
    ensures a + (b + x) + c + d + e == a + b + c + d + e + x
    ensures a + b + (c + x) + d + e == a + b + c + d + e + x
    ensures a + b + c + (d + x) + e == a + b + c + d + e + x
    ensures a + b + c + d + (e + x) == a + b + c + d + e + x
  {
  }

  lemma FileEnds(f: Files, j: JobEnd.Job, e: JobEnd.Step, x: Task)
    requires JobEnd.Enabled(j, e) && Ends(e)
    ensures Ended(File(f, j, e, x)) == Ended(f) + multiset{x}
  {
    hide JobEnd.Enabled;
    Five(f.completed, f.failed, f.skipped, f.canceled, f.lost, multiset{x});
  }

  lemma EndMoves(queue: multiset<Task>, hand: seq<Option<Task>>, w: nat, ended: multiset<Task>)
    requires w < |hand| && hand[w].Some?
    ensures queue + Hands(hand[w := None]) + (ended + multiset{hand[w].value}) == queue + Hands(hand) + ended
  {
    hide Hands;
    var x := multiset{hand[w].value};
    HandsUpdate(hand, w, None);
    assert Hands(hand) + multiset{} == Hands(hand);
    Regroup(ended, x, x);
    Regroup(queue + Hands(hand[w := None]), ended, x);
    Regroup(queue + Hands(hand[w := None]), x, ended);
    Regroup(queue, Hands(hand[w := None]), x);
  }

  lemma EndFrame(caps: Scan.Caps, s: Joint, e: JobEnd.Step)
    requires Enabled(caps, s, JobOnly(e)) && Ends(e) && e.w < |s.hand| && s.hand[e.w].Some?
    ensures var t := Next(caps, s, JobOnly(e));
            t == s.(job := t.job, hand := s.hand[e.w := None], files := File(s.files, s.job, e, s.hand[e.w].value))
  {
    hide Scan.Next, JobEnd.Next, JobEnd.Enabled, Scan.Enabled, File;
  }

  /** A worker's task moves from its hand to the file of its outcome. */
  lemma EndFollowed(s: Joint, t: Joint, w: nat, pc: JobEnd.WorkerPc)
    requires Followed(s) && w < |s.hand| && s.hand[w].Some? && JobEnd.InHand(pc) == 0
    requires t == s.(job := t.job, hand := s.hand[w := None], files := t.files)
    requires t.job.workers == s.job.workers[w := pc] && t.job.queued == s.job.queued && Tallied(t.files, t.job)
    requires Ended(t.files) == Ended(s.files) + multiset{s.hand[w].value}
    ensures Followed(t)
  {
    hide Hands, Ended, Tallied;
    HandPut(s, t, w, pc, None);
    EndMoves(multiset(s.queue), s.hand, w, Ended(s.files));
  }

  lemma EndKeeps(caps: Scan.Caps, s: Joint, e: JobEnd.Step)
    requires Followed(s) && Enabled(caps, s, JobOnly(e)) && Ends(e)
    ensures Followed(Next(caps, s, JobOnly(e)))
  {
    hide Hands, Ended, JobEnd.Next, JobEnd.Enabled, File, Next, Everywhere, Tallied, Scan.Next, Scan.Enabled;
    EndJob(s.job, e);
    NextParts(caps, s, JobOnly(e));
    EndFrame(caps, s, e);
    var t, x := Next(caps, s, JobOnly(e)), s.hand[e.w].value;
    FileCounts(s.files, s.job, e, x);
    FileEnds(s.files, s.job, e, x);
    EndFollowed(s, t, e.w, t.job.workers[e.w]);
  }

  lemma StepKeeps(caps: Scan.Caps, s: Joint, step: Step)
    requires Linked(s) && Followed(s) && Enabled(caps, s, step)
    ensures Linked(Next(caps, s, step)) && Followed(Next(caps, s, step))
  {
    hide Linked, Followed, Next, Enabled;
    if step.JobOnly? {
      LinkedJob(caps, s, step.j);
    } else if step.Receive? {
      LinkedReceive(caps, s, step.n);
    } else if step.ScanOnly? || step.PlaceFile? || step.Take? {
      LinkedAlone(caps, s, step);
    } else {
      LinkedEnd(caps, s, step);
    }
    if Quiet(step) {
      QuietKeeps(caps, s, step);
    } else if step.PlaceFile? {
      PlaceKeeps(caps, s, step.i);
    } else if step.Take? {
      TakeKeeps(caps, s, step.w);
    } else {
      EndKeeps(caps, s, step.j);
    }
  }

  lemma {:induction false} RunKeeps(
    caps: Scan.Caps, roots: seq<Scan.Item>, workers: nat, cancels: nat, error: bool, steps: seq<Step>)
    requires Run(caps, Start(roots, workers, cancels, error), steps).Some?
    ensures var s := Run(caps, Start(roots, workers, cancels, error), steps).value; Linked(s) && Followed(s)
  {
    if steps == [] {
      EmptyHands(Start(roots, workers, cancels, error).hand);
    } else {
      hide Linked, Followed, Next, Enabled;
      var k := |steps| - 1;
      RunKeeps(caps, roots, workers, cancels, error, steps[..k]);
      StepKeeps(caps, Run(caps, Start(roots, workers, cancels, error), steps[..k]).value, steps[k]);
    }
  }

  /** When a job is completed, nobody has a task any more. */
  lemma CompletedHands(s: Joint)
    requires JobEnd.Inv(s.job) && InHands(s) && (s.job.state == JobEnd.Completed || s.job.state == JobEnd.Failed)
    ensures Hands(s.hand) == multiset{} && s.job.queued == 0
    ensures s.job.canceled == s.job.lost == 0 && s.job.scanDone && !s.job.cancel
  {
    JobEnd.ZeroIsZero(s.job);
    JobEnd.WorkerSums(s.job.workers);
    forall w | 0 <= w < |s.hand| ensures s.hand[w] == None {
      JobEnd.SumAtLeastOwed(s.job.workers, w);
    }
    EmptyHands(s.hand);
  }

  /** Main result: a job that is completed (or failed) has scanned the whole tree,
      and the files it completed, failed or skipped are together exactly the files
      of the recursive walk, each once. */
  lemma CompletedIsTheWalk(
    caps: Scan.Caps, roots: seq<Scan.Item>, workers: nat, cancels: nat, error: bool, steps: seq<Step>)
    requires Run(caps, Start(roots, workers, cancels, error), steps).Some?
    requires var j := Run(caps, Start(roots, workers, cancels, error), steps).value.job;
             j.state == JobEnd.Completed || j.state == JobEnd.Failed
    ensures var s := Run(caps, Start(roots, workers, cancels, error), steps).value;
            && s.files.completed + s.files.failed + s.files.skipped == Scan.WalkAll(caps, roots).tasks
            && |s.files.completed| == s.job.completed
            && |s.files.failed| == s.job.failed
            && |s.files.skipped| == s.job.skipped
            && Scan.Settled(s.scan) == Scan.WalkAll(caps, roots)
  {
    hide Run, JobEnd.Run, Scan.Run, Scan.WalkAll, JobEnd.Inv;
    var s := Run(caps, Start(roots, workers, cancels, error), steps).value;
    Projects(caps, roots, workers, cancels, error, steps);
    RunKeeps(caps, roots, workers, cancels, error, steps);
    JobEnd.StartInv(workers, cancels, error);
    JobEnd.InvAlways(JobEnd.Start(workers, cancels, error), JobPart(steps));
    CompletedHands(s);
    DoneMeansOver(s);
    Scan.ScanEqualsWalk(caps, roots, ScanPart(steps));
    assert s.queue == [] && s.files.canceled == multiset{} && s.files.lost == multiset{};
  }

  lemma DoneMeansOver(s: Joint)
    requires JobEnd.Inv(s.job) && Linked(s) && s.job.scanDone && !s.job.cancel
    ensures s.scan.pc == Scan.Finished
  {
  }

  // ---------- no step is held up by being joined ----------

  function FileCount(h: Scan.Held): int { |h.files| }

  /** The files waiting to be placed or taken are the same on both sides. */
  ghost predicate Waiting(s: Joint) {
    s.job.unplaced == Sum(s.scan.held, FileCount) && s.job.queued == s.scan.ready
  }

  lemma PutHeldCount(s: Scan.State, i: nat, h: Scan.Held)
    requires i < |s.held|
    ensures Sum(Scan.PutHeld(s, i, h).held, FileCount) ==
            Sum(s.held, FileCount) - FileCount(s.held[i]) + FileCount(h)
  {
    if h.files == [] && h.dirs == [] {
      SumRemove(s.held, i, FileCount);
    } else {
      SumUpdate(s.held, i, h, FileCount);
    }
  }

  lemma WaitingReceive(caps: Scan.Caps, s: Joint, n: nat)
    requires Waiting(s) && Enabled(caps, s, Receive(n))
    ensures Waiting(Next(caps, s, Receive(n)))
  {
    hide Sum;
    var x := s.scan.chan[0];
    if x.dir.Listing? {
      SumAppend(s.scan.held, Scan.Held(x, x.dir.files, x.dir.dirs), FileCount);
    }
  }

  lemma WaitingPlaceFile(caps: Scan.Caps, s: Joint, i: nat)
    requires Waiting(s) && Enabled(caps, s, PlaceFile(i))
    ensures Waiting(Next(caps, s, PlaceFile(i)))
  {
    hide Sum;
    var h := s.scan.held[i];
    PutHeldCount(s.scan, i, h.(files := h.files[1..]));
  }

  lemma WaitingPlaceDir(caps: Scan.Caps, s: Joint, i: nat)
    requires Waiting(s) && Enabled(caps, s, ScanOnly(Scan.PlaceDir(i)))
    ensures Waiting(Next(caps, s, ScanOnly(Scan.PlaceDir(i))))
  {
    hide Sum, Scan.Pruned;
    var h := s.scan.held[i];
    PutHeldCount(s.scan, i, h.(dirs := h.dirs[1..]));
  }

  lemma HeldStays(caps: Scan.Caps, s: Scan.State, e: Scan.Step)
    requires Scan.Enabled(caps, s, e) && !e.PlaceFile? && !e.PlaceDir? && !e.Recv?
    ensures Scan.Next(caps, s, e).held == s.held
    ensures Scan.Next(caps, s, e).ready == if e.TakeTask? then s.ready - 1 else s.ready
  {
  }

  lemma WaitingOther(caps: Scan.Caps, s: Joint, step: Step)
    requires Waiting(s) && Enabled(caps, s, step) && !step.Receive? && !step.PlaceFile?
    requires !(step.ScanOnly? && step.e.PlaceDir?)
    ensures Waiting(Next(caps, s, step))
  {
    hide Sum;
    NextParts(caps, s, step);
    if ScanOf(step).Some? {
      HeldStays(caps, s.scan, ScanOf(step).value);
    }
    if step.Take? {
      TakeJob(s.job, step.w);
    } else if JobOf(step).Some? {
      UnplacedStays(s.job, JobOf(step).value);
    }
    hide Scan.Next, Scan.Enabled, JobEnd.Next, JobEnd.Enabled;
  }

  lemma UnplacedStays(j: JobEnd.Job, e: JobEnd.Step)
    requires JobEnd.Enabled(j, e) && !e.Discover? && !e.TrySend? && !e.Take?
    ensures JobEnd.Next(j, e).unplaced == j.unplaced && JobEnd.Next(j, e).queued == j.queued
  {
    if !Ends(e) {
      QuietJob(j, e);
    }
  }

  lemma {:induction false} RunWaiting(caps: Scan.Caps, start: Joint, steps: seq<Step>)
    requires Waiting(start) && Run(caps, start, steps).Some?
    ensures Waiting(Run(caps, start, steps).value)
  {
    if steps != [] {
      hide Waiting, Next, Enabled;
      var k, e := |steps| - 1, steps[|steps| - 1];
      RunWaiting(caps, start, steps[..k]);
      var s := Run(caps, start, steps[..k]).value;
      if e.Receive? {
        WaitingReceive(caps, s, e.n);
      } else if e.PlaceFile? {
        WaitingPlaceFile(caps, s, e.i);
      } else if e.ScanOnly? && e.e.PlaceDir? {
        WaitingPlaceDir(caps, s, e.e.i);
      } else {
        WaitingOther(caps, s, e);
      }
    }
  }

  lemma PlaceNotHeldUp(caps: Scan.Caps, s: Joint, i: nat)
    requires Waiting(s) && s.job.coord == JobEnd.Placing && Scan.Enabled(caps, s.scan, Scan.PlaceFile(i))
    ensures Enabled(caps, s, PlaceFile(i))
  {
    SumAtLeast(s.scan.held, i, FileCount);
  }

  lemma EndNotHeldUp(caps: Scan.Caps, s: Joint)
    requires Waiting(s) && Linked(s) && Scan.Shape(caps, s.scan) && s.job.coord == JobEnd.Placing
    ensures Scan.Enabled(caps, s.scan, Scan.CheckChannel) ==> Enabled(caps, s, Finish) || Enabled(caps, s, Recheck)
    ensures Scan.Enabled(caps, s.scan, Scan.Abort) ==> Enabled(caps, s, Quit)
  {
  }

  lemma ReceiveNotHeldUp(caps: Scan.Caps, s: Joint)
    requires s.job.coord == JobEnd.Placing && Scan.Enabled(caps, s.scan, Scan.Recv)
    requires s.job.discovered + FilesIn(s.scan.chan[0]) < JobEnd.WRAP
    ensures Enabled(caps, s, Receive(FilesIn(s.scan.chan[0])))
  {
  }

  lemma AgentsNotHeldUp(caps: Scan.Caps, s: Joint, w: nat)
    requires Waiting(s)
    ensures JobEnd.Enabled(s.job, JobEnd.Take(w)) ==> Enabled(caps, s, Take(w))
    ensures JobEnd.Enabled(s.job, JobEnd.CancelFlag(w)) ==> Enabled(caps, s, SetCancel(w))
  {
  }

  /** In every joint run, whatever either side can do next the joint system can do:
      a scan step of a coordinator that is not between a send and its increment,
      or a step of the job's own agents. */
  lemma NothingHeldUp(
    caps: Scan.Caps, roots: seq<Scan.Item>, workers: nat, cancels: nat, error: bool, steps: seq<Step>, i: nat)
    requires Run(caps, Start(roots, workers, cancels, error), steps).Some?
    ensures var s := Run(caps, Start(roots, workers, cancels, error), steps).value;
            && (s.job.coord == JobEnd.Placing ==>
                  && (Scan.Enabled(caps, s.scan, Scan.PlaceFile(i)) ==> Enabled(caps, s, PlaceFile(i)))
                  && (Scan.Enabled(caps, s.scan, Scan.CheckChannel) ==> Enabled(caps, s, Finish) || Enabled(caps, s, Recheck))
                  && (Scan.Enabled(caps, s.scan, Scan.Abort) ==> Enabled(caps, s, Quit))
                  && (Scan.Enabled(caps, s.scan, Scan.Recv) && s.job.discovered + FilesIn(s.scan.chan[0]) < JobEnd.WRAP ==>
                        Enabled(caps, s, Receive(FilesIn(s.scan.chan[0])))))
            && (JobEnd.Enabled(s.job, JobEnd.Take(i)) ==> Enabled(caps, s, Take(i)))
            && (JobEnd.Enabled(s.job, JobEnd.CancelFlag(i)) ==> Enabled(caps, s, SetCancel(i)))
  {
    var s := Run(caps, Start(roots, workers, cancels, error), steps).value;
    RunWaiting(caps, Start(roots, workers, cancels, error), steps);
    RunKeeps(caps, roots, workers, cancels, error, steps);
    Projects(caps, roots, workers, cancels, error, steps);
    Scan.RunConserves(caps, roots, ScanPart(steps));
    hide Run, Scan.Run, JobEnd.Run, Followed, Linked, Waiting, Enabled, JobEnd.Enabled, Scan.Shape;
    AgentsNotHeldUp(caps, s, i);
    if s.job.coord == JobEnd.Placing {
      EndNotHeldUp(caps, s);
      if Scan.Enabled(caps, s.scan, Scan.PlaceFile(i)) {
        PlaceNotHeldUp(caps, s, i);
      }
      if Scan.Enabled(caps, s.scan, Scan.Recv) && s.job.discovered + FilesIn(s.scan.chan[0]) < JobEnd.WRAP {
        ReceiveNotHeldUp(caps, s);
      }
    }
  }
}
