/** The credit protocol of one terminal epoch under concurrency: one reader that
    acquires credit and frames bytes, and any number of ack calls racing through
    the lock-free loop of `ack`. Every atomic access is one step. */
module Credit {
  import opened Options
  import opened Sums
  import opened Frames

  /** An ack call: epoch and `broken` checked; `acked` loaded; `sent` also loaded
      (at time `at`); the compare-exchange won but the permits not yet returned;
      finished. */
  datatype AckPc =
    | Entered(incoming: nat)
    | Loaded(incoming: nat, cur: nat)
    | SawSent(incoming: nat, cur: nat, seen: nat, at: nat)
    | Won(newly: nat)
    | Returned(newly: nat)

  /** `Checked`: `broken` was read false. `Framing`: `sent` was read as `start`.
      `Numbered`: the sequence number is taken and `sent` is about to be stored. */
  datatype Reader =
    | Resting | Checked(len: nat) | Framing(start: nat, len: nat) | Numbered(start: nat, len: nat)

  /** The two counters before each step so far; no step reads it. */
  datatype Moment = Moment(acked: nat, sent: nat)

  datatype State = State(core: Core, unframed: nat, reader: Reader, acks: seq<AckPc>, past: seq<Moment>)

  datatype Step =
    | Acquire(n: nat)
    | FrameCheck(len: nat)
    | FrameRead
    | FrameNumber
    | FrameStore
    | Break
    | AckCall(epoch: nat, incoming: nat)
    | AckLoad(i: nat)
    | AckReadSent(i: nat)
    | AckSwap(i: nat, spurious: bool)
    | AckRelease(i: nat)

  function Start(epoch: nat): State {
    State(New(epoch), 0, Resting, [], [])
  }

  predicate Enabled(s: State, step: Step) {
    match step
    case Acquire(n) => n <= s.core.available
    case FrameCheck(len) => s.reader == Resting && len <= s.unframed
    case FrameRead => s.reader.Checked?
    case FrameNumber => s.reader.Framing?
    case FrameStore => s.reader.Numbered?
    case Break => true
    case AckCall(_, _) => true
    case AckLoad(i) => i < |s.acks| && s.acks[i].Entered?
    case AckReadSent(i) => i < |s.acks| && s.acks[i].Loaded?
    case AckSwap(i, _) => i < |s.acks| && s.acks[i].SawSent?
    case AckRelease(i) => i < |s.acks| && s.acks[i].Won?
  }

  /** The increment `ack` tries to add. */
  function Newly(a: AckPc): nat
    requires a.SawSent? && a.cur < a.incoming
  {
    var room := if a.seen > a.cur then a.seen - a.cur else 0;
    if a.incoming - a.cur < room then a.incoming - a.cur else room
  }

  /** The step itself, on everything but the record of the past. */
  function Act(s: State, step: Step): State
    requires Enabled(s, step)
  {
    var c := s.core;
    match step
    case Acquire(n) => s.(core := c.(available := c.available - n), unframed := s.unframed + n)
    case FrameCheck(len) => if c.broken then s else s.(reader := Checked(len))
    case FrameRead => s.(reader := Framing(c.sent, s.reader.len))
    case FrameNumber =>
      if s.reader.start + s.reader.len >= U64 then s.(core := c.(broken := true), reader := Resting)
      else s.(core := c.(seqNo := SeqAt(c.seqNo, 1)), reader := Numbered(s.reader.start, s.reader.len))
    case FrameStore =>
      s.(core := c.(sent := s.reader.start + s.reader.len),
         // never negative: the reader frames no more than it acquired
         unframed := if s.reader.len <= s.unframed then s.unframed - s.reader.len else 0,
         reader := Resting)
    case Break => s.(core := c.(broken := true))
    case AckCall(e, incoming) =>
      s.(acks := s.acks + [if e != c.epoch || c.broken then Returned(0) else Entered(incoming)])
    case AckLoad(i) => s.(acks := s.acks[i := Loaded(s.acks[i].incoming, c.acked)])
    case AckReadSent(i) =>
      var a := s.acks[i];
      s.(acks := s.acks[i := if a.incoming <= a.cur then Returned(0)
                             else SawSent(a.incoming, a.cur, c.sent, |s.past|)])
    case AckSwap(i, spurious) =>
      var a := s.acks[i];
      if a.incoming <= a.cur || Newly(a) == 0 then s.(acks := s.acks[i := Returned(0)])
      else if c.acked == a.cur && !spurious then
        s.(core := c.(acked := a.cur + Newly(a)), acks := s.acks[i := Won(Newly(a))])
      else s.(acks := s.acks[i := Loaded(a.incoming, c.acked)])
    case AckRelease(i) =>
      var n := s.acks[i].newly;
      s.(core := c.(available := c.available + n), acks := s.acks[i := Returned(n)])
  }

  function Next(s: State, step: Step): State
    requires Enabled(s, step)
  {
    Act(s, step).(past := s.past + [Moment(s.core.acked, s.core.sent)])
  }

  function Run(epoch: nat, steps: seq<Step>): Option<State> {
    if steps == [] then Some(Start(epoch))
    else
      var k := |steps| - 1;
      var before := Run(epoch, steps[..k]);
      if before.Some? && Enabled(before.value, steps[k]) then Some(Next(before.value, steps[k])) else None
  }

  /** Credit an ack has taken off the outstanding bytes but not yet returned. */
  function Owed(a: AckPc): int { if a.Won? then a.newly else 0 }

  /** What an ack has added to `acked`. */
  function Gained(a: AckPc): int { if a.Won? || a.Returned? then a.newly else 0 }

  ghost predicate AckSound(s: State, a: AckPc) {
    match a
    case Entered(_) => true
    case Loaded(_, cur) => cur <= s.core.acked
    case SawSent(incoming, cur, seen, at) =>
      && cur < incoming && cur <= seen <= s.core.sent && cur <= s.core.acked
      && at < |s.past| && s.past[at].sent == seen && cur <= s.past[at].acked
    case Won(_) => true
    case Returned(_) => true
  }

  ghost predicate Inv(s: State) {
    && s.core.acked <= s.core.sent < U64
    && s.core.available + (s.core.sent - s.core.acked) + s.unframed + Sum(s.acks, Owed) == CREDIT_HIGH
    && s.core.acked == Sum(s.acks, Gained)
    && (!s.reader.Resting? ==> s.reader.len <= s.unframed)
    && (s.reader.Framing? || s.reader.Numbered? ==> s.reader.start == s.core.sent)
    && (s.reader.Numbered? ==> s.reader.start + s.reader.len < U64)
    && (forall a :: a in s.acks ==> AckSound(s, a))
    && (forall k :: 0 <= k < |s.past| ==> s.past[k].acked <= s.core.acked && s.past[k].sent <= s.core.sent)
    && (forall j, k :: 0 <= j <= k < |s.past| ==> s.past[j].acked <= s.past[k].acked)
  }

  /** The past only grows, and the counters only rise. */
  ghost predicate Later(s: State, t: State) {
    && t.past == s.past + [Moment(s.core.acked, s.core.sent)]
    && s.core.acked <= t.core.acked && s.core.sent <= t.core.sent
  }

  lemma SoundLater(s: State, t: State, a: AckPc)
    requires AckSound(s, a) && Later(s, t)
    ensures AckSound(t, a)
  {
  }

  lemma AcksLater(s: State, t: State, i: nat)
    requires Later(s, t) && (forall a :: a in s.acks ==> AckSound(s, a))
    requires i < |t.acks| && AckSound(t, t.acks[i])
    requires forall k :: 0 <= k < |t.acks| && k != i ==> t.acks[k] in s.acks
    ensures forall a :: a in t.acks ==> AckSound(t, a)
  {
    forall k | 0 <= k < |t.acks| ensures AckSound(t, t.acks[k]) {
      if k != i {
        SoundLater(s, t, t.acks[k]);
      }
    }
  }

  lemma PastKept(s: State, t: State)
    requires Inv(s) && Later(s, t)
    ensures forall k :: 0 <= k < |t.past| ==> t.past[k].acked <= t.core.acked && t.past[k].sent <= t.core.sent
    ensures forall j, k :: 0 <= j <= k < |t.past| ==> t.past[j].acked <= t.past[k].acked
  {
  }

  lemma ReaderStepKeeps(s: State, step: Step)
    requires Inv(s) && Enabled(s, step)
    requires step.Acquire? || step.FrameCheck? || step.FrameRead? || step.FrameNumber? || step.FrameStore? || step.Break?
    ensures Inv(Next(s, step))
  {
    var t := Next(s, step);
    PastKept(s, t);
    forall a | a in t.acks ensures AckSound(t, a) {
      SoundLater(s, t, a);
    }
  }

  lemma AckStepKeeps(s: State, step: Step)
    requires Inv(s) && Enabled(s, step)
    requires step.AckLoad? || step.AckReadSent? || step.AckSwap? || step.AckRelease?
    ensures Inv(Next(s, step))
  {
    hide Sum;
    var t := Next(s, step);
    var i := step.i;
    assert s.acks[i] in s.acks;
    SumUpdate(s.acks, i, t.acks[i], Owed);
    SumUpdate(s.acks, i, t.acks[i], Gained);
    assert t.acks == s.acks[i := t.acks[i]];
    PastKept(s, t);
    AcksLater(s, t, i);
  }

  lemma AckCallKeeps(s: State, epoch: nat, incoming: nat)
    requires Inv(s)
    ensures Inv(Next(s, AckCall(epoch, incoming)))
  {
    hide Sum;
    var t := Next(s, AckCall(epoch, incoming));
    SumAppend(s.acks, t.acks[|s.acks|], Owed);
    SumAppend(s.acks, t.acks[|s.acks|], Gained);
    PastKept(s, t);
    AcksLater(s, t, |s.acks|);
  }

  lemma {:induction false} RunKeeps(epoch: nat, steps: seq<Step>)
    requires Run(epoch, steps).Some?
    ensures Inv(Run(epoch, steps).value)
  {
    if steps != [] {
      hide Inv, Next, Enabled;
      var k := |steps| - 1;
      RunKeeps(epoch, steps[..k]);
      StepKeeps(Run(epoch, steps[..k]).value, steps[k]);
    }
  }

  lemma StepKeeps(s: State, step: Step)
    requires Inv(s) && Enabled(s, step)
    ensures Inv(Next(s, step))
  {
    hide Inv, Next;
    match step
    case AckCall(e, incoming) => AckCallKeeps(s, e, incoming);
    case AckLoad(_) => AckStepKeeps(s, step);
    case AckReadSent(_) => AckStepKeeps(s, step);
    case AckSwap(_, _) => AckStepKeeps(s, step);
    case AckRelease(_) => AckStepKeeps(s, step);
    case _ => ReaderStepKeeps(s, step);
  }

  /** Credit is conserved in every interleaving: what is available, what is sent
      and unacknowledged, what is acquired and not framed, and what an ack has
      won but not returned always add up to the window; acks never overtake. */
  lemma CreditConserved(epoch: nat, steps: seq<Step>)
    requires Run(epoch, steps).Some?
    ensures var s := Run(epoch, steps).value;
            && s.core.acked <= s.core.sent
            && s.core.available + (s.core.sent - s.core.acked) + s.unframed + Sum(s.acks, Owed) == 8 * 1024 * 1024
  {
    RunKeeps(epoch, steps);
  }

  /** A frame that was checked, read, numbered and stored advances `sent` by exactly
      its length and takes exactly one number, whatever acks do in between; nothing
      else moves `sent`. A break or an overflow breaks the epoch for good, and a
      broken epoch starts no frame. */
  lemma FramesAdvanceSent(epoch: nat, steps: seq<Step>, step: Step)
    requires Run(epoch, steps).Some? && Enabled(Run(epoch, steps).value, step)
    ensures var s := Run(epoch, steps).value;
            var t := Next(s, step);
            && t.core.sent == s.core.sent + (if step.FrameStore? then s.reader.len else 0)
            && t.unframed == s.unframed + (if step.Acquire? then step.n else 0) - (if step.FrameStore? then s.reader.len else 0)
            && (t.core.seqNo != s.core.seqNo ==> step.FrameNumber? && t.core.seqNo == SeqAt(s.core.seqNo, 1))
            && (step.FrameCheck? && !s.core.broken ==> t.reader == Checked(step.len))
            && (step.FrameRead? ==> t.reader == Framing(s.core.sent, s.reader.len))
            && (step.FrameNumber? && s.reader.start + s.reader.len < U64 ==>
                  t.reader == Numbered(s.reader.start, s.reader.len) && t.core.seqNo == SeqAt(s.core.seqNo, 1))
            && (t.core.broken <==>
                  s.core.broken || step.Break? || (step.FrameNumber? && s.reader.start + s.reader.len >= U64))
            && (s.core.broken && step.FrameCheck? ==> t.reader == s.reader)
  {
    RunKeeps(epoch, steps);
  }

  /** `acked` is exactly what the acks report as newly acknowledged: no byte is
      credited twice and none is credited by nobody. */
  lemma AcksSumToAcked(epoch: nat, steps: seq<Step>)
    requires Run(epoch, steps).Some?
    ensures var s := Run(epoch, steps).value; s.core.acked == Sum(s.acks, Gained)
  {
    RunKeeps(epoch, steps);
  }

  /** An ack that nobody interferes with does what `AckSpec` says of the state it is
      called in: it is dropped, or raises `acked` and returns the difference. */
  lemma AckAlone(s: State, epoch: nat, incoming: nat)
    requires Inv(s)
    ensures var i := |s.acks|;
            var (c, newly) := AckSpec(s.core, epoch, incoming);
            var called := Next(s, AckCall(epoch, incoming));
            if epoch != s.core.epoch || s.core.broken then called.acks[i] == Returned(0) && called.core == s.core == c
            else
              var loaded := Next(called, AckLoad(i));
              var read := Next(loaded, AckReadSent(i));
              if incoming <= s.core.acked then read.acks[i] == Returned(0) && read.core == s.core == c
              else
                var swapped := Next(read, AckSwap(i, false));
                if newly == 0 then swapped.acks[i] == Returned(0) && swapped.core == s.core == c
                else
                  var done := Next(swapped, AckRelease(i));
                  done.acks[i] == Returned(newly) && done.core == c
  {
  }

  function Min(a: nat, b: nat): nat { if a < b then a else b }
  function Max(a: nat, b: nat): nat { if a < b then b else a }

  /** Every accepted ack takes effect at one instant: the moment `at` when it
      read `sent`. No other ack changed `acked` from then until its swap, and
      the swap stores max(acked, min(incoming, sent)) of that moment. */
  lemma AckLinearises(epoch: nat, steps: seq<Step>, i: nat)
    requires Run(epoch, steps).Some?
    requires var s := Run(epoch, steps).value;
             Enabled(s, AckSwap(i, false)) && Next(s, AckSwap(i, false)).core.acked != s.core.acked
    ensures var s := Run(epoch, steps).value;
            var a, t := s.acks[i], Next(s, AckSwap(i, false));
            && a.at < |s.past|
            && s.past[a.at].sent == a.seen
            && (forall k :: a.at <= k < |s.past| ==> s.past[k].acked == s.core.acked)
            && t.core.acked == Max(s.past[a.at].acked, Min(a.incoming, s.past[a.at].sent))
            && t.acks[i] == Won(t.core.acked - s.core.acked)
  {
    RunKeeps(epoch, steps);
    var s := Run(epoch, steps).value;
    assert s.acks[i] in s.acks;
    assert AckSound(s, s.acks[i]);
  }

  /** An ack that has nothing to add: it has returned zero, or will at its next
      comparison with `acked`. */
  predicate Idle(s: State, a: AckPc) {
    match a
    case Entered(incoming) => incoming <= s.core.acked
    case Loaded(incoming, cur) => incoming <= cur
    case Returned(newly) => newly == 0
    case _ => false
  }

  lemma IdleStays(s: State, step: Step, i: nat)
    requires Enabled(s, step) && i < |s.acks| && Idle(s, s.acks[i])
    ensures i < |Next(s, step).acks| && Idle(Next(s, step), Next(s, step).acks[i])
  {
  }

  /** An ack for another epoch, after a break, or for nothing beyond what was
      acknowledged when it was called is idle in every later state, however it
      interleaves: it never gets as far as reading `sent`, never wins a swap and
      adds nothing to `acked` or to the credit. */
  lemma {:induction false} StaleAcksChangeNothing(epoch: nat, steps: seq<Step>, p: nat)
    requires p < |steps| && Run(epoch, steps).Some? && Run(epoch, steps[..p]).Some? && steps[p].AckCall?
    requires var s := Run(epoch, steps[..p]).value;
             steps[p].epoch != s.core.epoch || s.core.broken || steps[p].incoming <= s.core.acked
    ensures var i, t := |Run(epoch, steps[..p]).value.acks|, Run(epoch, steps).value;
            i < |t.acks| && Idle(t, t.acks[i]) && Gained(t.acks[i]) == 0 && Owed(t.acks[i]) == 0
  {
    var n := |steps| - 1;
    if p == n {
      assert steps[..p] == steps[..n];
    } else {
      hide Next, Enabled;
      assert steps[..n][..p] == steps[..p];
      StaleAcksChangeNothing(epoch, steps[..n], p);
      IdleStays(Run(epoch, steps[..n]).value, steps[n], |Run(epoch, steps[..p]).value.acks|);
    }
  }

  /** A well-behaved acknowledgement, not beyond what it saw sent, raises
      `acked` to exactly the acknowledged offset. */
  lemma HonestAckIsExact(epoch: nat, steps: seq<Step>, i: nat)
    requires Run(epoch, steps).Some?
    requires var s := Run(epoch, steps).value;
             Enabled(s, AckSwap(i, false)) && s.acks[i].cur == s.core.acked && s.acks[i].incoming <= s.acks[i].seen
    ensures var s := Run(epoch, steps).value;
            Next(s, AckSwap(i, false)).core.acked == s.acks[i].incoming
  {
    RunKeeps(epoch, steps);
    var s := Run(epoch, steps).value;
    assert s.acks[i] in s.acks;
    assert AckSound(s, s.acks[i]);
  }
}
