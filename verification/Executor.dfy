/** `Executor::run`, the pause/cancel/permit/retry loop shared by the transfer
    queue and the directory jobs. What the environment decides (every flag read
    and every transfer outcome) comes from a script; what the loop does is a log
    of events, judged by a monitor that knows nothing of the loop. */
module Executor {
  import opened Options

  datatype TransferState = Done | Failed | Canceled

  datatype Event =
    | Begin  // nothing yet
    | ReadCancel(on: bool) | ReadPause(on: bool)
    | PauseEdge(entering: bool) | PauseWait | Gate | Backoff
    | Acquire | Release
    | Prepare(attempt: nat) | Transfer(ok: bool) | DropGuard
    | CancelTerminal
    | Report(end: Option<TransferState>)  // `None`: will retry
    | MarkSuspect

  // ---------- what may come after what ----------

  /** The last four events, `d` the latest. */
  datatype Recent = Recent(a: Event, b: Event, c: Event, d: Event)

  function Later(r: Recent, e: Event): Recent { Recent(r.b, r.c, r.d, e) }

  /** The last event was a flag read of the second look, made under the permit. */
  predicate SecondLook(r: Recent) { r.d.ReadCancel? && r.c == Acquire }
  predicate SecondLookPause(r: Recent, on: bool) {
    r.d == ReadPause(on) && r.c == ReadCancel(false) && r.b == Acquire
  }

  /** The last event was a flag read after a failed transfer. */
  predicate FailedThenCancel(r: Recent, on: bool) {
    r.d == ReadCancel(on) && r.c == Release && r.b == Transfer(false)
  }
  predicate FailedThenPause(r: Recent, on: bool) {
    r.d == ReadPause(on) && r.c == ReadCancel(false) && r.b == Release && r.a == Transfer(false)
  }

  /** The last event was a flag read of the pause wait. */
  predicate WaitPause(r: Recent, on: bool) { r.d == ReadPause(on) && (r.c == PauseEdge(true) || r.c == PauseWait) }
  predicate WaitCancel(r: Recent, on: bool) {
    r.d == ReadCancel(on) && r.c == ReadPause(true) && (r.b == PauseEdge(true) || r.b == PauseWait)
  }

  /** The last event was a flag read at the top of the loop. */
  predicate TopCancel(r: Recent, on: bool) {
    r.d == ReadCancel(on) && !SecondLook(r) && !FailedThenCancel(r, on) && !WaitCancel(r, on)
  }
  predicate TopPause(r: Recent, on: bool) {
    r.d == ReadPause(on) && r.c == ReadCancel(false) && !SecondLookPause(r, on) && !FailedThenPause(r, on)
  }

  /** Where the loop goes round. */
  predicate AtHead(r: Recent) {
    || r.d == Begin || r.d == PauseEdge(false) || r.d == Backoff || r.d == DropGuard
    || (r.d == Release && !r.c.Transfer?)
  }

  /** The grammar of a run: what must just have happened for each event. */
  predicate InPlace(r: Recent, e: Event) {
    match e
    case Begin => false
    case ReadCancel(_) =>
      AtHead(r) || r.d == Acquire || (r.d == Release && r.c == Transfer(false)) || WaitPause(r, true)
    case ReadPause(_) =>
      || TopCancel(r, false) || (SecondLook(r) && r.d == ReadCancel(false)) || FailedThenCancel(r, false)
      || r.d == PauseEdge(true) || r.d == PauseWait
    case PauseEdge(true) => TopPause(r, true)
    case PauseEdge(false) => WaitPause(r, false) || WaitCancel(r, true)
    case PauseWait => WaitCancel(r, false)
    case Gate => TopPause(r, false)
    case Acquire => r.d == Gate
    case Prepare(_) => SecondLookPause(r, false)
    case Transfer(_) => r.d.Prepare? && r.c == ReadPause(false) && r.b == ReadCancel(false) && r.a == Acquire
    case Release => r.d.Transfer? || (SecondLook(r) && r.d == ReadCancel(true)) || SecondLookPause(r, true)
    case DropGuard => FailedThenPause(r, true)
    case MarkSuspect => FailedThenPause(r, false)
    case Report(None) => r.d == MarkSuspect
    case Report(Some(Failed)) => r.d == MarkSuspect
    case Report(Some(Done)) => r.d == Release && r.c == Transfer(true)
    case Report(Some(Canceled)) => FailedThenCancel(r, true)
    case CancelTerminal => TopCancel(r, true)
    case Backoff => r.d == Report(None)
  }

  // ---------- the observer ----------

  /** After a failed transfer: nothing read yet, or `cancel` read as unset. */
  datatype After = Nothing | Errored | NotCanceled

  /** What an observer keeps: the last events, whether a permit and an attempt
      guard are out, how many transfers were called, how many failed with neither
      flag set, how many were interrupted by a pause, whether one succeeded, and
      how the run ended. */
  datatype Monitor = Monitor(
    recent: Recent, bad: bool, permit: bool, guard: bool, after: After,
    calls: nat, failures: nat, interrupted: nat, won: bool, ended: Option<TransferState>)

  const FRESH := Monitor(Recent(Begin, Begin, Begin, Begin), false, false, false, Nothing, 0, 0, 0, false, None)

  /** The rules of the run. A broken rule sets `bad` for good. */
  function Feed(maxRetries: nat, m: Monitor, e: Event): Monitor {
    Rules(maxRetries, m, e).(recent := Later(m.recent, e))
  }

  function Rules(maxRetries: nat, m: Monitor, e: Event): Monitor {
    var late := m.bad || m.ended.Some? || !InPlace(m.recent, e);
    match e
    case Begin => m.(bad := true)
    case ReadCancel(on) =>
      m.(bad := late, after := if m.after == Errored && !on then NotCanceled else m.after)
    case ReadPause(on) =>
      if m.after == NotCanceled then
        m.(bad := late, after := Nothing,
           interrupted := m.interrupted + (if on then 1 else 0), failures := m.failures + (if on then 0 else 1))
      else m.(bad := late)
    // a permit is never held across a pause, the priority gate or a back-off
    case PauseEdge(_) => m.(bad := late || m.permit || m.guard)
    case PauseWait => m.(bad := late || m.permit || m.guard)
    case Gate => m.(bad := late || m.permit || m.guard)
    case Backoff => m.(bad := late || m.permit || m.guard)
    case Acquire => m.(bad := late || m.permit, permit := true)
    case Release => m.(bad := late || !m.permit, permit := false)
    // one guard per attempt, taken under a permit and consumed exactly once
    case Prepare(attempt) => m.(bad := late || !m.permit || m.guard || attempt != m.failures, guard := true)
    case Transfer(ok) =>
      m.(bad := late || !m.permit || !m.guard || m.won, calls := m.calls + 1, won := m.won || ok,
         after := if ok then Nothing else Errored)
    case DropGuard => m.(bad := late || !m.guard || m.permit, guard := false)
    case MarkSuspect => m.(bad := late)
    case CancelTerminal => m.(bad := late || m.permit || m.guard, ended := Some(Canceled))
    case Report(None) =>
      m.(bad := late || !m.guard || m.permit || m.failures == 0 || m.failures > maxRetries, guard := false)
    case Report(Some(s)) =>
      m.(bad := late || !m.guard || m.permit || (s == Failed && m.failures != maxRetries + 1)
                || (s == Canceled && m.after != Errored) || (s == Done) != m.won,
         guard := false, after := Nothing, ended := Some(s))
  }

  function Watch(maxRetries: nat, log: seq<Event>): Monitor {
    if log == [] then FRESH
    else Feed(maxRetries, Watch(maxRetries, log[..|log| - 1]), log[|log| - 1])
  }

  /** What the environment answered, in order: flag reads and transfer outcomes. */
  function Answers(log: seq<Event>): seq<bool> {
    if log == [] then []
    else
      var e := log[|log| - 1];
      Answers(log[..|log| - 1]) +
      (match e case ReadCancel(on) => [on] case ReadPause(on) => [on] case Transfer(ok) => [ok] case _ => [])
  }

  /** The log so far, as observed, has used the script up to `i`. */
  ghost predicate Kept(maxRetries: nat, script: seq<bool>, i: nat, log: seq<Event>, m: Monitor) {
    i <= |script| && m == Watch(maxRetries, log) && Answers(log) == script[..i]
  }

  /** Appends an event that asks nothing and keeps the observer up to date. */
  method Say(maxRetries: nat, ghost script: seq<bool>, ghost i: nat, log: seq<Event>, ghost m: Monitor, e: Event)
    returns (more: seq<Event>, ghost n: Monitor)
    requires Kept(maxRetries, script, i, log, m) && !e.ReadCancel? && !e.ReadPause? && !e.Transfer?
    ensures Kept(maxRetries, script, i, more, n) && n == Feed(maxRetries, m, e) && more == log + [e]
  {
    more, n := log + [e], Feed(maxRetries, m, e);
    assert more[..|log|] == log;
  }

  /** Appends an event that carries the next answer of the script. */
  method Ask(maxRetries: nat, script: seq<bool>, i: nat, log: seq<Event>, ghost m: Monitor, e: Event)
    returns (more: seq<Event>, ghost n: Monitor)
    requires Kept(maxRetries, script, i, log, m) && i < |script|
    requires e == ReadCancel(script[i]) || e == ReadPause(script[i]) || e == Transfer(script[i])
    ensures Kept(maxRetries, script, i + 1, more, n) && n == Feed(maxRetries, m, e) && more == log + [e]
  {
    more, n := log + [e], Feed(maxRetries, m, e);
    assert more[..|log|] == log;
    assert script[..i + 1] == script[..i] + [script[i]];
  }

  /** At the top of the loop nothing is held and no failure is undecided. */
  ghost predicate AtTop(maxRetries: nat, m: Monitor, attempt: nat) {
    && !m.bad && !m.permit && !m.guard && m.after == Nothing && m.ended == None && !m.won
    && m.failures == attempt <= maxRetries && m.calls == m.failures + m.interrupted
  }

  /** What is true of the whole log, finished or cut short. */
  ghost predicate Disciplined(maxRetries: nat, m: Monitor, r: Option<TransferState>) {
    && !m.bad
    && m.ended == r
    && (r.Some? ==> !m.permit && !m.guard)
    && (r == Some(Failed) <==> m.failures == maxRetries + 1)
    && (r == Some(Done) <==> m.won)
    && m.failures <= maxRetries + 1
    && m.calls <= maxRetries + 1 + m.interrupted
    && (r == Some(Done) ==> m.calls == m.failures + m.interrupted + 1)
  }

  /** The wait of a paused transfer: until unpaused or cancelled. */
  method WaitUnpaused(maxRetries: nat, script: seq<bool>, from: nat, said: seq<Event>, ghost seen: Monitor)
    returns (i: nat, log: seq<Event>, ghost m: Monitor, cut: bool)
    requires Kept(maxRetries, script, from, said, seen) && AtTop(maxRetries, seen, seen.failures)
    requires seen.recent.d == PauseEdge(true)
    ensures from <= i && Kept(maxRetries, script, i, log, m) && m == seen.(recent := m.recent)
    ensures if cut then i == |script| else WaitPause(m.recent, false) || WaitCancel(m.recent, true)
  {
    hide Watch, Kept;
    i, log, m, cut := from, said, seen, false;
    KeptBound(maxRetries, script, i, log, m);
    while true
      invariant from <= i <= |script| && Kept(maxRetries, script, i, log, m) && m == seen.(recent := m.recent)
      invariant m.recent.d == PauseEdge(true) || m.recent.d == PauseWait
      decreases |script| - i
    {
      if i == |script| { cut := true; return; }
      var paused := script[i];
      log, m := Ask(maxRetries, script, i, log, m, ReadPause(paused));
      i := i + 1;
      if !paused { return; }
      if i == |script| { cut := true; return; }
      var canceled := script[i];
      log, m := Ask(maxRetries, script, i, log, m, ReadCancel(canceled));
      i := i + 1;
      if canceled { return; }
      log, m := Say(maxRetries, script, i, log, m, PauseWait);
    }
  }

  lemma KeptBound(maxRetries: nat, script: seq<bool>, i: nat, log: seq<Event>, m: Monitor)
    requires Kept(maxRetries, script, i, log, m)
    ensures i <= |script| && m == Watch(maxRetries, log) && Answers(log) == script[..i]
  {
  }

  /** How one pass over the attempt part of the loop went on. */
  datatype Turn = Again(attempt: nat) | Returned(s: TransferState) | Cut

  ghost predicate Fits(maxRetries: nat, script: seq<bool>, i: nat, m: Monitor, turn: Turn) {
    match turn
    case Again(attempt) => AtTop(maxRetries, m, attempt) && AtHead(m.recent)
    case Returned(s) => Disciplined(maxRetries, m, Some(s))
    case Cut => Disciplined(maxRetries, m, None) && i == |script|
  }

  /** A transfer has failed and the permit is back: cancelled, interrupted by a
      pause, or a real failure to retry or to give up on. */
  method Decide(maxRetries: nat, script: seq<bool>, from: nat, attempt: nat, said: seq<Event>, ghost seen: Monitor)
    returns (turn: Turn, i: nat, log: seq<Event>, ghost m: Monitor)
    requires from <= |script| && Kept(maxRetries, script, from, said, seen)
    requires seen.after == Errored && seen.guard && seen.calls > 0
    requires seen.recent.d == Release && seen.recent.c == Transfer(false)
    requires AtTop(maxRetries, seen.(after := Nothing, guard := false, calls := seen.calls - 1), attempt)
    ensures from <= i <= |script| && Kept(maxRetries, script, i, log, m)
    ensures Fits(maxRetries, script, i, m, turn)
  {
    hide Watch, Kept;
    i, log, m := from, said, seen;
    if i == |script| { return Cut, i, log, m; }
    var canceled := script[i];
    log, m := Ask(maxRetries, script, i, log, m, ReadCancel(canceled));
    i := i + 1;
    if canceled {
      log, m := Say(maxRetries, script, i, log, m, Report(Some(Canceled)));
      return Returned(Canceled), i, log, m;
    }
    if i == |script| { return Cut, i, log, m; }
    var paused := script[i];
    log, m := Ask(maxRetries, script, i, log, m, ReadPause(paused));
    i := i + 1;
    if paused {
      log, m := Say(maxRetries, script, i, log, m, DropGuard);
      return Again(attempt), i, log, m;
    }
    turn, log, m := CountFailure(maxRetries, script, i, attempt, log, m);
  }

  /** A real failure: retry after a back-off, or give up. */
  method CountFailure(
    maxRetries: nat, ghost script: seq<bool>, ghost i: nat, attempt: nat, said: seq<Event>, ghost seen: Monitor)
    returns (turn: Turn, log: seq<Event>, ghost m: Monitor)
    requires Kept(maxRetries, script, i, said, seen) && FailedThenPause(seen.recent, false)
    requires seen.guard && seen.calls > 0 && seen.failures == attempt + 1
    requires AtTop(maxRetries, seen.(guard := false, calls := seen.calls - 1, failures := attempt), attempt)
    ensures Kept(maxRetries, script, i, log, m) && !turn.Cut? && Fits(maxRetries, script, i, m, turn)
  {
    hide Watch, Kept;
    log, m := Say(maxRetries, script, i, said, seen, MarkSuspect);
    if attempt + 1 > maxRetries {
      log, m := Say(maxRetries, script, i, log, m, Report(Some(Failed)));
      return Returned(Failed), log, m;
    }
    log, m := Say(maxRetries, script, i, log, m, Report(None));
    log, m := Say(maxRetries, script, i, log, m, Backoff);
    turn := Again(attempt + 1);
  }

  /** Prepare, transfer, release, and decide; the permit is held on entry and both
      flags were just read as unset. */
  method Attempt(maxRetries: nat, script: seq<bool>, from: nat, attempt: nat, said: seq<Event>, ghost seen: Monitor)
    returns (turn: Turn, i: nat, log: seq<Event>, ghost m: Monitor)
    requires from <= |script| && Kept(maxRetries, script, from, said, seen)
    requires seen.permit && AtTop(maxRetries, seen.(permit := false), attempt) && SecondLookPause(seen.recent, false)
    ensures from <= i <= |script| && Kept(maxRetries, script, i, log, m)
    ensures Fits(maxRetries, script, i, m, turn)
  {
    hide Watch, Kept;
    i, log, m := from, said, seen;
    if i == |script| { return Cut, i, log, m; }
    var ok := script[i];
    log, m := Say(maxRetries, script, i, log, m, Prepare(attempt));
    log, m := Ask(maxRetries, script, i, log, m, Transfer(ok));
    i := i + 1;
    log, m := Say(maxRetries, script, i, log, m, Release);
    if ok {
      log, m := Say(maxRetries, script, i, log, m, Report(Some(Done)));
      turn := Returned(Done);
    } else {
      turn, i, log, m := Decide(maxRetries, script, i, attempt, log, m);
    }
  }

  /** The way to the permit: the top of the loop, the pause, the gate and the
      second look. `go` tells whether the permit is held and no flag was set. */
  method Approach(maxRetries: nat, script: seq<bool>, from: nat, attempt: nat, said: seq<Event>, ghost seen: Monitor)
    returns (turn: Turn, go: bool, i: nat, log: seq<Event>, ghost m: Monitor)
    requires from < |script| && Kept(maxRetries, script, from, said, seen)
    requires AtTop(maxRetries, seen, attempt) && AtHead(seen.recent)
    ensures from < i <= |script| && Kept(maxRetries, script, i, log, m)
    ensures if go then m.permit && AtTop(maxRetries, m.(permit := false), attempt) && SecondLookPause(m.recent, false)
            else Fits(maxRetries, script, i, m, turn) && (turn.Again? ==> turn.attempt == attempt)
  {
    hide Watch, Kept;
    i, log, m, go := from, said, seen, false;
    var canceled := script[i];
    log, m := Ask(maxRetries, script, i, log, m, ReadCancel(canceled));
    i := i + 1;
    if canceled {
      log, m := Say(maxRetries, script, i, log, m, CancelTerminal);
      return Returned(Canceled), false, i, log, m;
    }
    if i == |script| { return Cut, false, i, log, m; }
    var paused := script[i];
    log, m := Ask(maxRetries, script, i, log, m, ReadPause(paused));
    i := i + 1;
    if paused {
      turn, i, log, m := SitOut(maxRetries, script, i, attempt, log, m);
      return turn, false, i, log, m;
    }
    log, m := Say(maxRetries, script, i, log, m, Gate);
    log, m := Say(maxRetries, script, i, log, m, Acquire);
    turn, go, i, log, m := LookAgain(maxRetries, script, i, attempt, log, m);
  }

  /** A pause seen at the top of the loop. */
  method SitOut(maxRetries: nat, script: seq<bool>, from: nat, attempt: nat, said: seq<Event>, ghost seen: Monitor)
    returns (turn: Turn, i: nat, log: seq<Event>, ghost m: Monitor)
    requires from <= |script| && Kept(maxRetries, script, from, said, seen)
    requires AtTop(maxRetries, seen, attempt) && TopPause(seen.recent, true)
    ensures from <= i <= |script| && Kept(maxRetries, script, i, log, m)
    ensures Fits(maxRetries, script, i, m, turn) && (turn.Again? ==> turn.attempt == attempt)
  {
    hide Watch, Kept;
    log, m := Say(maxRetries, script, from, said, seen, PauseEdge(true));
    var cut;
    i, log, m, cut := WaitUnpaused(maxRetries, script, from, log, m);
    KeptBound(maxRetries, script, i, log, m);
    if cut { return Cut, i, log, m; }
    log, m := Say(maxRetries, script, i, log, m, PauseEdge(false));
    turn := Again(attempt);
  }

  /** A pause or cancel may have come while waiting for the permit. */
  method LookAgain(maxRetries: nat, script: seq<bool>, from: nat, attempt: nat, said: seq<Event>, ghost seen: Monitor)
    returns (turn: Turn, go: bool, i: nat, log: seq<Event>, ghost m: Monitor)
    requires from <= |script| && Kept(maxRetries, script, from, said, seen)
    requires seen.permit && AtTop(maxRetries, seen.(permit := false), attempt) && seen.recent.d == Acquire
    ensures from <= i <= |script| && Kept(maxRetries, script, i, log, m)
    ensures if go then m.permit && AtTop(maxRetries, m.(permit := false), attempt) && SecondLookPause(m.recent, false)
            else Fits(maxRetries, script, i, m, turn) && (turn.Again? ==> turn.attempt == attempt)
  {
    hide Watch, Kept;
    i, log, m, go := from, said, seen, false;
    if i == |script| { return Cut, false, i, log, m; }
    var canceled := script[i];
    log, m := Ask(maxRetries, script, i, log, m, ReadCancel(canceled));
    i := i + 1;
    var paused := false;
    if !canceled {
      if i == |script| { return Cut, false, i, log, m; }
      paused := script[i];
      log, m := Ask(maxRetries, script, i, log, m, ReadPause(paused));
      i := i + 1;
    }
    if canceled || paused {
      log, m := Say(maxRetries, script, i, log, m, Release);
      return Again(attempt), false, i, log, m;
    }
    return Cut, true, i, log, m;
  }

  /** The loop. `None` means the script ended first: the run is still going. For
      every script the log obeys the grammar and the rules, and it has asked the
      script's answers in order, all of them if the run is still going. */
  method Run(maxRetries: nat, script: seq<bool>) returns (r: Option<TransferState>, log: seq<Event>)
    ensures Disciplined(maxRetries, Watch(maxRetries, log), r)
    ensures Answers(log) <= script && (r == None ==> Answers(log) == script)
  {
    log := [];
    var attempt, i := 0, 0;
    ghost var m := FRESH;
    assert Kept(maxRetries, script, i, log, m);
    hide Watch, Kept, Answers;
    while i < |script|
      invariant i <= |script| && Kept(maxRetries, script, i, log, m) && AtTop(maxRetries, m, attempt) && AtHead(m.recent)
      decreases |script| - i
    {
      var turn, go;
      turn, go, i, log, m := Approach(maxRetries, script, i, attempt, log, m);
      if go {
        turn, i, log, m := Attempt(maxRetries, script, i, attempt, log, m);
      }
      KeptBound(maxRetries, script, i, log, m);
      match turn {
        case Again(a) => attempt := a;
        case Returned(s) => return Some(s), log;
        case Cut => return None, log;
      }
    }
    KeptBound(maxRetries, script, i, log, m);
    return None, log;
  }

  // ---------- what the observer's verdict means, of the log alone ----------

  function Count(log: seq<Event>, p: Event -> bool): nat {
    if log == [] then 0
    else Count(log[..|log| - 1], p) + if p(log[|log| - 1]) then 1 else 0
  }

  predicate Ends(e: Event) { e == CancelTerminal || (e.Report? && e.end.Some?) }
  predicate Takes(e: Event) { e.Prepare? }
  predicate Gives(e: Event) { e == DropGuard || e.Report? }
  predicate Calls(e: Event) { e.Transfer? }

  function One(b: bool): nat { if b then 1 else 0 }

  /** The k-th last event of a log. */
  function Back(log: seq<Event>, k: nat): Event {
    if k < |log| then log[|log| - 1 - k] else Begin
  }

  function Latest(log: seq<Event>): Recent { Recent(Back(log, 3), Back(log, 2), Back(log, 1), Back(log, 0)) }

  lemma FeedLaws(maxRetries: nat, m: Monitor, e: Event)
    requires !Feed(maxRetries, m, e).bad
    ensures var n := Feed(maxRetries, m, e);
            && !m.bad && m.ended == None && InPlace(m.recent, e)
            && One(n.guard) + One(Gives(e)) == One(m.guard) + One(Takes(e))
            && n.ended.Some? == Ends(e)
            && n.calls == m.calls + One(Calls(e))
            && (n.won <==> m.won || e == Transfer(true)) && (e.Transfer? ==> !m.won)
  {
    hide InPlace;
  }

  /** An accepted log has consumed every guard it took except one still out, has
      at most one terminal notification, which is the one that ended it, and
      counts its transfer calls. */
  lemma {:induction false} AcceptedLog(maxRetries: nat, log: seq<Event>)
    requires !Watch(maxRetries, log).bad
    ensures var m := Watch(maxRetries, log);
            && Count(log, Takes) == Count(log, Gives) + One(m.guard)
            && Count(log, Ends) == One(m.ended.Some?)
            && Count(log, Calls) == m.calls
            && m.recent == Latest(log)
  {
    hide Rules;
    if log != [] {
      var k := |log| - 1;
      FeedLaws(maxRetries, Watch(maxRetries, log[..k]), log[k]);
      AcceptedLog(maxRetries, log[..k]);
      assert forall i: nat :: i < k ==> log[..k][i] == log[i];
    }
  }

  /** Every event of an accepted log is in its place after those before it. */
  lemma {:induction false} AcceptedGrammar(maxRetries: nat, log: seq<Event>, k: nat)
    requires !Watch(maxRetries, log).bad && k < |log|
    ensures InPlace(Latest(log[..k]), log[k])
  {
    hide InPlace, Rules, Latest;
    var n := |log| - 1;
    FeedLaws(maxRetries, Watch(maxRetries, log[..n]), log[n]);
    if k < n {
      AcceptedGrammar(maxRetries, log[..n], k);
      assert log[..n][..k] == log[..k];
    } else {
      AcceptedLog(maxRetries, log[..k]);
    }
  }

  /** In particular each transfer comes right after acquiring a permit, reading
      both flags as unset and preparing: a second look that saw a flag set leads
      to no transfer. */
  lemma TransferIsGuarded(maxRetries: nat, log: seq<Event>, k: nat)
    requires !Watch(maxRetries, log).bad && k < |log| && log[k].Transfer?
    ensures k >= 4 && log[k - 1].Prepare?
    ensures log[k - 4..k - 1] == [Acquire, ReadCancel(false), ReadPause(false)]
  {
    hide Watch, InPlace;
    AcceptedGrammar(maxRetries, log, k);
    TransferPlace(Latest(log[..k]), log[k].ok);
  }

  lemma TransferPlace(r: Recent, ok: bool)
    requires InPlace(r, Transfer(ok))
    ensures r.a == Acquire && r.b == ReadCancel(false) && r.c == ReadPause(false) && r.d.Prepare?
  {
  }

  /** In an accepted log a successful transfer is the last one. */
  lemma {:induction false} AcceptedWin(maxRetries: nat, log: seq<Event>)
    requires !Watch(maxRetries, log).bad
    ensures Watch(maxRetries, log).won <==> exists k :: 0 <= k < |log| && log[k] == Transfer(true)
    ensures forall k, j :: 0 <= k < j < |log| && log[k] == Transfer(true) ==> !log[j].Transfer?
  {
    hide Rules;
    if log != [] {
      var n := |log| - 1;
      FeedLaws(maxRetries, Watch(maxRetries, log[..n]), log[n]);
      AcceptedWin(maxRetries, log[..n]);
      assert forall k :: 0 <= k < n ==> log[..n][k] == log[k];
      if k :| 0 <= k < n && log[k] == Transfer(true) {
        assert log[..n][k] == Transfer(true);
      }
    }
  }

  /** The result of a run, read off its log: Done if and only if a transfer
      succeeded, which is then the last one; Failed if and only if the allowed
      number of transfers failed with neither flag set. */
  lemma ResultIsInLog(maxRetries: nat, log: seq<Event>, r: Option<TransferState>)
    requires Disciplined(maxRetries, Watch(maxRetries, log), r)
    ensures r == Some(Done) <==> exists k :: 0 <= k < |log| && log[k] == Transfer(true)
    ensures r == Some(Done) ==> |log| >= 3 && log[|log| - 3..] == [Transfer(true), Release, Report(Some(Done))]
    ensures r == Some(Failed) <==> Watch(maxRetries, log).failures == maxRetries + 1
    ensures r == Some(Canceled) ==> |log| >= 2 && log[|log| - 2] == ReadCancel(true)
  {
    AcceptedWin(maxRetries, log);
    if r.Some? {
      EndedLog(maxRetries, log);
      var n := |log| - 1;
      AcceptedGrammar(maxRetries, log, n);
      hide Watch;
      assert Back(log[..n], 0) == if n >= 1 then log[n - 1] else Begin;
      assert Back(log[..n], 1) == if n >= 2 then log[n - 2] else Begin;
    }
  }

  /** The last event of an ended log is its terminal notification, and it names
      the returned state. */
  lemma EndedLog(maxRetries: nat, log: seq<Event>)
    requires !Watch(maxRetries, log).bad && Watch(maxRetries, log).ended.Some?
    ensures log != []
    ensures var e, s := log[|log| - 1], Watch(maxRetries, log).ended.value;
            if e == CancelTerminal then s == Canceled else e == Report(Some(s))
  {
    hide InPlace;
  }
}
