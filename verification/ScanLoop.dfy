/** The coordinator's steps of `Scan` in the order of its loop: place what is held,
    start operations, check for the end, wait for one message. `Scan` allows any
    order; here the exact safe size is shown to be that of the ordered loop too. */
module ScanLoop {
  import opened Options
  import opened Scan

  /** Where in its round the coordinator is. */
  datatype Turn = Placing | Spawning | Checking | Waiting

  datatype Loop = Loop(s: State, turn: Turn)

  /** `Wake` is the end of a wait without a message: a control signal or the poll. */
  datatype LoopStep = Do(e: Step) | EndPlacing | EndSpawning | EndChecking | Wake

  function Begin(roots: seq<Item>): Loop { Loop(Start(roots), Placing) }

  /** Which of its own steps the coordinator may take in a turn; operations,
      workers and flags are free. */
  predicate InTurn(e: Step, turn: Turn) {
    match e
    case PlaceDir(_) => turn == Placing
    case PlaceFile(_) => turn == Placing
    case Abort => turn == Placing
    case Spawn => turn == Spawning
    case SeeIdle => turn == Checking
    case CheckChannel => turn == Checking
    case Recv => turn == Waiting
    case _ => true
  }

  predicate CanDo(caps: Caps, l: Loop, step: LoopStep) {
    match step
    case Do(e) => InTurn(e, l.turn) && Enabled(caps, l.s, e)
    case EndPlacing =>
      // `PlaceHeld` leaves every listing blocked
      l.turn == Placing && l.s.pc == Working && forall h :: h in l.s.held ==> Blocked(caps, l.s, h)
    case EndSpawning => l.turn == Spawning && (l.s.slots >= caps.inFlight || l.s.frontier == [])
    case EndChecking => l.turn == Checking && l.s.pc == Working && !Idle(l.s)
    case Wake => l.turn == Waiting
  }

  function After(caps: Caps, l: Loop, step: LoopStep): Loop
    requires CanDo(caps, l, step)
  {
    match step
    case Do(e) => Loop(Next(caps, l.s, e), if e.Recv? then Placing else l.turn)
    case EndPlacing => l.(turn := Spawning)
    case EndSpawning => l.(turn := Checking)
    case EndChecking => l.(turn := Waiting)
    case Wake => l.(turn := Placing)
  }

  function Rounds(caps: Caps, roots: seq<Item>, steps: seq<LoopStep>): Option<Loop> {
    if steps == [] then Some(Begin(roots))
    else
      var k := |steps| - 1;
      var before := Rounds(caps, roots, steps[..k]);
      if before.Some? && CanDo(caps, before.value, steps[k]) then Some(After(caps, before.value, steps[k])) else None
  }

  ghost predicate Arises(caps: Caps, roots: seq<Item>, l: Loop) {
    exists steps :: Rounds(caps, roots, steps) == Some(l)
  }

  lemma Onward(caps: Caps, roots: seq<Item>, l: Loop, step: LoopStep, m: Loop) returns (r: Loop)
    requires Arises(caps, roots, l) && CanDo(caps, l, step) && m == After(caps, l, step)
    ensures r == m && Arises(caps, roots, r)
  {
    var steps :| Rounds(caps, roots, steps) == Some(l);
    assert (steps + [step])[..|steps|] == steps;
    assert Rounds(caps, roots, steps + [step]) == Some(m);
    r := m;
  }

  /** Every run of the loop is a run of `Scan`, whose results therefore hold of it. */
  lemma {:induction false} RoundsAreRuns(caps: Caps, roots: seq<Item>, steps: seq<LoopStep>)
    requires Rounds(caps, roots, steps).Some?
    ensures Reachable(caps, roots, Rounds(caps, roots, steps).value.s)
  {
    if steps == [] {
      assert Run(caps, roots, []) == Some(Start(roots));
    } else {
      hide Reachable, Run, Next, Enabled;
      var k := |steps| - 1;
      var l := Rounds(caps, roots, steps[..k]).value;
      RoundsAreRuns(caps, roots, steps[..k]);
      if steps[k].Do? {
        var s := Then(caps, roots, l.s, steps[k].e, Next(caps, l.s, steps[k].e));
      }
    }
  }

  // ---------- the loop deadlocks at that size ----------

  /** The rest of the crowd after `j` roots were taken. */
  function Left(caps: Caps, j: nat): seq<Item>
    requires j <= |Crowd(caps)|
  {
    Crowd(caps)[j..]
  }

  lemma CrowdAt(caps: Caps, j: nat)
    requires j < |Crowd(caps)|
    ensures |Crowd(caps)| == caps.frontier + 3 * caps.inFlight
    ensures Left(caps, j)[0] == (if j < caps.inFlight then Stem() else Leaf()) && Left(caps, j)[1..] == Left(caps, j + 1)
  {
  }

  lemma CrowdSize(caps: Caps)
    ensures |Crowd(caps)| == caps.frontier + 3 * caps.inFlight
  {
  }

  /** From the head of a round with nothing to place, `n` more operations start. */
  lemma {:induction false} SpawnMany(caps: Caps, roots: seq<Item>, l: Loop, n: nat, x: Item) returns (m: Loop)
    requires Arises(caps, roots, l) && l.turn == Spawning && n <= |l.s.frontier|
    requires l.s == Snap(l.s.frontier, l.s.held, l.s.ops, l.s.chan) && |l.s.ops| + n <= caps.inFlight
    requires forall i :: 0 <= i < n ==> l.s.frontier[i] == x
    ensures Arises(caps, roots, m)
    ensures m == Loop(Snap(l.s.frontier[n..], l.s.held, l.s.ops + Repeat(n, Scanning(x)), l.s.chan), Spawning)
  {
    if n == 0 {
      assert l.s.ops + Repeat(0, Scanning(x)) == l.s.ops;
      m := l;
    } else {
      m := SpawnMany(caps, roots, l, n - 1, x);
      hide Arises, Rounds;
      RepeatMore(n - 1, Scanning(x));
      var ops := l.s.ops + Repeat(n, Scanning(x));
      assert m.s.ops + [Scanning(x)] == ops;
      assert m.s.frontier[0] == x && m.s.frontier[1..] == l.s.frontier[n..];
      hide Repeat;
      m := Onward(caps, roots, m, Do(Spawn), Loop(Snap(l.s.frontier[n..], l.s.held, ops, l.s.chan), Spawning));
    }
  }

  /** Start of a round, with nothing to place. */
  lemma ToSpawning(caps: Caps, roots: seq<Item>, l: Loop) returns (m: Loop)
    requires Arises(caps, roots, l) && l.turn == Placing && l.s.pc == Working
    requires forall h :: h in l.s.held ==> Blocked(caps, l.s, h)
    ensures m == l.(turn := Spawning) && Arises(caps, roots, m)
  {
    hide Arises, Rounds;
    m := Onward(caps, roots, l, EndPlacing, l.(turn := Spawning));
  }

  /** End of a round, with all slots taken. */
  lemma ToWaiting(caps: Caps, roots: seq<Item>, l: Loop) returns (m: Loop)
    requires Arises(caps, roots, l) && l.turn == Spawning && l.s.pc == Working
    requires l.s.slots == caps.inFlight > 0
    ensures m == l.(turn := Waiting) && Arises(caps, roots, m)
  {
    hide Arises, Rounds;
    m := Onward(caps, roots, l, EndSpawning, l.(turn := Checking));
    m := Onward(caps, roots, m, EndChecking, l.(turn := Waiting));
  }

  /** The first operation lists, sends and returns its slot. */
  lemma OpDone(caps: Caps, roots: seq<Item>, l: Loop) returns (m: Loop)
    requires Arises(caps, roots, l) && l.s == Snap(l.s.frontier, l.s.held, l.s.ops, l.s.chan)
    requires l.s.ops != [] && l.s.ops[0].Scanning? && |l.s.chan| < caps.inFlight
    ensures m == l.(s := Snap(l.s.frontier, l.s.held, l.s.ops[1..], l.s.chan + [l.s.ops[0].item]))
    ensures Arises(caps, roots, m)
  {
    hide Arises, Rounds;
    var s, x, rest := l.s, l.s.ops[0].item, l.s.ops[1..];
    assert s.ops[0 := Sending(x)] == [Sending(x)] + rest;
    m := Onward(caps, roots, l, Do(List(0)), l.(s := Snap(s.frontier, s.held, [Sending(x)] + rest, s.chan)));
    m := OpSent(caps, roots, m);
  }

  lemma OpSent(caps: Caps, roots: seq<Item>, l: Loop) returns (m: Loop)
    requires Arises(caps, roots, l) && l.s == Snap(l.s.frontier, l.s.held, l.s.ops, l.s.chan)
    requires l.s.ops != [] && l.s.ops[0].Sending? && |l.s.chan| < caps.inFlight
    ensures m == l.(s := Snap(l.s.frontier, l.s.held, l.s.ops[1..], l.s.chan + [l.s.ops[0].item]))
    ensures Arises(caps, roots, m)
  {
    hide Arises, Rounds;
    var s, x, rest := l.s, l.s.ops[0].item, l.s.ops[1..];
    assert s.ops[0 := Returning] == [Returning] + rest;
    m := Onward(caps, roots, l, Do(Send(0)), l.(s := Snap(s.frontier, s.held, [Returning] + rest, s.chan + [x])));
    assert m.s.ops[..0] + m.s.ops[1..] == rest;
    m := Onward(caps, roots, m, Do(ReturnSlot(0)), l.(s := Snap(s.frontier, s.held, rest, s.chan + [x])));
  }

  /** `n` operations in a row do so. */
  lemma {:induction false} OpsDone(caps: Caps, roots: seq<Item>, l: Loop, n: nat, x: Item) returns (m: Loop)
    requires Arises(caps, roots, l) && l.s == Snap(l.s.frontier, l.s.held, Repeat(n, Scanning(x)), l.s.chan)
    requires |l.s.chan| + n <= caps.inFlight
    ensures m == l.(s := Snap(l.s.frontier, l.s.held, [], l.s.chan + Repeat(n, x))) && Arises(caps, roots, m)
    decreases n
  {
    if n == 0 {
      assert Repeat(0, Scanning(x)) == [] && l.s.chan + Repeat(0, x) == l.s.chan;
      m := l;
    } else {
      m := OpDone(caps, roots, l);
      assert l.s.ops[1..] == Repeat(n - 1, Scanning(x));
      var chan := l.s.chan + [x];
      m := OpsDone(caps, roots, m, n - 1, x);
      assert chan + Repeat(n - 1, x) == l.s.chan + Repeat(n, x);
    }
  }

  /** `n` operations finish listing; there is no room to send. */
  lemma {:induction false} OpsListed(caps: Caps, roots: seq<Item>, l: Loop, n: nat, x: Item, j: nat) returns (m: Loop)
    requires Arises(caps, roots, l) && j <= n
    requires l.s == Snap(l.s.frontier, l.s.held, Repeat(n, Scanning(x)), l.s.chan)
    ensures m == l.(s := Snap(l.s.frontier, l.s.held, Repeat(j, Sending(x)) + Repeat(n - j, Scanning(x)), l.s.chan))
    ensures Arises(caps, roots, m)
  {
    if j == 0 {
      assert Repeat(0, Sending(x)) + Repeat(n, Scanning(x)) == Repeat(n, Scanning(x));
      m := l;
    } else {
      m := OpsListed(caps, roots, l, n, x, j - 1);
      hide Arises, Rounds;
      var ops := Repeat(j, Sending(x)) + Repeat(n - j, Scanning(x));
      assert m.s.ops[j - 1] == Scanning(x) && m.s.ops[j - 1 := Sending(x)] == ops;
      hide Repeat;
      m := Onward(caps, roots, m, Do(List(j - 1)), l.(s := Snap(l.s.frontier, l.s.held, ops, l.s.chan)));
    }
  }

  /** After `j` messages were received: held listings, and what is in the channel. */
  function Jam(caps: Caps, j: nat): State
    requires j <= caps.inFlight
  {
    CrowdSize(caps);
    Snap(Left(caps, 2 * caps.inFlight + j), Repeat(j, StemHeld()), Repeat(caps.inFlight, Sending(Leaf())),
         Repeat(caps.inFlight - j, Stem()) + Repeat(j, Leaf()))
  }

  /** First round: the stems are started, listed and sent. */
  lemma StemsSent(caps: Caps) returns (l: Loop)
    requires Positive(caps)
    ensures Arises(caps, Crowd(caps), l) && |Crowd(caps)| >= caps.inFlight
    ensures l == Loop(Snap(Left(caps, caps.inFlight), [], [], Repeat(caps.inFlight, Stem())), Waiting)
  {
    var roots, k := Crowd(caps), caps.inFlight;
    l := Begin(roots);
    assert Rounds(caps, roots, []) == Some(l);
    assert Arises(caps, roots, l);
    hide Arises, Rounds;
    l := ToSpawning(caps, roots, l);
    CrowdSize(caps);
    forall i | 0 <= i < k ensures roots[i] == Stem() {}
    l := SpawnMany(caps, roots, l, k, Stem());
    assert [] + Repeat(k, Scanning(Stem())) == Repeat(k, Scanning(Stem()));
    l := ToWaiting(caps, roots, l);
    l := OpsDone(caps, roots, l, k, Stem());
    assert [] + Repeat(k, Stem()) == Repeat(k, Stem());
  }

  /** Second round: as many leaves are started and block. */
  lemma LeavesBlocked(caps: Caps) returns (l: Loop)
    requires Positive(caps)
    ensures l == Loop(Jam(caps, 0), Waiting) && Arises(caps, Crowd(caps), l)
  {
    var roots, k := Crowd(caps), caps.inFlight;
    l := StemsSent(caps);
    CrowdSize(caps);
    forall i | 0 <= i < k ensures Left(caps, k)[i] == Leaf() {}
    assert Left(caps, k)[k..] == Left(caps, 2 * k);
    hide Arises, Rounds, Crowd;
    l := Onward(caps, roots, l, Wake, l.(turn := Placing));
    l := ToSpawning(caps, roots, l);
    l := SpawnMany(caps, roots, l, k, Leaf());
    assert [] + Repeat(k, Scanning(Leaf())) == Repeat(k, Scanning(Leaf()));
    l := ToWaiting(caps, roots, l);
    l := OpsListed(caps, roots, l, k, Leaf(), k);
    assert Repeat(k, Sending(Leaf())) + Repeat(0, Scanning(Leaf())) == Repeat(k, Sending(Leaf()));
    assert Repeat(k, Stem()) + Repeat(0, Leaf()) == Repeat(k, Stem()) && Repeat(0, StemHeld()) == [];
  }

  /** One more round: a stem is received, a leaf gets its place in the channel,
      and another leaf is started in its stead. */
  lemma OneRound(caps: Caps, j: nat, l: Loop) returns (m: Loop)
    requires Positive(caps) && j < caps.inFlight
    requires Arises(caps, Crowd(caps), l) && l == Loop(Jam(caps, j), Waiting)
    ensures m == Loop(Jam(caps, j + 1), Waiting) && Arises(caps, Crowd(caps), m)
  {
    var k := caps.inFlight;
    CrowdAt(caps, 2 * k + j);
    m := ReceiveStem(caps, j, l);
    hide Arises, Rounds, Crowd, Left;
    var held, chan := Repeat(j + 1, StemHeld()), Repeat(k - j - 1, Stem()) + Repeat(j + 1, Leaf());
    forall h | h in held ensures Blocked(caps, m.s, h) {}
    m := ToSpawning(caps, Crowd(caps), m);
    m := SpawnMany(caps, Crowd(caps), m, 1, Leaf());
    m := ToWaiting(caps, Crowd(caps), m);
    var ops := Repeat(k, Sending(Leaf()));
    assert m.s.ops[k - 1] == Scanning(Leaf()) && m.s.ops[k - 1 := Sending(Leaf())] == ops;
    m := Onward(caps, Crowd(caps), m, Do(List(k - 1)), Loop(Snap(m.s.frontier, held, ops, chan), Waiting));
  }

  lemma ReceiveStem(caps: Caps, j: nat, l: Loop) returns (m: Loop)
    requires Positive(caps) && j < caps.inFlight
    requires Arises(caps, Crowd(caps), l) && l == Loop(Jam(caps, j), Waiting)
    ensures Arises(caps, Crowd(caps), m)
    ensures m == Loop(Snap(l.s.frontier, Repeat(j + 1, StemHeld()), Repeat(caps.inFlight - 1, Sending(Leaf())),
                           Repeat(caps.inFlight - j - 1, Stem()) + Repeat(j + 1, Leaf())), Placing)
  {
    hide Arises, Rounds;
    var roots, k := Crowd(caps), caps.inFlight;
    var held, rest := Repeat(j + 1, StemHeld()), Repeat(k - j - 1, Stem()) + Repeat(j, Leaf());
    assert l.s.chan[0] == Stem() && l.s.chan[1..] == rest;
    RepeatMore(j, StemHeld());
    hide Crowd, Left;
    m := Onward(caps, roots, l, Do(Recv), Loop(Snap(l.s.frontier, held, l.s.ops, rest), Placing));
    m := OpSent(caps, roots, m);
    assert rest + [Leaf()] == Repeat(k - j - 1, Stem()) + Repeat(j + 1, Leaf());
    assert l.s.ops[1..] == Repeat(k - 1, Sending(Leaf()));
  }

  lemma {:induction false} Jammed(caps: Caps, j: nat) returns (l: Loop)
    requires Positive(caps) && j <= caps.inFlight
    ensures l == Loop(Jam(caps, j), Waiting) && Arises(caps, Crowd(caps), l)
  {
    if j == 0 {
      l := LeavesBlocked(caps);
    } else {
      l := Jammed(caps, j - 1);
      l := OneRound(caps, j - 1, l);
    }
  }

  /** For all caps, the ordered loop reaches a deadlock with frontier + 4 * inFlight directories. */
  lemma LoopDeadlocks(caps: Caps) returns (l: Loop)
    requires Positive(caps)
    ensures Arises(caps, Crowd(caps), l) && l.s.pc == Working && !l.s.pause && !l.s.cancel && Deadlocked(caps, l.s)
    ensures WalkAll(caps, Crowd(caps)).entries == caps.frontier + 4 * caps.inFlight
  {
    hide Arises, Rounds, WalkAll, Walk;
    l := Jammed(caps, caps.inFlight);
    CrowdSize(caps);
    CrowdEntries(caps);
    assert |l.s.frontier| == caps.frontier;
  }

  /** The exact safe size of the loop as it is ordered: no job of at most `size`
      directories can deadlock if and only if `size` < frontier + 4 * inFlight. */
  lemma LoopSafeSizeExact(caps: Caps, size: nat)
    requires Positive(caps)
    ensures (forall roots, l | Arises(caps, roots, l) && WalkAll(caps, roots).entries <= size &&
                               l.s.pc == Working && !l.s.pause && !l.s.cancel :: !Deadlocked(caps, l.s))
            <==> size < caps.frontier + 4 * caps.inFlight
  {
    hide WalkAll, Deadlocked;
    if size < caps.frontier + 4 * caps.inFlight {
      SafeSizeExact(caps, size);
      forall roots, l | Arises(caps, roots, l) && WalkAll(caps, roots).entries <= size &&
        l.s.pc == Working && !l.s.pause && !l.s.cancel
        ensures !Deadlocked(caps, l.s)
      {
        var steps :| Rounds(caps, roots, steps) == Some(l);
        RoundsAreRuns(caps, roots, steps);
      }
    } else {
      var l := LoopDeadlocks(caps);
    }
  }
}
