/** The directory scan of `job.rs`: one coordinator, list operations running
    concurrently, a bounded result channel, a bounded frontier and workers
    draining the ready queue. Each load, channel operation or counter update is
    one step; a run is any interleaving. */
module Scan {
  import opened Options
  import opened Sums

  /** Path length guard, in characters. */
  const MAX_PATH: nat := 1024

  datatype File = File(name: string, size: nat)

  /** A directory as its list operation will report it: it cannot be listed, or
      it has files, subdirectories and entries that are not followed. */
  datatype Dir =
    | Unreadable(name: string)
    | Listing(name: string, files: seq<File>, dirs: seq<Dir>, special: nat)

  datatype Task = Task(local: string, remote: string, size: nat)
  datatype Caps = Caps(frontier: nat, ready: nat, inFlight: nat, maxDepth: nat)

  /** A directory to scan together with where it is. */
  datatype Item = Item(dir: Dir, local: string, remote: string, depth: nat)

  function Child(parent: Item, dir: Dir): Item {
    Item(dir, parent.local + "/" + dir.name, parent.remote + "/" + dir.name, parent.depth + 1)
  }

  /** Too deep or too long a path: counted as skipped and not visited. */
  predicate Pruned(caps: Caps, child: Item) {
    child.depth > caps.maxDepth || |child.remote| > MAX_PATH || |child.local| > MAX_PATH
  }

  function TaskOf(parent: Item, f: File): Task {
    Task(parent.local + "/" + f.name, parent.remote + "/" + f.name, f.size)
  }

  // ---------- the recursive walk ----------

  /** What a scan reports. `entries` counts every directory met, pruned or not. */
  datatype Tally = Tally(tasks: multiset<Task>, failed: nat, skipped: nat, discovered: nat, entries: nat)

  const NOTHING := Tally(multiset{}, 0, 0, 0, 0)
  /** One directory met, one met but not entered, one that could not be listed. */
  const ENTRY := Tally(multiset{}, 0, 0, 0, 1)
  const PRUNED := Tally(multiset{}, 0, 1, 0, 1)
  const UNREADABLE := Tally(multiset{}, 1, 0, 0, 1)

  function Plus(a: Tally, b: Tally): Tally {
    Tally(a.tasks + b.tasks, a.failed + b.failed, a.skipped + b.skipped,
          a.discovered + b.discovered, a.entries + b.entries)
  }

  function TasksOf(parent: Item, files: seq<File>): multiset<Task> {
    if files == [] then multiset{} else multiset{TaskOf(parent, files[0])} + TasksOf(parent, files[1..])
  }

  /** The plain depth-first walk the concurrent scan has to agree with. */
  function Walk(caps: Caps, item: Item): Tally
    decreases item.dir, 1
  {
    match item.dir
    case Unreadable(_) => UNREADABLE
    case Listing(_, files, dirs, special) =>
      Plus(Tally(TasksOf(item, files), 0, special, |files|, 1), WalkDirs(caps, item, dirs))
  }

  function WalkDirs(caps: Caps, parent: Item, dirs: seq<Dir>): Tally
    decreases dirs, 0
  {
    if dirs == [] then NOTHING
    else Plus(WalkChild(caps, parent, dirs[0]), WalkDirs(caps, parent, dirs[1..]))
  }

  function WalkChild(caps: Caps, parent: Item, dir: Dir): Tally
    decreases dir, 2
  {
    var child := Child(parent, dir);
    if Pruned(caps, child) then PRUNED else Walk(caps, child)
  }

  function WalkAll(caps: Caps, roots: seq<Item>): Tally {
    if roots == [] then NOTHING else Plus(Walk(caps, roots[0]), WalkAll(caps, roots[1..]))
  }

  // ---------- what the walk finds, by paths ----------

  /** The path through directories of these names. */
  function PathOf(names: seq<string>): string {
    if names == [] then "" else "/" + names[0] + PathOf(names[1..])
  }

  /** Going down through subdirectories of these names leads to the file. */
  predicate HasFile(d: Dir, names: seq<string>, f: File)
    decreases |names|
  {
    && d.Listing?
    && if names == [] then f in d.files
       else exists sub :: sub in d.dirs && sub.name == names[0] && HasFile(sub, names[1..], f)
  }

  /** The directory at the end of these names is not too deep and its paths not too long. */
  predicate Reaches(caps: Caps, item: Item, names: seq<string>) {
    names == [] ||
    (item.depth + |names| <= caps.maxDepth
     && |item.local| + |PathOf(names)| <= 1024 && |item.remote| + |PathOf(names)| <= 1024)
  }

  /** The task of a file: both paths are the root's followed by the names on the way down. */
  predicate IsTaskOf(item: Item, names: seq<string>, f: File, x: Task) {
    var path := PathOf(names + [f.name]);
    x == Task(item.local + path, item.remote + path, f.size)
  }

  ghost predicate Finds(caps: Caps, item: Item, x: Task) {
    exists names, f :: HasFile(item.dir, names, f) && Reaches(caps, item, names) && IsTaskOf(item, names, f, x)
  }

  lemma {:induction false} TasksOfFiles(parent: Item, files: seq<File>, x: Task)
    ensures x in TasksOf(parent, files) <==> exists f :: f in files && x == TaskOf(parent, f)
  {
    if files != [] {
      TasksOfFiles(parent, files[1..], x);
      assert forall f :: f in files <==> f == files[0] || f in files[1..];
    }
  }

  lemma {:induction false} WalkDirsFinds(caps: Caps, parent: Item, dirs: seq<Dir>, x: Task)
    ensures x in WalkDirs(caps, parent, dirs).tasks <==> exists d :: d in dirs && x in WalkChild(caps, parent, d).tasks
  {
    hide WalkChild;
    if dirs != [] {
      WalkDirsFinds(caps, parent, dirs[1..], x);
      var first, rest := WalkChild(caps, parent, dirs[0]), WalkDirs(caps, parent, dirs[1..]);
      assert WalkDirs(caps, parent, dirs) == Plus(first, rest);
      assert x in first.tasks + rest.tasks <==> x in first.tasks || x in rest.tasks;
      if x in first.tasks {
        assert dirs[0] in dirs;
      } else if x in rest.tasks {
        var d :| d in dirs[1..] && x in WalkChild(caps, parent, d).tasks;
        assert d in dirs;
      }
      if d :| d in dirs && x in WalkChild(caps, parent, d).tasks {
        assert d == dirs[0] || d in dirs[1..];
      }
    }
  }

  lemma PathStep(n: string, rest: seq<string>)
    ensures PathOf([n] + rest) == "/" + n + PathOf(rest)
  {
    assert ([n] + rest)[1..] == rest;
  }

  lemma PathOne(n: string)
    ensures PathOf([n]) == "/" + n
  {
    PathStep(n, []);
    assert [n] + [] == [n];
  }

  /** One level further down. */
  lemma DownOne(caps: Caps, item: Item, d: Dir, rest: seq<string>, f: File, x: Task)
    ensures Reaches(caps, item, [d.name] + rest) <==>
            !Pruned(caps, Child(item, d)) && Reaches(caps, Child(item, d), rest)
    ensures IsTaskOf(item, [d.name] + rest, f, x) <==> IsTaskOf(Child(item, d), rest, f, x)
  {
    PathStep(d.name, rest);
    PathStep(d.name, rest + [f.name]);
    var tail := PathOf(rest + [f.name]);
    assert [d.name] + rest + [f.name] == [d.name] + (rest + [f.name]);
    assert item.local + ("/" + d.name + tail) == Child(item, d).local + tail;
    assert item.remote + ("/" + d.name + tail) == Child(item, d).remote + tail;
    if rest == [] {
      assert PathOf(rest) == "";
    }
  }

  predicate Here(item: Item, x: Task) {
    item.dir.Listing? && exists f :: f in item.dir.files && x == TaskOf(item, f)
  }

  predicate Below(caps: Caps, item: Item, d: Dir) {
    item.dir.Listing? && d in item.dir.dirs && !Pruned(caps, Child(item, d))
  }

  lemma WalkSplits(caps: Caps, item: Item, x: Task)
    ensures x in Walk(caps, item).tasks <==>
            Here(item, x) || exists d :: Below(caps, item, d) && x in Walk(caps, Child(item, d)).tasks
  {
    if item.dir.Listing? {
      TasksOfFiles(item, item.dir.files, x);
      WalkDirsFinds(caps, item, item.dir.dirs, x);
      var files, dirs := TasksOf(item, item.dir.files), WalkDirs(caps, item, item.dir.dirs);
      assert Walk(caps, item).tasks == files + dirs.tasks;
      hide WalkDirs, TasksOf;
      if d :| d in item.dir.dirs && x in WalkChild(caps, item, d).tasks {
        assert Below(caps, item, d) && x in Walk(caps, Child(item, d)).tasks;
      }
      if d :| Below(caps, item, d) && x in Walk(caps, Child(item, d)).tasks {
        assert x in WalkChild(caps, item, d).tasks;
      }
    }
  }

  lemma TaskHere(item: Item, f: File, x: Task)
    ensures IsTaskOf(item, [], f, x) <==> x == TaskOf(item, f)
  {
    PathOne(f.name);
    assert [] + [f.name] == [f.name];
    assert item.local + ("/" + f.name) == item.local + "/" + f.name;
    assert item.remote + ("/" + f.name) == item.remote + "/" + f.name;
  }

  lemma FindsHere(caps: Caps, item: Item, x: Task)
    requires Here(item, x)
    ensures Finds(caps, item, x)
  {
    var f :| f in item.dir.files && x == TaskOf(item, f);
    TaskHere(item, f, x);
    assert HasFile(item.dir, [], f) && Reaches(caps, item, []);
  }

  lemma FindsBelow(caps: Caps, item: Item, d: Dir, x: Task)
    requires Below(caps, item, d) && Finds(caps, Child(item, d), x)
    ensures Finds(caps, item, x)
  {
    hide Reaches, IsTaskOf, Pruned;
    var child := Child(item, d);
    var names, f :| HasFile(child.dir, names, f) && Reaches(caps, child, names) && IsTaskOf(child, names, f, x);
    DownOne(caps, item, d, names, f, x);
    assert ([d.name] + names)[0] == d.name && ([d.name] + names)[1..] == names;
    assert HasFile(item.dir, [d.name] + names, f);
  }

  lemma FindsSplits(caps: Caps, item: Item, x: Task)
    requires Finds(caps, item, x)
    ensures Here(item, x) || exists d :: Below(caps, item, d) && Finds(caps, Child(item, d), x)
  {
    hide Reaches, IsTaskOf, Pruned;
    var names, f :| HasFile(item.dir, names, f) && Reaches(caps, item, names) && IsTaskOf(item, names, f, x);
    if names == [] {
      TaskHere(item, f, x);
    } else {
      var d :| d in item.dir.dirs && d.name == names[0] && HasFile(d, names[1..], f);
      assert [d.name] + names[1..] == names;
      DownOne(caps, item, d, names[1..], f, x);
      assert Below(caps, item, d) && Finds(caps, Child(item, d), x);
    }
  }

  /** Exactly the files the walk finds: those reached through subdirectories that
      are not too deep and whose paths are not too long, each with the local and
      remote path spelled by the names on the way. */
  lemma {:induction false} WalkFinds(caps: Caps, item: Item, x: Task)
    ensures x in Walk(caps, item).tasks <==> Finds(caps, item, x)
    decreases item.dir
  {
    hide Walk, Finds, Here, Pruned;
    WalkSplits(caps, item, x);
    forall d | Below(caps, item, d)
      ensures x in Walk(caps, Child(item, d)).tasks <==> Finds(caps, Child(item, d), x)
    {
      WalkFinds(caps, Child(item, d), x);
    }
    if x in Walk(caps, item).tasks {
      if Here(item, x) {
        FindsHere(caps, item, x);
      } else {
        var d :| Below(caps, item, d) && x in Walk(caps, Child(item, d)).tasks;
        FindsBelow(caps, item, d, x);
      }
    }
    if Finds(caps, item, x) {
      FindsSplits(caps, item, x);
    }
  }

  // ---------- the concurrent scan ----------

  /** A received listing whose lanes are not empty yet. */
  datatype Held = Held(parent: Item, files: seq<File>, dirs: seq<Dir>)

  /** A list operation: listing, sending its one message, or having sent it and
      about to give its slot back. */
  datatype Op = Scanning(item: Item) | Sending(item: Item) | Returning

  /** `SawIdle`: frontier and held were empty and the slot counter read zero;
      the emptiness of the channel is still to be read. */
  datatype Pc = Working | SawIdle | Finished | Aborted

  datatype State = State(
    frontier: seq<Item>, held: seq<Held>, ops: seq<Op>, slots: nat, chan: seq<Item>, ready: nat,
    sent: multiset<Task>, failed: nat, skipped: nat, discovered: nat, settled: nat,
    pause: bool, cancel: bool, pc: Pc)

  datatype Step =
    | Spawn | PlaceDir(i: nat) | PlaceFile(i: nat) | Recv
    | List(i: nat) | Send(i: nat) | ReturnSlot(i: nat) | TakeTask
    | SeeIdle | CheckChannel | Abort | SetPause(on: bool) | Cancel

  function Start(roots: seq<Item>): State {
    State(roots, [], [], 0, [], 0, multiset{}, 0, 0, 0, 0, false, false, Working)
  }

  predicate Enabled(caps: Caps, s: State, step: Step) {
    match step
    case Spawn => s.pc == Working && s.slots < caps.inFlight && s.frontier != []
    case PlaceDir(i) =>
      s.pc == Working && i < |s.held| && s.held[i].dirs != [] && |s.frontier| < caps.frontier
    case PlaceFile(i) =>
      s.pc == Working && i < |s.held| && s.held[i].files != [] && !s.pause && !s.cancel && s.ready < caps.ready
    case Recv => s.pc == Working && |s.held| < caps.inFlight && s.chan != []
    case List(i) => i < |s.ops| && s.ops[i].Scanning?
    case Send(i) => i < |s.ops| && s.ops[i].Sending? && |s.chan| < caps.inFlight
    case ReturnSlot(i) => i < |s.ops| && s.ops[i].Returning? && s.slots > 0
    case TakeTask => s.ready > 0
    case SeeIdle => s.pc == Working && s.frontier == [] && s.held == [] && s.slots == 0
    case CheckChannel => s.pc == SawIdle
    case Abort => s.pc == Working && s.cancel
    case SetPause(_) => true
    case Cancel => true
  }

  /** Puts back a held entry, or drops it once both lanes are empty. */
  function PutHeld(s: State, i: nat, h: Held): State
    requires i < |s.held|
  {
    if h.files == [] && h.dirs == [] then s.(held := s.held[..i] + s.held[i + 1..], settled := s.settled + 1)
    else s.(held := s.held[i := h])
  }

  function Next(caps: Caps, s: State, step: Step): State
    requires Enabled(caps, s, step)
  {
    match step
    case Spawn =>
      s.(frontier := s.frontier[1..], ops := s.ops + [Scanning(s.frontier[0])], slots := s.slots + 1)
    case PlaceDir(i) =>
      var h := s.held[i];
      var child := Child(h.parent, h.dirs[0]);
      var rest := PutHeld(s, i, h.(dirs := h.dirs[1..]));
      if Pruned(caps, child) then rest.(skipped := s.skipped + 1, settled := rest.settled + 1)
      else rest.(frontier := s.frontier + [child])
    case PlaceFile(i) =>
      var h := s.held[i];
      PutHeld(s, i, h.(files := h.files[1..]))
        .(sent := s.sent + multiset{TaskOf(h.parent, h.files[0])}, ready := s.ready + 1)
    case Recv =>
      var m := s.chan[0];
      var rest := s.(chan := s.chan[1..]);
      (match m.dir
       case Unreadable(_) => rest.(failed := s.failed + 1, settled := s.settled + 1)
       case Listing(_, files, dirs, special) =>
         var counted := rest.(skipped := s.skipped + special, discovered := s.discovered + |files|);
         if files != [] || dirs != [] then counted.(held := s.held + [Held(m, files, dirs)])
         else counted.(settled := s.settled + 1))
    case List(i) => s.(ops := s.ops[i := Sending(s.ops[i].item)])
    case Send(i) => s.(ops := s.ops[i := Returning], chan := s.chan + [s.ops[i].item])
    case ReturnSlot(i) => s.(ops := s.ops[..i] + s.ops[i + 1..], slots := s.slots - 1)
    case TakeTask => s.(ready := s.ready - 1)
    case SeeIdle => s.(pc := SawIdle)
    case CheckChannel => s.(pc := if s.chan == [] then Finished else Working)
    case Abort => s.(pc := Aborted)
    case SetPause(on) => s.(pause := on)
    case Cancel => s.(cancel := true)
  }

  /** The state after a schedule, or `None` if it asks for a disabled step. */
  function Exec(caps: Caps, s: State, steps: seq<Step>): Option<State> {
    if steps == [] then Some(s)
    else
      var k := |steps| - 1;
      var before := Exec(caps, s, steps[..k]);
      if before.Some? && Enabled(caps, before.value, steps[k]) then Some(Next(caps, before.value, steps[k]))
      else None
  }

  function Run(caps: Caps, roots: seq<Item>, steps: seq<Step>): Option<State> {
    Exec(caps, Start(roots), steps)
  }

  // ---------- agreement with the walk ----------

  /** One number read off a tally; a tally is determined by all of them. */
  datatype View = CountOf(task: Task) | Failures | Skips | Discovered | Entries

  function Look(v: View, t: Tally): int {
    match v
    case CountOf(x) => t.tasks[x]
    case Failures => t.failed
    case Skips => t.skipped
    case Discovered => t.discovered
    case Entries => t.entries
  }

  function Settled(s: State): Tally {
    Tally(s.sent, s.failed, s.skipped, s.discovered, s.settled)
  }

  /** What a held entry still has to contribute. */
  function HeldTally(caps: Caps, h: Held): Tally {
    Plus(Tally(TasksOf(h.parent, h.files), 0, 0, 0, 1), WalkDirs(caps, h.parent, h.dirs))
  }

  function ItemWeight(caps: Caps, v: View): Item -> int { (x: Item) => Look(v, Walk(caps, x)) }
  function HeldWeight(caps: Caps, v: View): Held -> int { (h: Held) => Look(v, HeldTally(caps, h)) }
  function OpWeight(caps: Caps, v: View): Op -> int {
    (o: Op) => if o.Returning? then 0 else Look(v, Walk(caps, o.item))
  }

  function Pending(caps: Caps, v: View, s: State): int {
    Sum(s.frontier, ItemWeight(caps, v)) + Sum(s.held, HeldWeight(caps, v)) +
    Sum(s.ops, OpWeight(caps, v)) + Sum(s.chan, ItemWeight(caps, v))
  }

  ghost predicate Shape(caps: Caps, s: State) {
    && s.slots == |s.ops| <= caps.inFlight
    && |s.chan| <= caps.inFlight
    && |s.held| <= caps.inFlight
    && s.ready <= caps.ready
    && (forall h :: h in s.held ==> h.files != [] || h.dirs != [])
    && (s.pc == SawIdle || s.pc == Finished ==> s.frontier == [] && s.held == [] && s.ops == [])
    && (s.pc == Finished ==> s.chan == [])
  }

  /** Every view of what is settled plus what is pending equals the walk. */
  ghost predicate Conserved(caps: Caps, total: Tally, s: State) {
    forall v :: Value(caps, v, s) == Look(v, total)
  }

  lemma ShapePlaced(caps: Caps, s: State, step: Step)
    requires Shape(caps, s) && Enabled(caps, s, step) && (step.PlaceDir? || step.PlaceFile?)
    ensures Shape(caps, Next(caps, s, step))
  {
    hide Pruned, TaskOf;
    assert forall h :: h in s.held[..step.i] + s.held[step.i + 1..] ==> h in s.held;
  }

  lemma ShapeOther(caps: Caps, s: State, step: Step)
    requires Shape(caps, s) && Enabled(caps, s, step) && !step.PlaceDir? && !step.PlaceFile?
    ensures Shape(caps, Next(caps, s, step))
  {
  }

  lemma ShapeKept(caps: Caps, s: State, step: Step)
    requires Shape(caps, s) && Enabled(caps, s, step)
    ensures Shape(caps, Next(caps, s, step))
  {
    hide Shape, Enabled, Next;
    if step.PlaceDir? || step.PlaceFile? {
      ShapePlaced(caps, s, step);
    } else {
      ShapeOther(caps, s, step);
    }
  }

  lemma LookPlus(v: View, a: Tally, b: Tally)
    ensures Look(v, Plus(a, b)) == Look(v, a) + Look(v, b)
  {
  }

  lemma WalkDirsHead(caps: Caps, v: View, p: Item, dirs: seq<Dir>)
    requires dirs != []
    ensures Look(v, WalkDirs(caps, p, dirs)) ==
            Look(v, WalkChild(caps, p, dirs[0])) + Look(v, WalkDirs(caps, p, dirs[1..]))
  {
    LookPlus(v, WalkChild(caps, p, dirs[0]), WalkDirs(caps, p, dirs[1..]));
  }

  /** The lanes of a held entry contribute separately. */
  lemma HeldSplit(caps: Caps, v: View, h: Held)
    ensures Look(v, HeldTally(caps, h)) == Look(v, ENTRY) +
            Look(v, Tally(TasksOf(h.parent, h.files), 0, 0, 0, 0)) + Look(v, WalkDirs(caps, h.parent, h.dirs))
    ensures h.files == [] && h.dirs == [] ==> Look(v, HeldTally(caps, h)) == Look(v, ENTRY)
  {
    hide Walk, WalkChild;
    LookPlus(v, Tally(TasksOf(h.parent, h.files), 0, 0, 0, 1), WalkDirs(caps, h.parent, h.dirs));
  }

  lemma HeldPut(caps: Caps, v: View, s: State, i: nat, h: Held)
    requires i < |s.held|
    ensures var t := PutHeld(s, i, h);
            && t == s.(held := t.held, settled := t.settled)
            && Sum(t.held, HeldWeight(caps, v)) + Look(v, Settled(t)) ==
               Sum(s.held, HeldWeight(caps, v)) + Look(v, Settled(s)) -
               Look(v, HeldTally(caps, s.held[i])) + Look(v, HeldTally(caps, h))
  {
    hide HeldTally, Look, Walk, WalkDirs;
    var f := HeldWeight(caps, v);
    HeldSplit(caps, v, h);
    if h.files == [] && h.dirs == [] {
      SumRemove(s.held, i, f);
      LookPlus(v, Settled(s), ENTRY);
      assert Settled(PutHeld(s, i, h)) == Plus(Settled(s), ENTRY);
    } else {
      SumUpdate(s.held, i, h, f);
    }
  }

  /** Value of a state in view `v`: settled plus pending. */
  function Value(caps: Caps, v: View, s: State): int {
    Look(v, Settled(s)) + Pending(caps, v, s)
  }

  /** Skipping a subdirectory that is too deep or whose path is too long. */
  lemma PruneConserves(caps: Caps, v: View, s: State, i: nat)
    requires Enabled(caps, s, PlaceDir(i)) && Pruned(caps, Child(s.held[i].parent, s.held[i].dirs[0]))
    ensures Value(caps, v, Next(caps, s, PlaceDir(i))) == Value(caps, v, s)
  {
    hide Walk, WalkDirs, HeldTally, Look, Sum, TasksOf;
    var h := s.held[i];
    var child := Child(h.parent, h.dirs[0]);
    var less := h.(dirs := h.dirs[1..]);
    HeldPut(caps, v, s, i, less);
    HeldSplit(caps, v, h);
    HeldSplit(caps, v, less);
    WalkDirsHead(caps, v, h.parent, h.dirs);
    LookPlus(v, Settled(PutHeld(s, i, less)), PRUNED);
    assert Settled(Next(caps, s, PlaceDir(i))) == Plus(Settled(PutHeld(s, i, less)), PRUNED);
  }

  lemma PlaceDirConserves(caps: Caps, v: View, s: State, i: nat)
    requires Enabled(caps, s, PlaceDir(i))
    ensures Value(caps, v, Next(caps, s, PlaceDir(i))) == Value(caps, v, s)
  {
    if Pruned(caps, Child(s.held[i].parent, s.held[i].dirs[0])) {
      PruneConserves(caps, v, s, i);
    } else {
      hide Walk, WalkDirs, HeldTally, Look, Sum, TasksOf;
      var h := s.held[i];
      var child := Child(h.parent, h.dirs[0]);
      var less := h.(dirs := h.dirs[1..]);
      HeldPut(caps, v, s, i, less);
      HeldSplit(caps, v, h);
      HeldSplit(caps, v, less);
      WalkDirsHead(caps, v, h.parent, h.dirs);
      SumAppend(s.frontier, child, ItemWeight(caps, v));
    }
  }

  lemma PlaceFileConserves(caps: Caps, v: View, s: State, i: nat)
    requires Enabled(caps, s, PlaceFile(i))
    ensures Value(caps, v, Next(caps, s, PlaceFile(i))) == Value(caps, v, s)
  {
    hide Walk, WalkDirs, HeldTally;
    var h := s.held[i];
    var less := h.(files := h.files[1..]);
    HeldPut(caps, v, s, i, less);
    HeldSplit(caps, v, h);
    HeldSplit(caps, v, less);
  }

  lemma RecvWeight(caps: Caps, v: View, chan: seq<Item>)
    requires chan != []
    ensures Sum(chan, ItemWeight(caps, v)) == Look(v, Walk(caps, chan[0])) + Sum(chan[1..], ItemWeight(caps, v))
  {
    hide Walk, Look;
    assert chan == [chan[0]] + chan[1..];
    SumConcat([chan[0]], chan[1..], ItemWeight(caps, v));
    SumOne(chan[0], ItemWeight(caps, v));
  }

  /** A listing with content is held. */
  lemma RecvHeld(caps: Caps, v: View, s: State)
    requires Enabled(caps, s, Recv) && s.chan[0].dir.Listing?
    requires s.chan[0].dir.files != [] || s.chan[0].dir.dirs != []
    ensures Value(caps, v, Next(caps, s, Recv)) == Value(caps, v, s)
  {
    hide HeldTally, TasksOf, Walk, WalkDirs, Look, Sum;
    var m, t := s.chan[0], Next(caps, s, Recv);
    var counts := Tally(multiset{}, 0, m.dir.special, |m.dir.files|, 0);
    RecvWeight(caps, v, s.chan);
    ListingSplit(caps, v, m);
    LookPlus(v, Settled(s), counts);
    SumAppend(s.held, Held(m, m.dir.files, m.dir.dirs), HeldWeight(caps, v));
    assert Settled(t) == Plus(Settled(s), counts);
  }

  /** An empty one is settled at once. */
  lemma RecvEmpty(caps: Caps, v: View, s: State)
    requires Enabled(caps, s, Recv) && s.chan[0].dir.Listing?
    requires s.chan[0].dir.files == [] && s.chan[0].dir.dirs == []
    ensures Value(caps, v, Next(caps, s, Recv)) == Value(caps, v, s)
  {
    hide HeldTally, TasksOf, Walk, WalkDirs, Look, Sum;
    var m, t := s.chan[0], Next(caps, s, Recv);
    var counts := Tally(multiset{}, 0, m.dir.special, 0, 0);
    RecvWeight(caps, v, s.chan);
    ListingSplit(caps, v, m);
    LookPlus(v, Settled(s), counts);
    HeldSplit(caps, v, Held(m, [], []));
    LookPlus(v, Plus(Settled(s), counts), ENTRY);
    assert Settled(t) == Plus(Plus(Settled(s), counts), ENTRY);
  }

  lemma RecvConserves(caps: Caps, v: View, s: State)
    requires Enabled(caps, s, Recv)
    ensures Value(caps, v, Next(caps, s, Recv)) == Value(caps, v, s)
  {
    hide HeldTally, TasksOf, WalkDirs, Look;
    var dir := s.chan[0].dir;
    if dir.Listing? && dir.files == [] && dir.dirs == [] {
      RecvEmpty(caps, v, s);
    } else if dir.Listing? {
      RecvHeld(caps, v, s);
    } else {
      LookPlus(v, Settled(s), UNREADABLE);
      assert Settled(Next(caps, s, Recv)) == Plus(Settled(s), UNREADABLE);
    }
  }

  /** A listing is its counts plus what its held entry will contribute. */
  lemma ListingSplit(caps: Caps, v: View, m: Item)
    requires m.dir.Listing?
    ensures Look(v, Walk(caps, m)) == Look(v, Tally(multiset{}, 0, m.dir.special, |m.dir.files|, 0)) +
            Look(v, HeldTally(caps, Held(m, m.dir.files, m.dir.dirs)))
  {
    hide TasksOf, WalkDirs;
  }

  lemma OpStepConserves(caps: Caps, v: View, s: State, step: Step)
    requires Enabled(caps, s, step) && (step.Spawn? || step.List? || step.Send? || step.ReturnSlot?)
    ensures Value(caps, v, Next(caps, s, step)) == Value(caps, v, s)
  {
    hide Walk, Look, HeldTally;
    var f := OpWeight(caps, v);
    match step
    case Spawn => SumAppend(s.ops, Scanning(s.frontier[0]), f);
    case List(i) => SumUpdate(s.ops, i, Sending(s.ops[i].item), f);
    case Send(i) =>
      SumUpdate(s.ops, i, Returning, f);
      SumAppend(s.chan, s.ops[i].item, ItemWeight(caps, v));
    case ReturnSlot(i) => SumRemove(s.ops, i, f);
  }

  lemma StepConserves(caps: Caps, v: View, s: State, step: Step)
    requires Enabled(caps, s, step)
    ensures Value(caps, v, Next(caps, s, step)) == Value(caps, v, s)
  {
    hide Walk, Look, HeldTally;
    match step
    case PlaceDir(i) => PlaceDirConserves(caps, v, s, i);
    case PlaceFile(i) => PlaceFileConserves(caps, v, s, i);
    case Recv => RecvConserves(caps, v, s);
    case Spawn => OpStepConserves(caps, v, s, step);
    case List(_) => OpStepConserves(caps, v, s, step);
    case Send(_) => OpStepConserves(caps, v, s, step);
    case ReturnSlot(_) => OpStepConserves(caps, v, s, step);
    case _ =>
  }

  lemma {:induction false} StartPending(caps: Caps, v: View, roots: seq<Item>)
    ensures Sum(roots, ItemWeight(caps, v)) == Look(v, WalkAll(caps, roots))
  {
    if roots != [] {
      StartPending(caps, v, roots[1..]);
    }
  }

  lemma {:induction false} RunConserves(caps: Caps, roots: seq<Item>, steps: seq<Step>)
    requires Run(caps, roots, steps).Some?
    ensures Shape(caps, Run(caps, roots, steps).value)
    ensures Conserved(caps, WalkAll(caps, roots), Run(caps, roots, steps).value)
  {
    if steps == [] {
      forall v ensures Value(caps, v, Start(roots)) == Look(v, WalkAll(caps, roots)) {
        StartPending(caps, v, roots);
      }
    } else {
      var k := |steps| - 1;
      var s := Run(caps, roots, steps[..k]).value;
      RunConserves(caps, roots, steps[..k]);
      ShapeKept(caps, s, steps[k]);
      var t := Next(caps, s, steps[k]);
      forall v ensures Value(caps, v, t) == Look(v, WalkAll(caps, roots)) {
        StepConserves(caps, v, s, steps[k]);
      }
    }
  }

  /** A finished scan has nothing pending. */
  lemma NothingPending(caps: Caps, v: View, s: State)
    requires Shape(caps, s) && s.pc == Finished
    ensures Value(caps, v, s) == Look(v, Settled(s))
  {
    hide Look;
  }

  /** A tally is determined by its views. */
  lemma SameViews(a: Tally, b: Tally)
    requires forall v :: Look(v, a) == Look(v, b)
    ensures a == b
  {
    forall x: Task ensures a.tasks[x] == b.tasks[x] {
      assert Look(CountOf(x), a) == Look(CountOf(x), b);
    }
    assert Look(Failures, a) == Look(Failures, b);
    assert Look(Skips, a) == Look(Skips, b);
    assert Look(Discovered, a) == Look(Discovered, b);
    assert Look(Entries, a) == Look(Entries, b);
  }

  /** Main result: when the coordinator leaves its loop because it found nothing
      left, what was sent to the workers is exactly what the recursive walk
      finds, and every count agrees. In particular a message sent before its
      slot was returned is never lost. */
  lemma ScanEqualsWalk(caps: Caps, roots: seq<Item>, steps: seq<Step>)
    requires Run(caps, roots, steps).Some? && Run(caps, roots, steps).value.pc == Finished
    ensures Settled(Run(caps, roots, steps).value) == WalkAll(caps, roots)
  {
    hide Run, WalkAll, Value, Look;
    var s := Run(caps, roots, steps).value;
    var w := WalkAll(caps, roots);
    RunConserves(caps, roots, steps);
    forall v ensures Look(v, Settled(s)) == Look(v, w) {
      NothingPending(caps, v, s);
    }
    SameViews(Settled(s), w);
  }

  // ---------- pause and cancel ----------

  lemma {:induction false} CancelStays(caps: Caps, roots: seq<Item>, steps: seq<Step>, p: nat)
    requires p < |steps| && Run(caps, roots, steps).Some? && steps[p] == Cancel
    ensures Run(caps, roots, steps).value.cancel
  {
    hide Next, Enabled;
    var n := |steps| - 1;
    assert Run(caps, roots, steps[..n]).Some?;
    FlagsStay(caps, Run(caps, roots, steps[..n]).value, steps[n]);
    if p < n {
      CancelStays(caps, roots, steps[..n], p);
    }
  }

  lemma FlagsStay(caps: Caps, s: State, e: Step)
    requires Enabled(caps, s, e)
    ensures Next(caps, s, e).pause == if e.SetPause? then e.on else s.pause
    ensures Next(caps, s, e).cancel == (s.cancel || e.Cancel?)
  {
    hide Pruned, TaskOf, Child;
  }

  lemma {:induction false} PauseStays(caps: Caps, roots: seq<Item>, steps: seq<Step>, p: nat)
    requires p < |steps| && Run(caps, roots, steps).Some? && steps[p] == SetPause(true)
    requires forall q :: p < q < |steps| ==> !steps[q].SetPause?
    ensures Run(caps, roots, steps).value.pause
  {
    hide Next, Enabled;
    var n := |steps| - 1;
    assert Run(caps, roots, steps[..n]).Some?;
    FlagsStay(caps, Run(caps, roots, steps[..n]).value, steps[n]);
    if p < n {
      PauseStays(caps, roots, steps[..n], p);
    }
  }

  /** While a job is paused, and once it is cancelled, no file is sent to the workers. */
  lemma PauseHoldsFiles(caps: Caps, roots: seq<Item>, steps: seq<Step>, p: nat, i: nat)
    requires p < |steps| && Run(caps, roots, steps).Some?
    requires steps[p] == Cancel || (steps[p] == SetPause(true) && forall q :: p < q < |steps| ==> !steps[q].SetPause?)
    ensures !Enabled(caps, Run(caps, roots, steps).value, PlaceFile(i))
  {
    hide Run;
    if steps[p] == Cancel {
      CancelStays(caps, roots, steps, p);
    } else {
      PauseStays(caps, roots, steps, p);
    }
  }

  // ---------- where the scan can stop ----------

  /** Steps that move the scan on, as opposed to polling, flags and giving up. */
  predicate Productive(step: Step) {
    match step
    case Spawn => true
    case PlaceDir(_) => true
    case PlaceFile(_) => true
    case Recv => true
    case List(_) => true
    case Send(_) => true
    case ReturnSlot(_) => true
    case TakeTask => true
    case _ => false
  }

  ghost predicate CanMove(caps: Caps, s: State) {
    exists step :: Productive(step) && Enabled(caps, s, step)
  }

  /** The coordinator would find nothing left to do. */
  predicate Idle(s: State) {
    s.frontier == [] && s.held == [] && s.slots == 0 && s.chan == []
  }

  /** Frontier and held at their caps, the channel full, and every operation
      waiting for room in the channel. */
  predicate Deadlocked(caps: Caps, s: State) {
    && |s.frontier| >= caps.frontier
    && |s.held| == caps.inFlight
    && (forall h :: h in s.held ==> h.files == [])
    && |s.chan| == caps.inFlight
    && |s.ops| == caps.inFlight
    && (forall o :: o in s.ops ==> o.Sending?)
    && s.ready == 0
  }

  predicate Positive(caps: Caps) {
    caps.frontier > 0 && caps.ready > 0 && caps.inFlight > 0
  }

  lemma NothingEnabled(caps: Caps, s: State, step: Step)
    requires !CanMove(caps, s) && Productive(step)
    ensures !Enabled(caps, s, step)
  {
  }

  lemma StuckImpliesDeadlocked(caps: Caps, s: State)
    requires Positive(caps) && Shape(caps, s) && s.pc == Working && !s.pause && !s.cancel
    requires !CanMove(caps, s) && !Idle(s)
    ensures Deadlocked(caps, s)
  {
    NothingEnabled(caps, s, TakeTask);
    NothingEnabled(caps, s, Spawn);
    NothingEnabled(caps, s, Recv);
    forall i | 0 <= i < |s.ops| ensures s.ops[i].Sending? && |s.chan| == caps.inFlight {
      NothingEnabled(caps, s, List(i));
      NothingEnabled(caps, s, Send(i));
      NothingEnabled(caps, s, ReturnSlot(i));
    }
    forall i | 0 <= i < |s.held| ensures s.held[i].files == [] && |s.frontier| >= caps.frontier {
      NothingEnabled(caps, s, PlaceFile(i));
      NothingEnabled(caps, s, PlaceDir(i));
      assert s.held[i] in s.held;
    }
    assert s.ops != [] ==> s.ops[0].Sending?;
    assert s.held != [] ==> s.held[0].files == [];
  }

  lemma DeadlockedIsStuck(caps: Caps, s: State)
    requires Positive(caps) && Shape(caps, s) && Deadlocked(caps, s)
    ensures !CanMove(caps, s) && !Idle(s)
  {
    forall step | Productive(step) ensures !Enabled(caps, s, step) {
      match step
      case PlaceFile(i) => assert i < |s.held| ==> s.held[i] in s.held;
      case List(i) => assert i < |s.ops| ==> s.ops[i] in s.ops;
      case ReturnSlot(i) => assert i < |s.ops| ==> s.ops[i] in s.ops;
      case _ =>
    }
  }

  /** The only way to stop unfinished: unpaused and uncancelled, with workers
      draining the ready queue, a reachable state can neither move nor finish
      exactly when it is deadlocked. */
  lemma StuckExactlyWhenDeadlocked(caps: Caps, roots: seq<Item>, steps: seq<Step>)
    requires Positive(caps) && Run(caps, roots, steps).Some?
    requires var s := Run(caps, roots, steps).value; s.pc == Working && !s.pause && !s.cancel
    ensures var s := Run(caps, roots, steps).value;
            !CanMove(caps, s) && !Idle(s) <==> Deadlocked(caps, s)
  {
    var s := Run(caps, roots, steps).value;
    RunConserves(caps, roots, steps);
    if !CanMove(caps, s) && !Idle(s) {
      StuckImpliesDeadlocked(caps, s);
    }
    if Deadlocked(caps, s) {
      DeadlockedIsStuck(caps, s);
    }
  }

  // ---------- small trees always finish ----------

  lemma WalkEntries(caps: Caps, item: Item)
    ensures Walk(caps, item).entries >= 1
  {
  }

  lemma {:induction false} SumAtLeastLength<T>(s: seq<T>, f: T -> int, k: nat)
    requires forall x :: x in s ==> f(x) >= k
    ensures Sum(s, f) >= k * |s|
  {
    if s != [] {
      SumAtLeastLength(s[1..], f, k);
    }
  }

  lemma ItemsWeigh(caps: Caps, xs: seq<Item>)
    ensures Sum(xs, ItemWeight(caps, Entries)) >= |xs|
  {
    hide Walk;
    forall x: Item ensures ItemWeight(caps, Entries)(x) >= 1 { WalkEntries(caps, x); }
    SumAtLeastLength(xs, ItemWeight(caps, Entries), 1);
  }

  lemma OpsWeigh(caps: Caps, ops: seq<Op>)
    requires forall o :: o in ops ==> o.Sending?
    ensures Sum(ops, OpWeight(caps, Entries)) >= |ops|
  {
    hide Walk;
    forall o | o in ops ensures OpWeight(caps, Entries)(o) >= 1 { WalkEntries(caps, o.item); }
    SumAtLeastLength(ops, OpWeight(caps, Entries), 1);
  }

  lemma HeldWeighs(caps: Caps, h: Held)
    requires h.dirs != []
    ensures Look(Entries, HeldTally(caps, h)) >= 2
  {
    hide Walk, WalkDirs, TasksOf;
    WalkDirsHead(caps, Entries, h.parent, h.dirs);
    WalkEntries(caps, Child(h.parent, h.dirs[0]));
  }

  lemma HeldWeigh(caps: Caps, held: seq<Held>)
    requires forall h :: h in held ==> h.dirs != []
    ensures Sum(held, HeldWeight(caps, Entries)) >= 2 * |held|
  {
    hide Walk, WalkDirs, HeldTally, Look, Sum;
    forall h | h in held ensures HeldWeight(caps, Entries)(h) >= 2 {
      HeldWeighs(caps, h);
    }
    SumAtLeastLength(held, HeldWeight(caps, Entries), 2);
  }

  /** A deadlock involves at least frontier + 4 * inFlight directories: those
      in the frontier, those being sent, those in the channel, and for each
      held listing the directory itself and one not yet placed. */
  lemma DeadlockNeedsManyDirs(caps: Caps, total: Tally, s: State)
    requires Shape(caps, s) && Conserved(caps, total, s) && Deadlocked(caps, s)
    ensures total.entries >= caps.frontier + 4 * caps.inFlight
  {
    hide Sum, ItemWeight, OpWeight, HeldWeight;
    ItemsWeigh(caps, s.frontier);
    ItemsWeigh(caps, s.chan);
    OpsWeigh(caps, s.ops);
    HeldWeigh(caps, s.held);
    assert Value(caps, Entries, s) == Look(Entries, total);
  }

  /** Hence a tree with fewer directories than that never gets stuck; in
      particular no tree with at most `frontier` directories does. */
  lemma SmallTreesNeverStick(caps: Caps, roots: seq<Item>, steps: seq<Step>)
    requires Positive(caps) && Run(caps, roots, steps).Some?
    requires WalkAll(caps, roots).entries < caps.frontier + 4 * caps.inFlight
    requires var s := Run(caps, roots, steps).value; s.pc == Working && !s.pause && !s.cancel
    ensures var s := Run(caps, roots, steps).value; CanMove(caps, s) || Idle(s)
  {
    var s := Run(caps, roots, steps).value;
    RunConserves(caps, roots, steps);
    if !CanMove(caps, s) && !Idle(s) {
      StuckImpliesDeadlocked(caps, s);
      DeadlockNeedsManyDirs(caps, WalkAll(caps, roots), s);
    }
  }

  // ---------- every schedule runs out of moves ----------

  function DirCost(d: Dir): nat
    decreases d, 1
  {
    match d
    case Unreadable(_) => 0
    case Listing(_, files, dirs, _) => 2 * |files| + DirsCost(dirs)
  }

  function DirsCost(dirs: seq<Dir>): nat
    decreases dirs, 0
  {
    if dirs == [] then 0 else 6 + DirCost(dirs[0]) + DirsCost(dirs[1..])
  }

  function ItemCost(x: Item): int { 5 + DirCost(x.dir) }
  function ChanCost(x: Item): int { 1 + DirCost(x.dir) }
  function HeldCost(h: Held): int { 2 * |h.files| + DirsCost(h.dirs) }
  function OpCost(o: Op): int {
    match o
    case Scanning(x) => 4 + DirCost(x.dir)
    case Sending(x) => 3 + DirCost(x.dir)
    case Returning => 1
  }

  /** Upper bound on the productive steps still possible. */
  function Effort(s: State): int {
    Sum(s.frontier, ItemCost) + Sum(s.held, HeldCost) + Sum(s.ops, OpCost) + Sum(s.chan, ChanCost) + s.ready
  }

  lemma EffortBounded(s: State)
    ensures Effort(s) >= 0
  {
    SumNonNegative(s.frontier, ItemCost);
    SumNonNegative(s.held, HeldCost);
    SumNonNegative(s.ops, OpCost);
    SumNonNegative(s.chan, ChanCost);
  }

  lemma HeldCostPut(s: State, i: nat, h: Held)
    requires i < |s.held|
    ensures Sum(PutHeld(s, i, h).held, HeldCost) == Sum(s.held, HeldCost) - HeldCost(s.held[i]) + HeldCost(h)
  {
    if h.files == [] && h.dirs == [] {
      SumRemove(s.held, i, HeldCost);
    } else {
      SumUpdate(s.held, i, h, HeldCost);
    }
  }

  lemma PlaceDirCosts(caps: Caps, s: State, i: nat)
    requires Enabled(caps, s, PlaceDir(i))
    ensures Effort(Next(caps, s, PlaceDir(i))) < Effort(s)
  {
    hide Pruned;
    var h := s.held[i];
    HeldCostPut(s, i, h.(dirs := h.dirs[1..]));
    SumAppend(s.frontier, Child(h.parent, h.dirs[0]), ItemCost);
  }

  lemma PlaceFileCosts(caps: Caps, s: State, i: nat)
    requires Enabled(caps, s, PlaceFile(i))
    ensures Effort(Next(caps, s, PlaceFile(i))) < Effort(s)
  {
    hide Sum;
    var h := s.held[i];
    HeldCostPut(s, i, h.(files := h.files[1..]));
  }

  lemma RecvCosts(caps: Caps, s: State)
    requires Enabled(caps, s, Recv)
    ensures Effort(Next(caps, s, Recv)) < Effort(s)
  {
    var m := s.chan[0];
    if m.dir.Listing? {
      SumAppend(s.held, Held(m, m.dir.files, m.dir.dirs), HeldCost);
    }
  }

  /** Every productive step uses up effort and no other step adds any. */
  lemma StepCosts(caps: Caps, s: State, step: Step)
    requires Enabled(caps, s, step)
    ensures Effort(Next(caps, s, step)) <= Effort(s) - (if Productive(step) then 1 else 0)
  {
    match step
    case PlaceDir(i) => PlaceDirCosts(caps, s, i);
    case PlaceFile(i) => PlaceFileCosts(caps, s, i);
    case Recv => RecvCosts(caps, s);
    case Spawn => SumAppend(s.ops, Scanning(s.frontier[0]), OpCost);
    case List(i) => SumUpdate(s.ops, i, Sending(s.ops[i].item), OpCost);
    case Send(i) =>
      SumUpdate(s.ops, i, Returning, OpCost);
      SumAppend(s.chan, s.ops[i].item, ChanCost);
    case ReturnSlot(i) => SumRemove(s.ops, i, OpCost);
    case _ =>
  }

  function ProductiveSteps(steps: seq<Step>): nat {
    if steps == [] then 0
    else ProductiveSteps(steps[..|steps| - 1]) + if Productive(steps[|steps| - 1]) then 1 else 0
  }

  /** No schedule contains more productive steps than the tree pays for, so with
      `SmallTreesNeverStick` a small tree is always scanned to the end. */
  lemma {:induction false} ProductiveStepsBounded(caps: Caps, roots: seq<Item>, steps: seq<Step>)
    requires Run(caps, roots, steps).Some?
    ensures ProductiveSteps(steps) + Effort(Run(caps, roots, steps).value) <= Sum(roots, ItemCost)
    ensures ProductiveSteps(steps) <= Sum(roots, ItemCost)
  {
    if steps != [] {
      var k := |steps| - 1;
      ProductiveStepsBounded(caps, roots, steps[..k]);
      StepCosts(caps, Run(caps, roots, steps[..k]).value, steps[k]);
    }
    EffortBounded(Run(caps, roots, steps).value);
  }

  /** When a small tree's scan has no productive step left, the next look at the
      counters ends it with exactly the result of the walk. */
  lemma SmallTreeScannedToEnd(caps: Caps, roots: seq<Item>, steps: seq<Step>)
    requires Positive(caps) && Run(caps, roots, steps).Some?
    requires WalkAll(caps, roots).entries < caps.frontier + 4 * caps.inFlight
    requires var s := Run(caps, roots, steps).value; s.pc == Working && !s.pause && !s.cancel && !CanMove(caps, s)
    ensures var r := Run(caps, roots, steps + [SeeIdle] + [CheckChannel]);
            r.Some? && r.value.pc == Finished && Settled(r.value) == WalkAll(caps, roots)
  {
    hide WalkAll, Settled;
    var s := Run(caps, roots, steps).value;
    var more := steps + [SeeIdle];
    SmallTreesNeverStick(caps, roots, steps);
    assert more[..|steps|] == steps;
    assert Run(caps, roots, more) == Some(Next(caps, s, SeeIdle));
    var all := more + [CheckChannel];
    assert all[..|more|] == more;
    assert Run(caps, roots, all) == Some(s.(pc := Finished));
    ScanEqualsWalk(caps, roots, all);
  }

  // ---------- a deadlock that does happen ----------

  ghost predicate Reachable(caps: Caps, roots: seq<Item>, s: State) {
    exists steps :: Run(caps, roots, steps) == Some(s)
  }

  lemma Then(caps: Caps, roots: seq<Item>, s: State, step: Step, t: State) returns (r: State)
    requires Reachable(caps, roots, s) && Enabled(caps, s, step) && t == Next(caps, s, step)
    ensures r == t && Reachable(caps, roots, r)
  {
    var steps :| Run(caps, roots, steps) == Some(s);
    assert (steps + [step])[..|steps|] == steps;
    assert Run(caps, roots, steps + [step]) == Some(t);
    r := t;
  }

  function Repeat<T>(n: nat, x: T): seq<T> { seq(n, _ => x) }

  lemma RepeatMore<T>(n: nat, x: T)
    ensures Repeat(n, x) + [x] == Repeat(n + 1, x)
  {
  }

  function Empty(name: string): Dir { Listing(name, [], [], 0) }
  /** A root without content, and one with a single empty subdirectory. */
  function Leaf(): Item { Item(Empty("e"), "l", "r", 0) }
  function Stem(): Item { Item(Listing("s", [], [Empty("c")], 0), "l", "r", 0) }
  function StemHeld(): Held { Held(Stem(), [], [Empty("c")]) }

  /** `inFlight` roots with one subdirectory each, then frontier + 2 * inFlight empty ones. */
  function Crowd(caps: Caps): seq<Item> {
    Repeat(caps.inFlight, Stem()) + Repeat(caps.frontier + 2 * caps.inFlight, Leaf())
  }

  function Snap(frontier: seq<Item>, held: seq<Held>, ops: seq<Op>, chan: seq<Item>): State {
    State(frontier, held, ops, |ops|, chan, 0, multiset{}, 0, 0, 0, 0, false, false, Working)
  }

  /** The first root is listed, its message sent and its slot returned. */
  lemma ListFirst(caps: Caps, roots: seq<Item>, s: State) returns (t: State)
    requires Positive(caps) && Reachable(caps, roots, s) && s.frontier != []
    requires s == Snap(s.frontier, s.held, [], s.chan) && |s.chan| < caps.inFlight
    ensures t == Snap(s.frontier[1..], s.held, [], s.chan + [s.frontier[0]]) && Reachable(caps, roots, t)
  {
    hide Run, Reachable;
    var x, rest := s.frontier[0], s.frontier[1..];
    t := Then(caps, roots, s, Spawn, Snap(rest, s.held, [Scanning(x)], s.chan));
    t := Then(caps, roots, t, List(0), Snap(rest, s.held, [Sending(x)], s.chan));
    t := Then(caps, roots, t, Send(0), Snap(rest, s.held, [Returning], s.chan + [x]));
    t := Then(caps, roots, t, ReturnSlot(0), Snap(rest, s.held, [], s.chan + [x]));
  }

  /** The first root is taken and listed, and its message waits to be sent. */
  lemma HoldFirst(caps: Caps, roots: seq<Item>, s: State) returns (t: State)
    requires Reachable(caps, roots, s) && s.frontier != [] && |s.ops| < caps.inFlight
    requires s == Snap(s.frontier, s.held, s.ops, s.chan)
    ensures t == Snap(s.frontier[1..], s.held, s.ops + [Sending(s.frontier[0])], s.chan)
    ensures Reachable(caps, roots, t)
  {
    hide Run, Reachable;
    var x, rest, n := s.frontier[0], s.frontier[1..], |s.ops|;
    var ops := s.ops + [Scanning(x)];
    assert ops[n := Sending(x)] == s.ops + [Sending(x)];
    t := Then(caps, roots, s, Spawn, Snap(rest, s.held, ops, s.chan));
    t := Then(caps, roots, t, List(n), Snap(rest, s.held, s.ops + [Sending(x)], s.chan));
  }

  lemma {:induction false} StemsReceived(caps: Caps, j: nat) returns (s: State)
    requires Positive(caps) && j <= caps.inFlight
    ensures s == Snap(Crowd(caps)[j..], Repeat(j, StemHeld()), [], []) && Reachable(caps, Crowd(caps), s)
  {
    var roots := Crowd(caps);
    if j == 0 {
      s := Start(roots);
      assert roots[0..] == roots && Repeat(0, StemHeld()) == [];
      assert Run(caps, roots, []) == Some(s);
    } else {
      s := StemsReceived(caps, j - 1);
      hide Run, Reachable;
      assert s.frontier[0] == Stem() && s.frontier[1..] == roots[j..];
      s := ListFirst(caps, roots, s);
      RepeatMore(j - 1, StemHeld());
      hide Crowd, Repeat;
      s := Then(caps, roots, s, Recv, Snap(roots[j..], Repeat(j, StemHeld()), [], []));
    }
  }

  lemma {:induction false} ChannelFilled(caps: Caps, j: nat) returns (s: State)
    requires Positive(caps) && j <= caps.inFlight
    ensures s == Snap(Crowd(caps)[caps.inFlight + j..], Repeat(caps.inFlight, StemHeld()), [], Repeat(j, Leaf()))
    ensures Reachable(caps, Crowd(caps), s)
  {
    var roots, k := Crowd(caps), caps.inFlight;
    if j == 0 {
      s := StemsReceived(caps, k);
      assert Repeat(0, Leaf()) == [];
    } else {
      s := ChannelFilled(caps, j - 1);
      assert s.frontier[0] == Leaf() && s.frontier[1..] == roots[k + j..];
      s := ListFirst(caps, roots, s);
      RepeatMore(j - 1, Leaf());
    }
  }

  lemma {:induction false} SendersBlocked(caps: Caps, j: nat) returns (s: State)
    requires Positive(caps) && j <= caps.inFlight
    ensures s == Snap(Crowd(caps)[2 * caps.inFlight + j..], Repeat(caps.inFlight, StemHeld()),
                      Repeat(j, Sending(Leaf())), Repeat(caps.inFlight, Leaf()))
    ensures Reachable(caps, Crowd(caps), s)
  {
    var roots, k := Crowd(caps), caps.inFlight;
    if j == 0 {
      s := ChannelFilled(caps, k);
      assert Repeat(0, Sending(Leaf())) == [];
    } else {
      s := SendersBlocked(caps, j - 1);
      hide Run, Reachable;
      assert s.frontier[0] == Leaf() && s.frontier[1..] == roots[2 * k + j..];
      RepeatMore(j - 1, Sending(Leaf()));
      s := HoldFirst(caps, roots, s);
    }
  }

  /** The comments promise that an operation's send never blocks. It can: for
      all caps there is a job of frontier + 4 * inFlight directories and a run
      of it that deadlocks. */
  lemma DeadlockReachable(caps: Caps) returns (s: State)
    requires Positive(caps)
    ensures Reachable(caps, Crowd(caps), s) && s.pc == Working && !s.pause && !s.cancel && Deadlocked(caps, s)
    ensures WalkAll(caps, Crowd(caps)).entries == caps.frontier + 4 * caps.inFlight
  {
    hide Run, Reachable, WalkAll, Walk, Leaf, Stem;
    s := SendersBlocked(caps, caps.inFlight);
    CrowdEntries(caps);
  }

  lemma EmptyDirEntries(caps: Caps, parent: Item, name: string)
    ensures WalkChild(caps, parent, Empty(name)).entries == 1
  {
    hide Walk;
    var child := Child(parent, Empty(name));
    RootEntries(caps, child);
    assert WalkDirs(caps, child, []) == NOTHING;
  }

  lemma {:induction false} EmptyDirsEntries(caps: Caps, parent: Item, dirs: seq<Dir>)
    requires forall d :: d in dirs ==> d == Empty(d.name)
    ensures WalkDirs(caps, parent, dirs).entries == |dirs|
  {
    hide WalkChild;
    if dirs != [] {
      EmptyDirsEntries(caps, parent, dirs[1..]);
      EmptyDirEntries(caps, parent, dirs[0].name);
      assert dirs[0] == Empty(dirs[0].name);
    }
  }

  lemma OneMore(n: nat, e: nat)
    requires n > 0
    ensures n * e == (n - 1) * e + e
  {
  }

  lemma {:induction false} RepeatEntries(caps: Caps, n: nat, x: Item, more: seq<Item>)
    ensures WalkAll(caps, Repeat(n, x) + more).entries == n * Walk(caps, x).entries + WalkAll(caps, more).entries
  {
    hide Walk;
    var all := Repeat(n, x) + more;
    if n == 0 {
      assert all == more;
    } else {
      assert all[0] == x && all[1..] == Repeat(n - 1, x) + more;
      RepeatEntries(caps, n - 1, x, more);
      OneMore(n, Walk(caps, x).entries);
    }
  }

  lemma RootSizes(caps: Caps)
    ensures Walk(caps, Leaf()).entries == 1 && Walk(caps, Stem()).entries == 2
  {
    hide Walk, WalkDirs;
    EmptyDirsEntries(caps, Stem(), Stem().dir.dirs);
    EmptyDirsEntries(caps, Leaf(), Leaf().dir.dirs);
    RootEntries(caps, Stem());
    RootEntries(caps, Leaf());
  }

  lemma CrowdEntries(caps: Caps)
    ensures WalkAll(caps, Crowd(caps)).entries == caps.frontier + 4 * caps.inFlight
  {
    hide Walk, Leaf, Stem, Repeat;
    var leaves := Repeat(caps.frontier + 2 * caps.inFlight, Leaf());
    RootSizes(caps);
    RepeatEntries(caps, caps.inFlight, Stem(), leaves);
    RepeatEntries(caps, caps.frontier + 2 * caps.inFlight, Leaf(), []);
    assert leaves + [] == leaves;
  }

  /** The exact safe size: no job of at most `size` directories can deadlock if
      and only if `size` is below frontier + 4 * inFlight. */
  lemma SafeSizeExact(caps: Caps, size: nat)
    requires Positive(caps)
    ensures (forall roots, s | Reachable(caps, roots, s) && WalkAll(caps, roots).entries <= size &&
                               s.pc == Working && !s.pause && !s.cancel :: !Deadlocked(caps, s))
            <==> size < caps.frontier + 4 * caps.inFlight
  {
    hide WalkAll, Deadlocked;
    if size < caps.frontier + 4 * caps.inFlight {
      forall roots, s | Reachable(caps, roots, s) && WalkAll(caps, roots).entries <= size &&
        s.pc == Working && !s.pause && !s.cancel
        ensures !Deadlocked(caps, s)
      {
        var steps :| Run(caps, roots, steps) == Some(s);
        SmallTreesNeverStick(caps, roots, steps);
        StuckExactlyWhenDeadlocked(caps, roots, steps);
      }
    } else {
      var s := DeadlockReachable(caps);
    }
  }

  lemma RootEntries(caps: Caps, r: Item)
    requires r.dir.Listing?
    ensures Walk(caps, r).entries == 1 + WalkDirs(caps, r, r.dir.dirs).entries
  {
    hide WalkDirs;
  }

  // ---------- one root is enough ----------

  function StemDir(): Dir { Listing("s", [], [Empty("c")], 0) }

  /** One root: inFlight - 1 subdirectories that have one themselves, then
      frontier + 2 * inFlight + 1 empty ones. */
  function Trunk(caps: Caps): Item
    requires Positive(caps)
  {
    Item(Listing("t", [], Repeat(caps.inFlight - 1, StemDir()) +
                          Repeat(caps.frontier + 2 * caps.inFlight + 1, Empty("e")), 0), "l", "r", 0)
  }

  /** The trunk's listing after its first `j` subdirectories were placed. */
  function Rest(caps: Caps, j: nat): Held
    requires Positive(caps) && j <= |Trunk(caps).dir.dirs|
  {
    Held(Trunk(caps), [], Trunk(caps).dir.dirs[j..])
  }

  function Twig(caps: Caps): Item
    requires Positive(caps)
  {
    Child(Trunk(caps), Empty("e"))
  }

  function Bough(caps: Caps): Held
    requires Positive(caps)
  {
    Held(Child(Trunk(caps), StemDir()), [], [Empty("c")])
  }

  lemma TrunkDirs(caps: Caps, j: nat)
    requires Positive(caps) && j < caps.frontier + 3 * caps.inFlight
    ensures Trunk(caps).dir.Listing? && |Trunk(caps).dir.dirs| == caps.frontier + 3 * caps.inFlight
    ensures Trunk(caps).dir.dirs[j] == if j < caps.inFlight - 1 then StemDir() else Empty("e")
  {
  }

  lemma KidsAreKept(caps: Caps)
    requires Positive(caps) && caps.maxDepth >= 1
    ensures !Pruned(caps, Twig(caps)) && !Pruned(caps, Bough(caps).parent)
  {
  }

  /** The trunk's next subdirectory moves to the frontier. */
  lemma PlaceNext(caps: Caps, j: nat, more: seq<Held>, s: State) returns (t: State)
    requires Positive(caps) && j + 1 < |Trunk(caps).dir.dirs| && Reachable(caps, [Trunk(caps)], s)
    requires s == Snap(s.frontier, [Rest(caps, j)] + more, s.ops, s.chan) && |s.frontier| < caps.frontier
    requires !Pruned(caps, Child(Trunk(caps), Trunk(caps).dir.dirs[j]))
    ensures t == Snap(s.frontier + [Child(Trunk(caps), Trunk(caps).dir.dirs[j])],
                      [Rest(caps, j + 1)] + more, s.ops, s.chan)
    ensures Reachable(caps, [Trunk(caps)], t)
  {
    hide Run, Reachable, Pruned, Child;
    var dirs := Trunk(caps).dir.dirs;
    assert dirs[j..][0] == dirs[j] && dirs[j..][1..] == dirs[j + 1..];
    assert s.held[0 := Rest(caps, j + 1)] == [Rest(caps, j + 1)] + more;
    hide Trunk;
    t := Then(caps, [Trunk(caps)], s, PlaceDir(0),
              Snap(s.frontier + [Child(Trunk(caps), dirs[j])], [Rest(caps, j + 1)] + more, s.ops, s.chan));
  }

  lemma TrunkReceived(caps: Caps) returns (s: State)
    requires Positive(caps)
    ensures s == Snap([], [Rest(caps, 0)], [], []) && Reachable(caps, [Trunk(caps)], s)
  {
    var roots := [Trunk(caps)];
    s := Start(roots);
    assert Run(caps, roots, []) == Some(s);
    assert Reachable(caps, roots, s);
    hide Run, Reachable;
    s := ListFirst(caps, roots, s);
    var dirs := Trunk(caps).dir.dirs;
    assert dirs[0..] == dirs && |dirs| > 0;
    hide Repeat;
    s := Then(caps, roots, s, Recv, Snap([], [Rest(caps, 0)], [], []));
  }

  lemma {:induction false} BoughsReceived(caps: Caps, j: nat) returns (s: State)
    requires Positive(caps) && caps.maxDepth >= 1 && j < caps.inFlight
    ensures s == Snap([], [Rest(caps, j)] + Repeat(j, Bough(caps)), [], []) && Reachable(caps, [Trunk(caps)], s)
  {
    if j == 0 {
      s := TrunkReceived(caps);
      assert [Rest(caps, 0)] + Repeat(0, Bough(caps)) == [Rest(caps, 0)];
    } else {
      s := BoughsReceived(caps, j - 1);
      KidsAreKept(caps);
      assert Trunk(caps).dir.dirs[j - 1] == StemDir();
      hide Run, Reachable, Pruned, Child;
      s := PlaceNext(caps, j - 1, Repeat(j - 1, Bough(caps)), s);
      s := ListFirst(caps, [Trunk(caps)], s);
      RepeatMore(j - 1, Bough(caps));
      assert s.held + [Bough(caps)] == [Rest(caps, j)] + Repeat(j, Bough(caps));
      hide Trunk, Repeat;
      s := Then(caps, [Trunk(caps)], s, Recv, Snap([], [Rest(caps, j)] + Repeat(j, Bough(caps)), [], []));
    }
  }

  /** All but the empty subdirectories received, the first `j` subdirectories placed. */
  function Stage(caps: Caps, frontier: seq<Item>, j: nat, ops: seq<Op>, chan: seq<Item>): State
    requires Positive(caps) && j < caps.frontier + 3 * caps.inFlight
  {
    TrunkDirs(caps, 0);
    Snap(frontier, [Rest(caps, j)] + Repeat(caps.inFlight - 1, Bough(caps)), ops, chan)
  }

  ghost predicate Staged(caps: Caps, s: State)
    requires Positive(caps)
  {
    Reachable(caps, [Trunk(caps)], s)
  }

  lemma StagePlace(caps: Caps, frontier: seq<Item>, j: nat, ops: seq<Op>, chan: seq<Item>)
    requires Positive(caps) && caps.maxDepth >= 1 && caps.inFlight - 1 <= j && j + 1 < caps.frontier + 3 * caps.inFlight
    requires |frontier| < caps.frontier && Staged(caps, Stage(caps, frontier, j, ops, chan))
    ensures Staged(caps, Stage(caps, frontier + [Twig(caps)], j + 1, ops, chan))
  {
    KidsAreKept(caps);
    TrunkDirs(caps, j);
    hide Run, Reachable, Pruned, Child, Trunk, Bough, Repeat;
    var s := PlaceNext(caps, j, Repeat(caps.inFlight - 1, Bough(caps)), Stage(caps, frontier, j, ops, chan));
  }

  /** The next empty subdirectory is placed, listed and sent. */
  lemma StageSend(caps: Caps, j: nat, chan: seq<Item>)
    requires Positive(caps) && caps.maxDepth >= 1 && caps.inFlight - 1 <= j && j + 1 < caps.frontier + 3 * caps.inFlight
    requires |chan| < caps.inFlight && Staged(caps, Stage(caps, [], j, [], chan))
    ensures Staged(caps, Stage(caps, [], j + 1, [], chan + [Twig(caps)]))
  {
    StagePlace(caps, [], j, [], chan);
    hide Run, Reachable, Twig, Rest, Repeat;
    var s := ListFirst(caps, [Trunk(caps)], Stage(caps, [] + [Twig(caps)], j + 1, [], chan));
    assert s.frontier == [];
  }

  /** The next empty subdirectory is placed and listed, and stays to be sent. */
  lemma StageHold(caps: Caps, j: nat, ops: seq<Op>, chan: seq<Item>)
    requires Positive(caps) && caps.maxDepth >= 1 && caps.inFlight - 1 <= j && j + 1 < caps.frontier + 3 * caps.inFlight
    requires |ops| < caps.inFlight && Staged(caps, Stage(caps, [], j, ops, chan))
    ensures Staged(caps, Stage(caps, [], j + 1, ops + [Sending(Twig(caps))], chan))
  {
    StagePlace(caps, [], j, ops, chan);
    hide Run, Reachable, Twig, Rest, Repeat;
    var s := HoldFirst(caps, [Trunk(caps)], Stage(caps, [] + [Twig(caps)], j + 1, ops, chan));
    assert s.frontier == [];
  }

  lemma StageStart(caps: Caps)
    requires Positive(caps) && caps.maxDepth >= 1
    ensures Staged(caps, Stage(caps, [], caps.inFlight - 1, [], []))
  {
    hide Run, Reachable, Repeat, Rest, Bough;
    var s := BoughsReceived(caps, caps.inFlight - 1);
  }

  lemma {:induction false} TwigsSent(caps: Caps, j: nat)
    requires Positive(caps) && caps.maxDepth >= 1 && j <= caps.inFlight
    ensures Staged(caps, Stage(caps, [], caps.inFlight - 1 + j, [], Repeat(j, Twig(caps))))
  {
    hide Stage, Staged, Twig;
    if j == 0 {
      StageStart(caps);
      assert Repeat(0, Twig(caps)) == [];
    } else {
      TwigsSent(caps, j - 1);
      RepeatMore(j - 1, Twig(caps));
      StageSend(caps, caps.inFlight - 2 + j, Repeat(j - 1, Twig(caps)));
    }
  }

  lemma {:induction false} TwigsBlocked(caps: Caps, j: nat)
    requires Positive(caps) && caps.maxDepth >= 1 && j <= caps.inFlight
    ensures Staged(caps, Stage(caps, [], 2 * caps.inFlight - 1 + j, Repeat(j, Sending(Twig(caps))),
                               Repeat(caps.inFlight, Twig(caps))))
  {
    hide Stage, Staged, Twig;
    if j == 0 {
      TwigsSent(caps, caps.inFlight);
      assert Repeat(0, Sending(Twig(caps))) == [];
    } else {
      TwigsBlocked(caps, j - 1);
      RepeatMore(j - 1, Sending(Twig(caps)));
      StageHold(caps, 2 * caps.inFlight - 2 + j, Repeat(j - 1, Sending(Twig(caps))), Repeat(caps.inFlight, Twig(caps)));
    }
  }

  lemma {:induction false} FrontierFilled(caps: Caps, j: nat)
    requires Positive(caps) && caps.maxDepth >= 1 && j <= caps.frontier
    ensures Staged(caps, Stage(caps, Repeat(j, Twig(caps)), 3 * caps.inFlight - 1 + j,
                               Repeat(caps.inFlight, Sending(Twig(caps))), Repeat(caps.inFlight, Twig(caps))))
  {
    hide Stage, Staged, Twig;
    var ops, chan := Repeat(caps.inFlight, Sending(Twig(caps))), Repeat(caps.inFlight, Twig(caps));
    if j == 0 {
      TwigsBlocked(caps, caps.inFlight);
      assert Repeat(0, Twig(caps)) == [];
    } else {
      FrontierFilled(caps, j - 1);
      RepeatMore(j - 1, Twig(caps));
      StagePlace(caps, Repeat(j - 1, Twig(caps)), 3 * caps.inFlight - 2 + j, ops, chan);
    }
  }

  lemma {:induction false} RepeatDirs(caps: Caps, parent: Item, n: nat, d: Dir, more: seq<Dir>)
    ensures WalkDirs(caps, parent, Repeat(n, d) + more).entries ==
            n * WalkChild(caps, parent, d).entries + WalkDirs(caps, parent, more).entries
  {
    hide WalkChild;
    var all := Repeat(n, d) + more;
    if n == 0 {
      assert all == more;
    } else {
      assert all[0] == d && all[1..] == Repeat(n - 1, d) + more;
      RepeatDirs(caps, parent, n - 1, d, more);
      OneMore(n, WalkChild(caps, parent, d).entries);
    }
  }

  lemma StemEntries(caps: Caps)
    requires Positive(caps) && caps.maxDepth >= 1
    ensures WalkChild(caps, Trunk(caps), StemDir()).entries == 2
  {
    hide Walk, WalkDirs;
    KidsAreKept(caps);
    var stem := Child(Trunk(caps), StemDir());
    RootEntries(caps, stem);
    EmptyDirsEntries(caps, stem, stem.dir.dirs);
  }

  lemma TrunkEntries(caps: Caps)
    requires Positive(caps) && caps.maxDepth >= 1
    ensures WalkAll(caps, [Trunk(caps)]).entries == caps.frontier + 4 * caps.inFlight
  {
    hide Walk, WalkChild, WalkDirs, Repeat;
    var n := caps.frontier + 2 * caps.inFlight + 1;
    StemEntries(caps);
    RepeatDirs(caps, Trunk(caps), caps.inFlight - 1, StemDir(), Repeat(n, Empty("e")));
    EmptyRepeat(caps, n);
    RootEntries(caps, Trunk(caps));
    assert [Trunk(caps)][1..] == [];
    assert WalkAll(caps, []) == NOTHING;
  }

  lemma EmptyRepeat(caps: Caps, n: nat)
    requires Positive(caps)
    ensures WalkDirs(caps, Trunk(caps), Repeat(n, Empty("e"))).entries == n
  {
    EmptyDirsEntries(caps, Trunk(caps), Repeat(n, Empty("e")));
  }

  /** A single root of that size does it too, with the frontier never above its cap. */
  lemma OneRootDeadlocks(caps: Caps) returns (s: State)
    requires Positive(caps) && caps.maxDepth >= 1
    ensures Reachable(caps, [Trunk(caps)], s) && s.pc == Working && !s.pause && !s.cancel && Deadlocked(caps, s)
    ensures WalkAll(caps, [Trunk(caps)]).entries == caps.frontier + 4 * caps.inFlight
  {
    FrontierFilled(caps, caps.frontier);
    TrunkEntries(caps);
    TrunkDirs(caps, 0);
    hide Run, Reachable, Trunk, Twig, WalkAll;
    var k := caps.inFlight;
    s := Stage(caps, Repeat(caps.frontier, Twig(caps)), 3 * k - 1 + caps.frontier,
               Repeat(k, Sending(Twig(caps))), Repeat(k, Twig(caps)));
  }

  // ---------- place_held ----------

  /** Nothing more of this entry can be placed: its directories wait for the
      frontier, its files for the ready queue or the end of a pause. */
  predicate Blocked(caps: Caps, s: State, h: Held) {
    && (h.dirs == [] || |s.frontier| >= caps.frontier)
    && (h.files == [] || s.ready >= caps.ready || s.pause || s.cancel)
  }

  ghost predicate PlacesOnly(steps: seq<Step>) {
    forall e :: e in steps ==> e.PlaceDir? || e.PlaceFile?
  }

  /** A pass in progress: `s` was reached by placing steps and every listing
      before position `i` is blocked. */
  ghost predicate Pass(caps: Caps, before: State, steps: seq<Step>, s: State, i: nat) {
    && Exec(caps, before, steps) == Some(s) && PlacesOnly(steps)
    && Shape(caps, s) && s.pc == Working
    && i <= |s.held|
    && forall j :: 0 <= j < i ==> Blocked(caps, s, s.held[j])
  }

  lemma EmptyPass(caps: Caps, before: State)
    requires before.pc == Working && Shape(caps, before)
    ensures Pass(caps, before, [], before, 0)
  {
  }

  lemma PlaceStep(caps: Caps, before: State, steps: seq<Step>, s: State, i: nat, e: Step)
    requires Pass(caps, before, steps, s, i) && Enabled(caps, s, e) && (e == PlaceDir(i) || e == PlaceFile(i))
    ensures Pass(caps, before, steps + [e], Next(caps, s, e), i)
    ensures var t := Next(caps, s, e);
            && (|t.held| == |s.held| - 1 || |t.held| == |s.held|)
            && (|t.held| == |s.held| && e == PlaceDir(i) ==> t.held[i] == s.held[i].(dirs := s.held[i].dirs[1..]))
            && (|t.held| == |s.held| && e == PlaceFile(i) ==> t.held[i] == s.held[i].(files := s.held[i].files[1..]))
            && |s.frontier| <= |t.frontier|
  {
    assert (steps + [e])[..|steps|] == steps;
    ShapeKept(caps, s, e);
  }

  /** Empties the directory lane of listing `i` while the frontier has room. */
  method PlaceDirs(caps: Caps, before: State, i: nat, from: State, ghost done: seq<Step>)
    returns (s: State, ghost steps: seq<Step>)
    requires Pass(caps, before, done, from, i) && i < |from.held|
    ensures Pass(caps, before, steps, s, i)
    ensures |s.held| == |from.held| - 1 || |s.held| == |from.held|
    ensures |s.held| == |from.held| ==> s.held[i].dirs == [] || |s.frontier| >= caps.frontier
  {
    hide Exec, Next, Shape;
    s, steps := from, done;
    while |s.held| == |from.held| && s.held[i].dirs != [] && |s.frontier| < caps.frontier
      invariant Pass(caps, before, steps, s, i)
      invariant |s.held| == |from.held| - 1 || |s.held| == |from.held|
      decreases |s.held|, if i < |s.held| then |s.held[i].dirs| else 0
    {
      PlaceStep(caps, before, steps, s, i, PlaceDir(i));
      steps := steps + [PlaceDir(i)];
      s := Next(caps, s, PlaceDir(i));
    }
  }

  /** Empties the file lane of listing `i` while the ready queue has room. */
  method PlaceFiles(caps: Caps, before: State, i: nat, from: State, ghost done: seq<Step>)
    returns (s: State, ghost steps: seq<Step>)
    requires Pass(caps, before, done, from, i) && i < |from.held|
    requires from.held[i].dirs == [] || |from.frontier| >= caps.frontier
    ensures Pass(caps, before, steps, s, i)
    ensures |s.held| == |from.held| - 1 || |s.held| == |from.held|
    ensures |s.held| == |from.held| ==> Blocked(caps, s, s.held[i])
  {
    hide Exec, Next, Shape;
    s, steps := from, done;
    while |s.held| == |from.held| && s.held[i].files != [] && !s.pause && !s.cancel && s.ready < caps.ready
      invariant Pass(caps, before, steps, s, i)
      invariant |s.held| == |from.held| - 1 || |s.held| == |from.held|
      invariant |s.held| == |from.held| ==> s.held[i].dirs == [] || |s.frontier| >= caps.frontier
      decreases |s.held|, if i < |s.held| then |s.held[i].files| else 0
    {
      PlaceStep(caps, before, steps, s, i, PlaceFile(i));
      steps := steps + [PlaceFile(i)];
      s := Next(caps, s, PlaceFile(i));
    }
  }

  /** `place_held`: one pass over the held listings, emptying each listing's
      directory lane and then its file lane as far as room allows. The pass is
      a schedule of the model's own placing steps, and afterwards every listing
      still held is blocked in both lanes. */
  method PlaceHeld(caps: Caps, before: State) returns (s: State, ghost steps: seq<Step>)
    requires before.pc == Working && Shape(caps, before)
    ensures Exec(caps, before, steps) == Some(s) && PlacesOnly(steps)
    ensures Shape(caps, s) && s.pc == Working
    ensures forall h :: h in s.held ==> Blocked(caps, s, h)
  {
    hide Exec, Next, Shape;
    EmptyPass(caps, before);
    s, steps := before, [];
    var i := 0;
    while i < |s.held|
      invariant Pass(caps, before, steps, s, i)
      decreases |s.held| - i
    {
      var n := |s.held|;
      s, steps := PlaceDirs(caps, before, i, s, steps);
      if |s.held| == n {
        s, steps := PlaceFiles(caps, before, i, s, steps);
        if |s.held| == n {
          i := i + 1;
        }
      }
    }
  }
}
