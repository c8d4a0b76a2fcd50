/** Tunnel groups and connection accounting of `core-tunnel`. Tunnels to one
    destination share a group through a lease count; connections hold a relay
    permit of their tunnel and a channel permit of the group. */
module TunnelGroups {
  import opened Options
  import opened Sums

  /** Every group ever created; `shutdowns` counts the shutdown signals sent. */
  datatype Group = Group(key: string, leases: int, shutdowns: nat)

  /** A tunnel task holds its group until it gives the lease back. */
  datatype Tunnel = Holding(g: nat) | Released

  datatype Registry = Registry(groups: seq<Group>, byKey: map<string, nat>, tunnels: seq<Tunnel>)

  datatype Step = Acquire(key: string) | Release(t: nat)

  function Start(): Registry { Registry([], map[], []) }

  predicate Enabled(r: Registry, step: Step) {
    match step
    case Acquire(key) => key in r.byKey ==> r.byKey[key] < |r.groups|
    case Release(t) => t < |r.tunnels| && r.tunnels[t].Holding? && r.tunnels[t].g < |r.groups|
  }

  /** Both operations run under the registry lock. */
  function Next(r: Registry, step: Step): Registry
    requires Enabled(r, step)
  {
    match step
    case Acquire(key) =>
      if key in r.byKey then
        var g := r.byKey[key];
        r.(groups := r.groups[g := r.groups[g].(leases := r.groups[g].leases + 1)], tunnels := r.tunnels + [Holding(g)])
      else
        var g := |r.groups|;
        Registry(r.groups + [Group(key, 1, 0)], r.byKey[key := g], r.tunnels + [Holding(g)])
    case Release(t) =>
      var g := r.tunnels[t].g;
      var x := r.groups[g];
      var left := r.(groups := r.groups[g := x.(leases := x.leases - 1)], tunnels := r.tunnels[t := Released]);
      if x.leases == 1 then
        left.(byKey := left.byKey - {x.key},
              groups := left.groups[g := x.(leases := 0, shutdowns := x.shutdowns + 1)])
      else left
  }

  function Run(steps: seq<Step>): Option<Registry> {
    if steps == [] then Some(Start())
    else
      var k := |steps| - 1;
      var before := Run(steps[..k]);
      if before.Some? && Enabled(before.value, steps[k]) then Some(Next(before.value, steps[k])) else None
  }

  function Holds(g: nat): Tunnel -> int { (t: Tunnel) => if t == Holding(g) then 1 else 0 }

  /** Leases are the tunnels holding the group; it is registered under its key
      while it has any; it was shut down once if and only if it has none. */
  ghost predicate GroupOk(r: Registry, g: nat)
    requires g < |r.groups|
  {
    var x := r.groups[g];
    && x.leases == Sum(r.tunnels, Holds(g))
    && x.leases >= 0
    && (x.leases > 0 <==> x.key in r.byKey && r.byKey[x.key] == g)
    && x.shutdowns == (if x.leases == 0 then 1 else 0)
  }

  ghost predicate Inv(r: Registry) {
    && (forall g :: 0 <= g < |r.groups| ==> GroupOk(r, g))
    && (forall k :: k in r.byKey ==> r.byKey[k] < |r.groups| && r.groups[r.byKey[k]].key == k)
    && (forall t :: t in r.tunnels && t.Holding? ==> t.g < |r.groups|)
  }

  lemma AcquireKeeps(r: Registry, key: string)
    requires Inv(r) && Enabled(r, Acquire(key))
    ensures Inv(Next(r, Acquire(key)))
  {
    var n := Next(r, Acquire(key));
    forall g | 0 <= g < |n.groups| ensures GroupOk(n, g) {
      SumAppend(r.tunnels, n.tunnels[|r.tunnels|], Holds(g));
      if g < |r.groups| {
        assert GroupOk(r, g);
      } else {
        SumZero(r.tunnels, Holds(g));
      }
    }
  }

  lemma ReleaseKeeps(r: Registry, t: nat)
    requires Inv(r) && Enabled(r, Release(t))
    ensures Inv(Next(r, Release(t)))
  {
    var n := Next(r, Release(t));
    var h := r.tunnels[t].g;
    assert GroupOk(r, h);
    assert r.tunnels[t] in r.tunnels;
    SumAtLeast(r.tunnels, t, Holds(h));
    forall g | 0 <= g < |n.groups| ensures GroupOk(n, g) {
      assert GroupOk(r, g);
      SumUpdate(r.tunnels, t, Released, Holds(g));
    }
  }

  lemma {:induction false} RunKeeps(steps: seq<Step>)
    requires Run(steps).Some?
    ensures Inv(Run(steps).value)
  {
    if steps != [] {
      var k := |steps| - 1;
      RunKeeps(steps[..k]);
      match steps[k]
      case Acquire(key) => AcquireKeeps(Run(steps[..k]).value, key);
      case Release(t) => ReleaseKeeps(Run(steps[..k]).value, t);
    }
  }

  /** In every run: a group's leases are the tunnels holding it, no tunnel holds
      a group that was shut down, a group was shut down exactly when it has no
      lease left and never twice, and two live groups never share a key. */
  lemma GroupsAgreeWithHolders(steps: seq<Step>)
    requires Run(steps).Some?
    ensures var r := Run(steps).value;
            && (forall g :: 0 <= g < |r.groups| ==>
                  r.groups[g].leases == Sum(r.tunnels, Holds(g)) &&
                  r.groups[g].shutdowns == (if r.groups[g].leases == 0 then 1 else 0))
            && (forall t :: 0 <= t < |r.tunnels| && r.tunnels[t].Holding? ==>
                  r.tunnels[t].g < |r.groups| && r.groups[r.tunnels[t].g].shutdowns == 0)
            && (forall g, h | 0 <= g < |r.groups| && 0 <= h < |r.groups| && r.groups[g].leases > 0 &&
                              r.groups[h].leases > 0 && r.groups[g].key == r.groups[h].key :: g == h)
  {
    RunKeeps(steps);
    var r := Run(steps).value;
    forall g | 0 <= g < |r.groups|
      ensures r.groups[g].leases == Sum(r.tunnels, Holds(g)) &&
              r.groups[g].shutdowns == (if r.groups[g].leases == 0 then 1 else 0)
    {
      assert GroupOk(r, g);
    }
    forall t | 0 <= t < |r.tunnels| && r.tunnels[t].Holding?
      ensures r.tunnels[t].g < |r.groups| && r.groups[r.tunnels[t].g].shutdowns == 0
    {
      assert r.tunnels[t] in r.tunnels;
      assert GroupOk(r, r.tunnels[t].g);
      SumAtLeast(r.tunnels, t, Holds(r.tunnels[t].g));
    }
    forall g, h | 0 <= g < |r.groups| && 0 <= h < |r.groups| && r.groups[g].leases > 0 &&
      r.groups[h].leases > 0 && r.groups[g].key == r.groups[h].key
      ensures g == h
    {
      assert GroupOk(r, g) && GroupOk(r, h);
    }
  }

  /** The manager's two lock sections as written. */
  class TunnelManager {
    var groups: seq<Group>
    var byKey: map<string, nat>
    var tunnels: seq<Tunnel>

    ghost function View(): Registry
      reads this
    {
      Registry(groups, byKey, tunnels)
    }

    constructor ()
      ensures View() == Start() && Inv(View())
    {
      groups, byKey, tunnels := [], map[], [];
    }

    method AcquireGroup(key: string) returns (g: nat)
      requires Inv(View())
      modifies this
      ensures Inv(View()) && View() == Next(old(View()), Acquire(key))
      ensures g < |groups| && groups[g].key == key && groups[g].leases > 0 && groups[g].shutdowns == 0
      ensures tunnels == old(tunnels) + [Holding(g)]
    {
      AcquireKeeps(View(), key);
      if key in byKey {
        g := byKey[key];
        assert GroupOk(View(), g);
        groups := groups[g := groups[g].(leases := groups[g].leases + 1)];
      } else {
        g := |groups|;
        groups := groups + [Group(key, 1, 0)];
        byKey := byKey[key := g];
      }
      tunnels := tunnels + [Holding(g)];
    }

    method ReleaseGroup(t: nat) returns (last: bool)
      requires Inv(View()) && t < |tunnels| && tunnels[t].Holding?
      modifies this
      ensures Inv(View()) && View() == Next(old(View()), Release(t))
      ensures last <==> forall u :: 0 <= u < |tunnels| ==> tunnels[u] != Holding(old(tunnels)[t].g)
    {
      assert tunnels[t] in tunnels;
      ReleaseKeeps(View(), t);
      ghost var after := Next(View(), Release(t));
      var g := tunnels[t].g;
      var x := groups[g];
      groups := groups[g := x.(leases := x.leases - 1)];
      tunnels := tunnels[t := Released];
      last := x.leases == 1;
      if last {
        byKey := byKey - {x.key};
        groups := groups[g := x.(leases := 0, shutdowns := x.shutdowns + 1)];
      }
      assert View() == after;
      NoLeaseNoHolder(View(), g);
    }
  }

  lemma NoLeaseNoHolder(r: Registry, g: nat)
    requires Inv(r) && g < |r.groups|
    ensures r.groups[g].leases == 0 <==> forall u :: 0 <= u < |r.tunnels| ==> r.tunnels[u] != Holding(g)
  {
    assert GroupOk(r, g);
    if r.groups[g].leases > 0 {
      var u := SumWitness(r.tunnels, Holds(g));
    } else {
      forall u | 0 <= u < |r.tunnels| ensures r.tunnels[u] != Holding(g) {
        SumAtLeast(r.tunnels, u, Holds(g));
      }
    }
  }
}

/** Connections of the tunnels of one group. */
module TunnelConns {
  import opened Options
  import opened Sums

  const GROUP_CHANNEL_MAX: nat := 256
  const HANDSHAKES: nat := 64

  /** What a connection is doing. `Admitted*` has its permit but is not counted
      active yet; `Leaving` is no longer counted but still holds permits;
      `Remote*` is a forwarded channel, counted only once it has a channel
      permit. */
  datatype Phase =
    | AdmittedLocal | AdmittedSocks
    | Handshake | Parsed | WaitChannel | Relay
    | RemoteWait | RemoteReady | RemoteRelay
    | Leaving(relay: bool, channel: bool)
    | Gone

  datatype Conn = Conn(t: nat, phase: Phase)

  /** `relayFree` and `handshakeFree` are the tunnel's semaphores, `active` its
      active_conns counter, `aborted` the counted connections that were aborted
      after the grace period. */
  datatype Tunnel = Tunnel(
    maxConns: nat, relayFree: nat, handshakeFree: nat, active: int, aborted: nat, aborting: bool)

  datatype State = State(tunnels: seq<Tunnel>, conns: seq<Conn>, channels: nat)

  datatype Step =
    | Open(maxConns: nat)
    | AdmitLocal(t: nat) | AdmitSocks(t: nat) | AdmitRemote(t: nat)
    | CountIn(c: nat) | HandshakeEnd(c: nat) | ParseFail(c: nat) | TakeRelay(c: nat)
    | TakeChannel(c: nat) | ChannelTimeout(c: nat) | RelayEnd(c: nat) | RemoteCountIn(c: nat)
    | DropPermits(c: nat) | BeginAbort(t: nat) | Abort(c: nat)

  function Start(): State { State([], [], 0) }

  function PhaseOf(s: State, c: nat): Phase {
    if c < |s.conns| && s.conns[c].t < |s.tunnels| then s.conns[c].phase else Gone
  }

  predicate Enabled(s: State, step: Step) {
    match step
    case Open(_) => true
    case AdmitLocal(t) => t < |s.tunnels| && s.tunnels[t].relayFree > 0
    case AdmitSocks(t) => t < |s.tunnels| && s.tunnels[t].handshakeFree > 0
    case AdmitRemote(t) => t < |s.tunnels| && s.tunnels[t].relayFree > 0
    case CountIn(c) => PhaseOf(s, c) == AdmittedLocal || PhaseOf(s, c) == AdmittedSocks
    case HandshakeEnd(c) => PhaseOf(s, c) == Handshake
    case ParseFail(c) => PhaseOf(s, c) == Parsed
    case TakeRelay(c) => PhaseOf(s, c) == Parsed && s.tunnels[s.conns[c].t].relayFree > 0
    case TakeChannel(c) =>
      (PhaseOf(s, c) == WaitChannel || PhaseOf(s, c) == RemoteWait) && s.channels < GROUP_CHANNEL_MAX
    case ChannelTimeout(c) => PhaseOf(s, c) == WaitChannel || PhaseOf(s, c) == RemoteWait
    case RelayEnd(c) => PhaseOf(s, c) == Relay || PhaseOf(s, c) == RemoteRelay
    case RemoteCountIn(c) => PhaseOf(s, c) == RemoteReady
    case DropPermits(c) => PhaseOf(s, c).Leaving? && (PhaseOf(s, c).channel ==> s.channels > 0)
    case BeginAbort(t) => t < |s.tunnels|
    case Abort(c) =>
      PhaseOf(s, c) != Gone && s.tunnels[s.conns[c].t].aborting && (HasChannel(PhaseOf(s, c)) == 1 ==> s.channels > 0)
  }

  function Admit(s: State, t: nat, x: Tunnel, p: Phase): State
    requires t < |s.tunnels|
  {
    s.(tunnels := s.tunnels[t := x], conns := s.conns + [Conn(t, p)])
  }

  function Move(s: State, c: nat, x: Tunnel, p: Phase): State
    requires c < |s.conns| && s.conns[c].t < |s.tunnels|
  {
    s.(tunnels := s.tunnels[s.conns[c].t := x], conns := s.conns[c := s.conns[c].(phase := p)])
  }

  function Mine(s: State, c: nat): Tunnel
    requires c < |s.conns| && s.conns[c].t < |s.tunnels|
  {
    s.tunnels[s.conns[c].t]
  }

  function Next(s: State, step: Step): State
    requires Enabled(s, step)
  {
    match step
    case Open(m) => s.(tunnels := s.tunnels + [Tunnel(m, m, HANDSHAKES, 0, 0, false)])
    case AdmitLocal(t) =>
      Admit(s, t, s.tunnels[t].(relayFree := s.tunnels[t].relayFree - 1), AdmittedLocal)
    case AdmitSocks(t) =>
      Admit(s, t, s.tunnels[t].(handshakeFree := s.tunnels[t].handshakeFree - 1), AdmittedSocks)
    case AdmitRemote(t) =>
      Admit(s, t, s.tunnels[t].(relayFree := s.tunnels[t].relayFree - 1), RemoteWait)
    case CountIn(c) =>
      Move(s, c, Mine(s, c).(active := Mine(s, c).active + 1),
           if s.conns[c].phase == AdmittedLocal then WaitChannel else Handshake)
    case HandshakeEnd(c) =>
      Move(s, c, Mine(s, c).(handshakeFree := Mine(s, c).handshakeFree + 1), Parsed)
    case ParseFail(c) =>
      Move(s, c, Mine(s, c).(active := Mine(s, c).active - 1), Leaving(false, false))
    case TakeRelay(c) =>
      Move(s, c, Mine(s, c).(relayFree := Mine(s, c).relayFree - 1), WaitChannel)
    case TakeChannel(c) =>
      Move(s, c, Mine(s, c), if s.conns[c].phase == WaitChannel then Relay else RemoteReady)
        .(channels := s.channels + 1)
    case ChannelTimeout(c) =>
      // a local connection is counted already, a remote one is not
      if s.conns[c].phase == WaitChannel then
        Move(s, c, Mine(s, c).(active := Mine(s, c).active - 1), Leaving(true, false))
      else Move(s, c, Mine(s, c), Leaving(true, false))
    case RelayEnd(c) =>
      Move(s, c, Mine(s, c).(active := Mine(s, c).active - 1), Leaving(true, true))
    case RemoteCountIn(c) =>
      Move(s, c, Mine(s, c).(active := Mine(s, c).active + 1), RemoteRelay)
    case DropPermits(c) =>
      var p := s.conns[c].phase;
      Move(s, c, Mine(s, c).(relayFree := Mine(s, c).relayFree + (if p.relay then 1 else 0)), Gone)
        .(channels := if p.channel then s.channels - 1 else s.channels)
    case BeginAbort(t) => s.(tunnels := s.tunnels[t := s.tunnels[t].(aborting := true)])
    case Abort(c) =>
      // dropping the future returns its permits but skips the decrement
      var p := s.conns[c].phase;
      Move(s, c, Mine(s, c).(relayFree := Mine(s, c).relayFree + HasRelay(p),
                             handshakeFree := Mine(s, c).handshakeFree + HasHandshake(p),
                             aborted := Mine(s, c).aborted + IsCounted(p)), Gone)
        .(channels := s.channels - HasChannel(p))
  }

  function Run(steps: seq<Step>): Option<State> {
    if steps == [] then Some(Start())
    else
      var k := |steps| - 1;
      var before := Run(steps[..k]);
      if before.Some? && Enabled(before.value, steps[k]) then Some(Next(before.value, steps[k])) else None
  }

  // ---------- what each phase holds ----------

  function HasRelay(p: Phase): nat {
    match p
    case AdmittedLocal => 1
    case WaitChannel => 1
    case Relay => 1
    case RemoteWait => 1
    case RemoteReady => 1
    case RemoteRelay => 1
    case Leaving(relay, _) => if relay then 1 else 0
    case _ => 0
  }
  function HasHandshake(p: Phase): nat { if p == AdmittedSocks || p == Handshake then 1 else 0 }
  function HasChannel(p: Phase): nat {
    if p == Relay || p == RemoteReady || p == RemoteRelay || (p.Leaving? && p.channel) then 1 else 0
  }
  /** Accepted and unfinished, as the counter should see it. */
  function IsCounted(p: Phase): nat {
    if p == Handshake || p == Parsed || p == WaitChannel || p == Relay || p == RemoteRelay then 1 else 0
  }

  function RelayOf(t: nat): Conn -> int { (c: Conn) => if c.t == t then HasRelay(c.phase) else 0 }
  function HandshakeOf(t: nat): Conn -> int { (c: Conn) => if c.t == t then HasHandshake(c.phase) else 0 }
  function CountedOf(t: nat): Conn -> int { (c: Conn) => if c.t == t then IsCounted(c.phase) else 0 }
  function ChannelOf(c: Conn): int { HasChannel(c.phase) }

  ghost predicate TunnelOk(s: State, t: nat)
    requires t < |s.tunnels|
  {
    var x := s.tunnels[t];
    && x.relayFree + Sum(s.conns, RelayOf(t)) == x.maxConns
    && x.handshakeFree + Sum(s.conns, HandshakeOf(t)) == HANDSHAKES
    && x.active == Sum(s.conns, CountedOf(t)) + x.aborted
    && (x.aborted > 0 ==> x.aborting)
  }

  ghost predicate Inv(s: State) {
    && (forall t :: 0 <= t < |s.tunnels| ==> TunnelOk(s, t))
    && s.channels == Sum(s.conns, ChannelOf)
    && s.channels <= GROUP_CHANNEL_MAX
    && (forall c :: c in s.conns ==> c.t < |s.tunnels|)
  }

  lemma MoveSums(conns: seq<Conn>, c: nat, p: Phase, t: nat)
    requires c < |conns|
    ensures var m := conns[c := conns[c].(phase := p)];
            var mine := if conns[c].t == t then 1 else 0;
            && Sum(m, RelayOf(t)) == Sum(conns, RelayOf(t)) + mine * (HasRelay(p) - HasRelay(conns[c].phase))
            && Sum(m, HandshakeOf(t)) == Sum(conns, HandshakeOf(t)) + mine * (HasHandshake(p) - HasHandshake(conns[c].phase))
            && Sum(m, CountedOf(t)) == Sum(conns, CountedOf(t)) + mine * (IsCounted(p) - IsCounted(conns[c].phase))
            && Sum(m, ChannelOf) == Sum(conns, ChannelOf) + HasChannel(p) - HasChannel(conns[c].phase)
  {
    var x := conns[c].(phase := p);
    SumUpdate(conns, c, x, RelayOf(t));
    SumUpdate(conns, c, x, HandshakeOf(t));
    SumUpdate(conns, c, x, CountedOf(t));
    SumUpdate(conns, c, x, ChannelOf);
  }

  lemma AdmitSums(conns: seq<Conn>, x: Conn, t: nat)
    ensures Sum(conns + [x], RelayOf(t)) == Sum(conns, RelayOf(t)) + RelayOf(t)(x)
    ensures Sum(conns + [x], HandshakeOf(t)) == Sum(conns, HandshakeOf(t)) + HandshakeOf(t)(x)
    ensures Sum(conns + [x], CountedOf(t)) == Sum(conns, CountedOf(t)) + CountedOf(t)(x)
    ensures Sum(conns + [x], ChannelOf) == Sum(conns, ChannelOf) + ChannelOf(x)
  {
    SumAppend(conns, x, RelayOf(t));
    SumAppend(conns, x, HandshakeOf(t));
    SumAppend(conns, x, CountedOf(t));
    SumAppend(conns, x, ChannelOf);
  }

  /** Steps of one connection. */
  predicate OfConn(step: Step) {
    !step.Open? && !step.AdmitLocal? && !step.AdmitSocks? && !step.AdmitRemote? && !step.BeginAbort?
  }

  predicate GivesBack(step: Step) { step.Abort? || step.DropPermits? || step.HandshakeEnd? || step.ParseFail? }

  lemma ConnGivesBack(s: State, step: Step)
    requires Inv(s) && Enabled(s, step) && OfConn(step) && GivesBack(step)
    ensures TunnelOk(Next(s, step), s.conns[step.c].t)
  {
    hide Sum;
    var n, t := Next(s, step), s.conns[step.c].t;
    assert TunnelOk(s, t);
    hide Inv;
    assert n.conns == s.conns[step.c := s.conns[step.c].(phase := n.conns[step.c].phase)];
    MoveSums(s.conns, step.c, n.conns[step.c].phase, t);
  }

  lemma ConnGoesOn(s: State, step: Step)
    requires Inv(s) && Enabled(s, step) && OfConn(step) && !GivesBack(step)
    ensures TunnelOk(Next(s, step), s.conns[step.c].t)
  {
    hide Sum;
    var n, t := Next(s, step), s.conns[step.c].t;
    assert TunnelOk(s, t);
    hide Inv;
    assert n.conns == s.conns[step.c := s.conns[step.c].(phase := n.conns[step.c].phase)];
    MoveSums(s.conns, step.c, n.conns[step.c].phase, t);
  }

  lemma ConnStepOther(s: State, step: Step, t: nat)
    requires Inv(s) && Enabled(s, step) && OfConn(step) && t < |s.tunnels| && t != s.conns[step.c].t
    ensures TunnelOk(Next(s, step), t)
  {
    hide Sum, HasRelay, HasHandshake, HasChannel, IsCounted;
    var n := Next(s, step);
    assert TunnelOk(s, t);
    hide Inv;
    assert n.conns == s.conns[step.c := s.conns[step.c].(phase := n.conns[step.c].phase)];
    MoveSums(s.conns, step.c, n.conns[step.c].phase, t);
  }

  lemma ConnStepTunnel(s: State, step: Step, t: nat)
    requires Inv(s) && Enabled(s, step) && OfConn(step) && t < |s.tunnels|
    ensures TunnelOk(Next(s, step), t)
  {
    hide Inv, Next, TunnelOk;
    if t == s.conns[step.c].t && GivesBack(step) {
      ConnGivesBack(s, step);
    } else if t == s.conns[step.c].t {
      ConnGoesOn(s, step);
    } else {
      ConnStepOther(s, step, t);
    }
  }

  lemma ConnStepChannels(s: State, step: Step)
    requires Inv(s) && Enabled(s, step) && OfConn(step)
    ensures Next(s, step).channels == Sum(Next(s, step).conns, ChannelOf) <= GROUP_CHANNEL_MAX
  {
    hide Sum, TunnelOk;
    var n := Next(s, step);
    assert n.conns == s.conns[step.c := s.conns[step.c].(phase := n.conns[step.c].phase)];
    MoveSums(s.conns, step.c, n.conns[step.c].phase, 0);
  }

  lemma AdmitStepTunnel(s: State, step: Step, t: nat)
    requires Inv(s) && Enabled(s, step) && !OfConn(step) && t < |Next(s, step).tunnels|
    ensures TunnelOk(Next(s, step), t)
    ensures Next(s, step).channels == Sum(Next(s, step).conns, ChannelOf) <= GROUP_CHANNEL_MAX
  {
    hide Sum;
    var n := Next(s, step);
    if t < |s.tunnels| {
      assert TunnelOk(s, t);
    } else {
      SumZero(s.conns, RelayOf(t));
      SumZero(s.conns, HandshakeOf(t));
      SumZero(s.conns, CountedOf(t));
    }
    if |n.conns| > |s.conns| {
      AdmitSums(s.conns, n.conns[|s.conns|], t);
    }
  }

  lemma StepKeeps(s: State, step: Step)
    requires Inv(s) && Enabled(s, step)
    ensures Inv(Next(s, step))
  {
    var n := Next(s, step);
    forall t | 0 <= t < |n.tunnels| ensures TunnelOk(n, t) {
      if OfConn(step) { ConnStepTunnel(s, step, t); } else { AdmitStepTunnel(s, step, t); }
    }
    if OfConn(step) {
      ConnStepChannels(s, step);
    } else if |n.tunnels| > 0 {
      AdmitStepTunnel(s, step, 0);
    }
  }

  lemma {:induction false} RunKeeps(steps: seq<Step>)
    requires Run(steps).Some?
    ensures Inv(Run(steps).value)
  {
    if steps != [] {
      var k := |steps| - 1;
      RunKeeps(steps[..k]);
      StepKeeps(Run(steps[..k]).value, steps[k]);
    }
  }

  // ---------- results ----------

  function Relaying(p: Phase): nat { if p == Relay || p == RemoteRelay then 1 else 0 }
  function RelayingOf(t: nat): Conn -> int { (c: Conn) => if c.t == t then Relaying(c.phase) else 0 }
  function RelayingAny(c: Conn): int { Relaying(c.phase) }

  lemma {:induction false} RelayingHoldsPermits(conns: seq<Conn>, t: nat)
    ensures 0 <= Sum(conns, RelayingOf(t)) <= Sum(conns, RelayOf(t))
    ensures 0 <= Sum(conns, RelayingAny) <= Sum(conns, ChannelOf)
  {
    if conns != [] {
      RelayingHoldsPermits(conns[1..], t);
    }
  }

  /** Concurrent relays never exceed the tunnel's limit nor the group's. */
  lemma RelaysBounded(steps: seq<Step>, t: nat)
    requires Run(steps).Some? && t < |Run(steps).value.tunnels|
    ensures var s := Run(steps).value;
            && Sum(s.conns, RelayingOf(t)) <= s.tunnels[t].maxConns
            && Sum(s.conns, RelayingAny) <= 256
  {
    RunKeeps(steps);
    assert TunnelOk(Run(steps).value, t);
    RelayingHoldsPermits(Run(steps).value.conns, t);
  }

  /** The counter is the accepted and unfinished connections plus those whose
      task was aborted while counted. */
  lemma ActiveCountExact(steps: seq<Step>, t: nat)
    requires Run(steps).Some? && t < |Run(steps).value.tunnels|
    ensures var s := Run(steps).value;
            s.tunnels[t].active == Sum(s.conns, CountedOf(t)) + s.tunnels[t].aborted
  {
    RunKeeps(steps);
    assert TunnelOk(Run(steps).value, t);
  }

  /** When all connections of a tunnel are gone, all its permits are back and the
      counter reads exactly the number of aborted ones: zero if and only if no
      counted connection was aborted, in particular if the grace period sufficed. */
  lemma DrainedTunnel(steps: seq<Step>, t: nat)
    requires Run(steps).Some? && t < |Run(steps).value.tunnels|
    requires forall c :: c in Run(steps).value.conns && c.t == t ==> c.phase == Gone
    ensures var x := Run(steps).value.tunnels[t];
            && x.active == x.aborted && x.relayFree == x.maxConns && x.handshakeFree == 64
            && (!x.aborting ==> x.active == 0)
  {
    RunKeeps(steps);
    var s := Run(steps).value;
    assert TunnelOk(s, t);
    SumZero(s.conns, RelayOf(t));
    SumZero(s.conns, HandshakeOf(t));
    SumZero(s.conns, CountedOf(t));
  }

  ghost predicate Reachable(s: State) { exists steps :: Run(steps) == Some(s) }

  lemma Then(s: State, step: Step, n: State) returns (r: State)
    requires Reachable(s) && Enabled(s, step) && n == Next(s, step)
    ensures r == n && Reachable(r)
  {
    var steps :| Run(steps) == Some(s);
    assert (steps + [step])[..|steps|] == steps;
    assert Run(steps + [step]) == Some(n);
    r := n;
  }

  function Lone(m: nat, free: nat, active: int, aborted: nat, aborting: bool): seq<Tunnel> {
    [Tunnel(m, free, HANDSHAKES, active, aborted, aborting)]
  }

  lemma LoneOpen(m: nat) returns (s: State)
    ensures s == State(Lone(m, m, 0, 0, false), [], 0) && Reachable(s)
  {
    assert Run([]) == Some(Start());
    assert Reachable(Start());
    hide Run, Reachable;
    s := Then(Start(), Open(m), State(Lone(m, m, 0, 0, false), [], 0));
  }

  lemma LoneAdmitted(m: nat) returns (s: State)
    requires m > 0
    ensures s == State(Lone(m, m - 1, 0, 0, false), [Conn(0, AdmittedLocal)], 0) && Reachable(s)
  {
    hide Run, Reachable;
    s := LoneOpen(m);
    s := Then(s, AdmitLocal(0), State(Lone(m, m - 1, 0, 0, false), [Conn(0, AdmittedLocal)], 0));
  }

  /** A forced abort does leave the counter above zero: with any limit, a tunnel
      whose connections are all gone, all permits back, and active_conns at one. */
  lemma AbortLeavesCount(m: nat) returns (s: State)
    requires m > 0
    ensures Reachable(s) && |s.tunnels| == 1 && s.tunnels[0].maxConns == s.tunnels[0].relayFree == m
    ensures (forall c :: c in s.conns ==> c.phase == Gone) && s.tunnels[0].active == 1
  {
    hide Run, Reachable;
    s := LoneAdmitted(m);
    s := Then(s, CountIn(0), State(Lone(m, m - 1, 1, 0, false), [Conn(0, WaitChannel)], 0));
    s := Then(s, BeginAbort(0), State(Lone(m, m - 1, 1, 0, true), [Conn(0, WaitChannel)], 0));
    s := Then(s, Abort(0), State(Lone(m, m, 1, 1, true), [Conn(0, Gone)], 0));
  }
}
