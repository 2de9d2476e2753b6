/**
 * The driver beneath the lifecycle: which children run, on which ports, and
 * where each instance's proxy slot points, as functions on values.  What the
 * process launcher answers to a spawn is a parameter; what the driver asks of it
 * is kept as a log of effects.
 */
module AppFleet {
  import opened Wrappers
  import opened AppModel
  import opened AppInvariant
  import opened PortRange

  datatype Child = Child(port: Port, token: nat, sha: Sha)

  datatype Runtime = Runtime(slot: Option<(Port, Gen)>, children: map<Gen, Child>)

  const Empty := Runtime(None, map[])

  datatype Effect =
    | BuildStarted(name: Name, sha: Sha, gen: Gen)
    | ChildSpawned(name: Name, sha: Sha, gen: Gen, port: Port, token: nat)
    | ProbeStarted(name: Name, gen: Gen, port: Port)
    | ChildStopped(name: Name, gen: Gen, token: nat, drain: bool)
    | Posted(name: Name, event: Event)

  /** The answer of the launcher to the spawn of a generation. */
  type Boots = Gen -> Result<nat, string>

  datatype Plant = Plant(runtimes: map<Name, Runtime>, ports: Ports, effects: seq<Effect>)

  function NoPort(g: Gen): Event { ProbeFailed(g, "no free app port in --port-range") }
  function SpawnFailed(g: Gen, e: string): Event { ProbeFailed(g, "spawn failed: " + e) }

  function Track(rt: Runtime, g: Gen, c: Child): Runtime {
    rt.(children := rt.children[g := c])
  }

  function Untrack(rt: Runtime, g: Gen): Runtime {
    rt.(children := rt.children - {g})
  }

  function SpawnedAndProbed(p: Plant, n: Name, sha: Sha, g: Gen, boots: Boots): Plant {
    if n !in p.runtimes then p
    else match Allocated(p.ports)
      case (_, None) => p.(effects := p.effects + [Posted(n, NoPort(g))])
      case (ports, Some(port)) =>
        match boots(g)
        case Ok(token) =>
          p.(ports := ports,
             runtimes := p.runtimes[n := Track(p.runtimes[n], g, Child(port, token, sha))],
             effects := p.effects + [ChildSpawned(n, sha, g, port, token), ProbeStarted(n, g, port)])
        case Err(e) =>
          p.(ports := Returned(ports, port), effects := p.effects + [Posted(n, SpawnFailed(g, e))])
  }

  predicate Tracks(p: Plant, n: Name, g: Gen) {
    n in p.runtimes && g in p.runtimes[n].children
  }

  function Promoted(p: Plant, n: Name, g: Gen): Plant {
    if Tracks(p, n, g) then
      p.(runtimes := p.runtimes[n := p.runtimes[n].(slot := Some((p.runtimes[n].children[g].port, g)))])
    else p
  }

  /** A drained child keeps its port; a killed one gives it back at once. */
  function StoppedChild(p: Plant, n: Name, g: Gen, drain: bool): Plant {
    if !Tracks(p, n, g) then p
    else
      var c := p.runtimes[n].children[g];
      var stopped := p.(effects := p.effects + [ChildStopped(n, g, c.token, drain)]);
      if drain then stopped
      else stopped.(runtimes := p.runtimes[n := Untrack(p.runtimes[n], g)], ports := Returned(p.ports, c.port))
  }

  function Executed(p: Plant, a: Action, boots: Boots): Plant {
    match a
    case StartBuild(n, sha, g) =>
      if n in p.runtimes then p.(effects := p.effects + [BuildStarted(n, sha, g)]) else p
    case SpawnAndProbe(n, sha, g) => SpawnedAndProbed(p, n, sha, g, boots)
    case Respawn(n, sha, g) => SpawnedAndProbed(p, n, sha, g, boots)
    case Promote(n, _, g) => Promoted(p, n, g)
    case StartDrain(n, g) => StoppedChild(p, n, g, true)
    case KillStandby(n, g) => StoppedChild(p, n, g, false)
    case RecordRed(_, _, _) => p
  }

  function ExecutedAll(p: Plant, acts: seq<Action>, boots: Boots): Plant {
    if acts == [] then p
    else Executed(ExecutedAll(p, acts[..|acts| - 1], boots), acts[|acts| - 1], boots)
  }

  datatype Fleet = Fleet(daemon: Daemon, plant: Plant)

  function Driven(f: Fleet, n: Name, e: Event, boots: Boots): Fleet {
    var (d, acts) := Step(f.daemon, n, e);
    Fleet(d, ExecutedAll(f.plant, acts, boots))
  }

  function Reclaimed(p: Plant, n: Name, g: Gen): Plant {
    if !Tracks(p, n, g) then p
    else p.(runtimes := p.runtimes[n := Untrack(p.runtimes[n], g)],
            ports := Returned(p.ports, p.runtimes[n].children[g].port))
  }

  function Joined(f: Fleet, n: Name): Fleet {
    Fleet(Added(f.daemon, n), f.plant.(runtimes := f.plant.runtimes[n := Empty]))
  }

  predicate IsFirst(s: set<Gen>, g: Gen) {
    g in s && forall h :: h in s ==> g <= h
  }

  lemma {:induction false} HasFirst(s: set<Gen>)
    requires s != {}
    ensures exists g :: IsFirst(s, g)
    decreases |s|
  {
    var x :| x in s;
    var rest := s - {x};
    if rest == {} {
      assert s == {x};
      assert IsFirst(s, x);
    } else {
      HasFirst(rest);
      var g :| IsFirst(rest, g);
      var least := if g <= x then g else x;
      forall h | h in s ensures least <= h {
        if h != x { assert h in rest; }
      }
      assert IsFirst(s, least);
    }
  }

  ghost function First(s: set<Gen>): (g: Gen)
    requires s != {}
    ensures IsFirst(s, g)
  {
    HasFirst(s);
    var g :| IsFirst(s, g);
    g
  }

  /** Every child of an instance stopped, oldest generation first. */
  ghost function AllStopped(p: Plant, n: Name): Plant
    decreases if n in p.runtimes then |p.runtimes[n].children| else 0
  {
    if n !in p.runtimes || p.runtimes[n].children.Keys == {} then p
    else
      var g := First(p.runtimes[n].children.Keys);
      var p1 := StoppedChild(p, n, g, false);
      assert p1.runtimes[n].children.Keys == p.runtimes[n].children.Keys - {g};
      assert |p1.runtimes[n].children.Keys| < |p.runtimes[n].children.Keys|;
      AllStopped(p1, n)
  }

  ghost function Left(f: Fleet, n: Name): Fleet {
    var p := AllStopped(f.plant, n);
    Fleet(Removed(f.daemon, n), p.(runtimes := p.runtimes - {n}))
  }

  // ------------------------------------------------------------ ownership

  ghost predicate Holds(rts: map<Name, Runtime>, n: Name, g: Gen, q: Port) {
    n in rts && g in rts[n].children && rts[n].children[g].port == q
  }

  ghost function Held(rts: map<Name, Runtime>): set<Port> {
    set n, g | n in rts && g in rts[n].children :: rts[n].children[g].port
  }

  /** No two children share a port. */
  ghost predicate OnePortEach(rts: map<Name, Runtime>) {
    forall n, g: Gen, m, h: Gen, q: Port :: Holds(rts, n, g, q) && Holds(rts, m, h, q) ==> n == m && g == h
  }

  /** Ports are conserved: exactly the tracked children's ports are issued. */
  ghost predicate PortsOk(p: Plant, start: Port) {
    && p.ports.end < U16_MAX
    && OnePortEach(p.runtimes)
    && Partition(p.ports, start, Held(p.runtimes))
  }

  ghost predicate Drained(effects: seq<Effect>, n: Name, g: Gen) {
    exists token :: ChildStopped(n, g, token, true) in effects
  }

  ghost predicate ProbeBegan(effects: seq<Effect>, n: Name, g: Gen) {
    exists port :: ProbeStarted(n, g, port) in effects
  }

  /** One instance: its slot names a tracked child of an activity that is over, and
      whichever child it serves; a started probe has its child; a drained child is
      out of service, and a draining one has been told to drain. */
  ghost predicate RuntimeOk(i: Instance, rt: Runtime, n: Name, gen: Gen, effects: seq<Effect>) {
    && (forall g :: g in rt.children ==> g < gen)
    && (i.pipeline.Building? ==> i.pipeline.gen !in rt.children)
    && (rt.slot.Some? ==>
          var (port, g) := rt.slot.value;
          g in rt.children && rt.children[g].port == port && !InFlight(i, g) && !Drained(effects, n, g))
    && (i.serving.Some? ==> rt.slot.Some? && rt.slot.value.1 == i.serving.value.gen)
    && (forall g: Gen :: ProbeBegan(effects, n, g) && InFlight(i, g) ==> g in rt.children)
    && (forall g: Gen :: Drained(effects, n, g) ==> !InFlight(i, g) && !IsServing(i, g))
    && (forall g: Gen :: g in i.draining && g in rt.children ==> Drained(effects, n, g))
  }

  ghost predicate EffectsOk(effects: seq<Effect>, gen: Gen) {
    && (forall n, g: Gen :: ProbeBegan(effects, n, g) ==> g < gen)
    && (forall n, g: Gen :: Drained(effects, n, g) ==> g < gen)
  }

  ghost predicate FleetOk(f: Fleet, start: Port) {
    && Inv(f.daemon)
    && f.daemon.instances.Keys == f.plant.runtimes.Keys
    && PortsOk(f.plant, start)
    && EffectsOk(f.plant.effects, f.daemon.nextGen)
    && (forall n :: n in f.daemon.instances ==>
          RuntimeOk(f.daemon.instances[n], f.plant.runtimes[n], n, f.daemon.nextGen, f.plant.effects))
  }

  // ------------------------------------------------------------ ports follow children

  lemma HeldIs(rts: map<Name, Runtime>, q: Port)
    ensures q in Held(rts) <==> exists n, g: Gen :: Holds(rts, n, g, q)
  {
    if q in Held(rts) {
      var n, g :| n in rts && g in rts[n].children && rts[n].children[g].port == q;
      assert Holds(rts, n, g, q);
    }
  }

  lemma TrackingHolds(rts: map<Name, Runtime>, n: Name, g: Gen, c: Child)
    requires n in rts && g !in rts[n].children && c.port !in Held(rts) && OnePortEach(rts)
    ensures
      var after := rts[n := Track(rts[n], g, c)];
      OnePortEach(after) && Held(after) == Held(rts) + {c.port}
  {
    var after := rts[n := Track(rts[n], g, c)];
    assert forall m, h: Gen, q: Port ::
      Holds(after, m, h, q) <==> Holds(rts, m, h, q) || (m == n && h == g && q == c.port);
    forall q: Port ensures q in Held(after) <==> q in Held(rts) + {c.port} {
      HeldIs(rts, q);
      HeldIs(after, q);
      assert Holds(after, n, g, c.port);
    }
    HeldIs(rts, c.port);
  }

  lemma UntrackingHolds(rts: map<Name, Runtime>, n: Name, g: Gen)
    requires n in rts && g in rts[n].children && OnePortEach(rts)
    ensures rts[n].children[g].port in Held(rts)
    ensures
      var after := rts[n := Untrack(rts[n], g)];
      OnePortEach(after) && Held(after) == Held(rts) - {rts[n].children[g].port}
  {
    var after, port := rts[n := Untrack(rts[n], g)], rts[n].children[g].port;
    assert forall m, h: Gen, q: Port :: Holds(after, m, h, q) <==> Holds(rts, m, h, q) && !(m == n && h == g);
    forall q: Port ensures q in Held(after) <==> q in Held(rts) - {port} {
      HeldIs(rts, q);
      HeldIs(after, q);
      assert Holds(rts, n, g, port);
    }
  }

  lemma SlotHolds(rts: map<Name, Runtime>, n: Name, slot: Option<(Port, Gen)>)
    requires n in rts && OnePortEach(rts)
    ensures
      var after := rts[n := rts[n].(slot := slot)];
      OnePortEach(after) && Held(after) == Held(rts)
  {
    var after := rts[n := rts[n].(slot := slot)];
    assert forall m, h: Gen, q: Port :: Holds(after, m, h, q) <==> Holds(rts, m, h, q);
    forall q: Port ensures q in Held(after) <==> q in Held(rts) {
      HeldIs(rts, q);
      HeldIs(after, q);
    }
  }

  lemma SpawnKeepsPorts(p: Plant, start: Port, n: Name, sha: Sha, g: Gen, boots: Boots)
    requires PortsOk(p, start) && !Tracks(p, n, g)
    ensures PortsOk(SpawnedAndProbed(p, n, sha, g, boots), start)
  {
    if n in p.runtimes {
      AllocSoundIff(p.ports, start, Held(p.runtimes));
      var (ports, port) := Allocated(p.ports);
      if port.Some? {
        match boots(g)
        case Ok(token) => TrackingHolds(p.runtimes, n, g, Child(port.value, token, sha));
        case Err(_) =>
          ReleaseReturns(ports, start, Held(p.runtimes) + {port.value}, port.value);
          assert Held(p.runtimes) + {port.value} - {port.value} == Held(p.runtimes);
      }
    }
  }

  lemma StopKeepsPorts(p: Plant, start: Port, n: Name, g: Gen, drain: bool)
    requires PortsOk(p, start)
    ensures PortsOk(StoppedChild(p, n, g, drain), start) && PortsOk(Reclaimed(p, n, g), start)
  {
    if Tracks(p, n, g) {
      UntrackingHolds(p.runtimes, n, g);
      ReleaseReturns(p.ports, start, Held(p.runtimes), p.runtimes[n].children[g].port);
    }
  }

  /** A boot is refused for want of a port exactly when every port of the range
      is held by a tracked child. */
  lemma RefusedIffRangeHeld(p: Plant, start: Port, n: Name, sha: Sha, g: Gen, boots: Boots)
    requires PortsOk(p, start) && n in p.runtimes
    ensures SpawnedAndProbed(p, n, sha, g, boots).effects == p.effects + [Posted(n, NoPort(g))]
            <==> forall q: Port :: start <= q <= p.ports.end ==> q in Held(p.runtimes)
  {
    AllocSoundIff(p.ports, start, Held(p.runtimes));
    var (ports, port) := Allocated(p.ports);
    if port.Some? {
      assert start <= port.value <= p.ports.end && port.value !in Held(p.runtimes);
      match boots(g)
      case Ok(_) => assert SpawnedAndProbed(p, n, sha, g, boots).effects[|p.effects|].ChildSpawned?;
      case Err(e) =>
        SpawnFailedIsNotNoPort(g, e);
        assert SpawnedAndProbed(p, n, sha, g, boots).effects[|p.effects|] == Posted(n, SpawnFailed(g, e));
    }
  }

  lemma SpawnFailedIsNotNoPort(g: Gen, e: string)
    ensures SpawnFailed(g, e) != NoPort(g)
  {
    assert ("spawn failed: " + e)[0] == 's';
  }
}
