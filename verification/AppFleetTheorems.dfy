/**
 * Port and slot ownership over every run of the driver, and where it ends.
 */
module AppFleetTheorems {
  import opened Wrappers
  import opened AppModel
  import opened AppInvariant
  import opened PortRange
  import opened AppFleet
  import opened AppFleetRuns
  import Boundary = AppBoundary

  // ------------------------------------------------------------ removal

  lemma StopSpares(p: Plant, n: Name, g: Gen)
    ensures forall m :: m != n ==> SameFor(p, StoppedChild(p, n, g, false), m)
    ensures forall gen: Gen :: EffectsOk(p.effects, gen) ==> EffectsOk(StoppedChild(p, n, g, false).effects, gen)
  {
    if Tracks(p, n, g) { LoggedEffect(p.effects, ChildStopped(n, g, p.runtimes[n].children[g].token, false)); }
  }

  lemma {:induction false} AllStoppedKeeps(p: Plant, n: Name, start: Port)
    requires PortsOk(p, start)
    ensures
      var q := AllStopped(p, n);
      && PortsOk(q, start)
      && (forall m :: m != n ==> SameFor(p, q, m))
      && (n in p.runtimes <==> n in q.runtimes) && (n in q.runtimes ==> q.runtimes[n].children == map[])
      && forall gen: Gen :: EffectsOk(p.effects, gen) ==> EffectsOk(q.effects, gen)
    decreases if n in p.runtimes then |p.runtimes[n].children| else 0
  {
    hide PortsOk, EffectsOk;
    if n !in p.runtimes || p.runtimes[n].children.Keys == {} {
      assert n in p.runtimes ==> p.runtimes[n].children == map[];
    } else {
      var g := First(p.runtimes[n].children.Keys);
      var p1 := StoppedChild(p, n, g, false);
      assert p1.runtimes[n].children.Keys == p.runtimes[n].children.Keys - {g};
      StopKeepsPorts(p, start, n, g, false);
      StopSpares(p, n, g);
      AllStoppedKeeps(p1, n, start);
      assert AllStopped(p, n) == AllStopped(p1, n);
      var q := AllStopped(p1, n);
      forall m | m != n ensures SameFor(p, q, m) {
        assert SameFor(p, p1, m) && SameFor(p1, q, m);
      }
    }
  }

  lemma HeldWithoutIdle(rts: map<Name, Runtime>, n: Name)
    requires n in rts ==> rts[n].children == map[]
    ensures Held(rts - {n}) == Held(rts)
    ensures OnePortEach(rts) ==> OnePortEach(rts - {n})
  {
    var after := rts - {n};
    assert forall m, g: Gen, q: Port :: Holds(after, m, g, q) <==> Holds(rts, m, g, q);
    forall q: Port ensures q in Held(after) <==> q in Held(rts) {
      HeldIs(rts, q);
      HeldIs(after, q);
    }
  }

  lemma LeftKeepsFleet(f: Fleet, start: Port, n: Name)
    requires FleetOk(f, start)
    ensures FleetOk(Left(f, n), start)
  {
    hide Inv, EffectsOk, RuntimeOk, Partition, AllStopped;
    var q := AllStopped(f.plant, n);
    AllStoppedKeeps(f.plant, n, start);
    HeldWithoutIdle(q.runtimes, n);
    RemovedKeeps(f.daemon, n);
    var gen := f.daemon.nextGen;
    forall m | m in f.daemon.instances && m != n
      ensures m in q.runtimes && RuntimeOk(f.daemon.instances[m], q.runtimes[m], m, gen, q.effects)
    {
      StartedKeeps(f.plant, q, m, f.daemon.instances[m], f.daemon.instances[m], gen, gen);
    }
    assert Left(f, n).plant.runtimes.Keys == f.daemon.instances.Keys - {n} by {
      forall m ensures m in q.runtimes <==> m in f.plant.runtimes {
        if m != n { assert SameFor(f.plant, q, m); }
      }
    }
  }

  // ------------------------------------------------------------ whole runs

  datatype Turn =
    | Drive(name: Name, event: Event, boots: Boots)
    | Reclaim(name: Name, gen: Gen)
    | Join(name: Name)
    | Leave(name: Name)

  /** The daemon's side of the bargain: probes report only where one was started,
      only drained children are reclaimed, and an added name is new. */
  ghost predicate Allowed(f: Fleet, t: Turn) {
    match t
    case Drive(n, e, _) => Honest(f.plant.effects, n, e)
    case Reclaim(n, g) => Drained(f.plant.effects, n, g)
    case Join(n) => n !in f.plant.runtimes
    case Leave(_) => true
  }

  ghost function Turned(f: Fleet, t: Turn): Fleet {
    match t
    case Drive(n, e, boots) => Driven(f, n, e, boots)
    case Reclaim(n, g) => f.(plant := Reclaimed(f.plant, n, g))
    case Join(n) => Joined(f, n)
    case Leave(n) => Left(f, n)
  }

  function NewFleet(names: set<Name>, maxConcurrent: nat, start: Port, end: Port): Fleet {
    Fleet(New(names, maxConcurrent), Plant(map n | n in names :: Empty, Ports(start, end, []), []))
  }

  ghost function AfterTurns(f: Fleet, ts: seq<Turn>): Fleet {
    if ts == [] then f else Turned(AfterTurns(f, ts[..|ts| - 1]), ts[|ts| - 1])
  }

  ghost predicate AllAllowed(f: Fleet, ts: seq<Turn>) {
    forall k :: 0 <= k < |ts| ==> Allowed(AfterTurns(f, ts[..k]), ts[k])
  }

  lemma TurnKeepsFleet(f: Fleet, start: Port, t: Turn)
    requires FleetOk(f, start) && Allowed(f, t)
    ensures FleetOk(Turned(f, t), start)
  {
    hide FleetOk, Driven, Reclaimed, Joined, Left;
    match t
    case Drive(n, e, boots) => DrivenKeepsFleet(f, start, n, e, boots);
    case Reclaim(n, g) => ReclaimedKeepsFleet(f, start, n, g);
    case Join(n) => JoinedKeepsFleet(f, start, n);
    case Leave(n) => LeftKeepsFleet(f, start, n);
  }

  lemma NewFleetOk(names: set<Name>, maxConcurrent: nat, start: Port, end: Port)
    requires start <= end + 1 && end < U16_MAX
    ensures FleetOk(NewFleet(names, maxConcurrent, start, end), start)
  {
    var f := NewFleet(names, maxConcurrent, start, end);
    NewKeeps(names, maxConcurrent);
    forall q: Port ensures q !in Held(f.plant.runtimes) { HeldIs(f.plant.runtimes, q); }
  }

  lemma {:induction false} TurnsKeepFleet(f: Fleet, start: Port, ts: seq<Turn>)
    requires FleetOk(f, start) && AllAllowed(f, ts)
    ensures FleetOk(AfterTurns(f, ts), start)
    decreases |ts|
  {
    hide FleetOk, Allowed, Turned;
    if ts != [] {
      var front := ts[..|ts| - 1];
      assert forall k :: 0 <= k < |front| ==> front[..k] == ts[..k] && front[k] == ts[k];
      TurnsKeepFleet(f, start, front);
      TurnKeepsFleet(AfterTurns(f, front), start, ts[|ts| - 1]);
    }
  }

  // ------------------------------------------------------------ the range stays what it was

  lemma ExecutedKeepsEnd(p: Plant, a: Action, boots: Boots)
    ensures Executed(p, a, boots).ports.end == p.ports.end
  {
  }

  lemma {:induction false} ExecutedAllKeepsEnd(p: Plant, acts: seq<Action>, boots: Boots)
    ensures ExecutedAll(p, acts, boots).ports.end == p.ports.end
    decreases |acts|
  {
    hide Executed;
    if acts != [] {
      var front := acts[..|acts| - 1];
      ExecutedAllKeepsEnd(p, front, boots);
      ExecutedKeepsEnd(ExecutedAll(p, front, boots), acts[|acts| - 1], boots);
    }
  }

  lemma {:induction false} AllStoppedKeepsEnd(p: Plant, n: Name)
    ensures AllStopped(p, n).ports.end == p.ports.end
    decreases if n in p.runtimes then |p.runtimes[n].children| else 0
  {
    if n in p.runtimes && p.runtimes[n].children.Keys != {} {
      var g := First(p.runtimes[n].children.Keys);
      var p1 := StoppedChild(p, n, g, false);
      assert p1.runtimes[n].children.Keys == p.runtimes[n].children.Keys - {g};
      AllStoppedKeepsEnd(p1, n);
      assert AllStopped(p, n) == AllStopped(p1, n);
    }
  }

  lemma TurnKeepsEnd(f: Fleet, t: Turn)
    ensures Turned(f, t).plant.ports.end == f.plant.ports.end
  {
    hide ExecutedAll, AllStopped, Step;
    match t
    case Drive(n, e, boots) => ExecutedAllKeepsEnd(f.plant, Step(f.daemon, n, e).1, boots);
    case Leave(n) => AllStoppedKeepsEnd(f.plant, n);
    case _ =>
  }

  lemma {:induction false} TurnsKeepEnd(f: Fleet, ts: seq<Turn>)
    ensures AfterTurns(f, ts).plant.ports.end == f.plant.ports.end
    decreases |ts|
  {
    hide Turned;
    if ts != [] {
      TurnsKeepEnd(f, ts[..|ts| - 1]);
      TurnKeepsEnd(AfterTurns(f, ts[..|ts| - 1]), ts[|ts| - 1]);
    }
  }

  // ------------------------------------------------------------ ownership over every run

  /** The free ports, the ports not yet issued and the ports of tracked children
      split the configured range, each port in one part once. */
  ghost predicate RangeSplit(f: Fleet, start: Port, end: Port) {
    var ports, rts := f.plant.ports, f.plant.runtimes;
    && start <= ports.next <= end + 1
    && Distinct(ports.free) && (forall q :: q in ports.free ==> start <= q < ports.next)
    && (forall n, g: Gen, q: Port :: Holds(rts, n, g, q) ==> start <= q < ports.next && q !in ports.free)
    && (forall q: Port :: start <= q < ports.next && q !in ports.free ==> exists n, g: Gen :: Holds(rts, n, g, q))
    && (forall n, g: Gen, m, h: Gen, q: Port :: Holds(rts, n, g, q) && Holds(rts, m, h, q) ==> n == m && g == h)
  }

  /** The proxy of an instance points at a child that is tracked on that port, and
      at the very child the lifecycle takes to be serving. */
  ghost predicate SlotsTrue(f: Fleet) {
    var rts := f.plant.runtimes;
    && rts.Keys == f.daemon.instances.Keys
    && (forall n :: n in rts && rts[n].slot.Some? ==> Holds(rts, n, rts[n].slot.value.1, rts[n].slot.value.0))
    && (forall n :: n in rts && f.daemon.instances[n].serving.Some? ==>
          rts[n].slot.Some? && rts[n].slot.value.1 == f.daemon.instances[n].serving.value.gen)
  }

  /** Over every run the free, the un-issued and the issued ports split the
      configured range, the issued ones held by exactly one tracked child each, and
      every set proxy slot names such a child, the serving one if there is one. */
  lemma OwnershipHolds(names: set<Name>, maxConcurrent: nat, start: Port, end: Port, ts: seq<Turn>)
    requires start <= end + 1 && end < U16_MAX
    requires AllAllowed(NewFleet(names, maxConcurrent, start, end), ts)
    ensures
      var f := AfterTurns(NewFleet(names, maxConcurrent, start, end), ts);
      RangeSplit(f, start, end) && SlotsTrue(f)
  {
    var f0 := NewFleet(names, maxConcurrent, start, end);
    NewFleetOk(names, maxConcurrent, start, end);
    TurnsKeepFleet(f0, start, ts);
    TurnsKeepEnd(f0, ts);
    ReadOwnership(AfterTurns(f0, ts), start);
  }

  lemma ReadOwnership(f: Fleet, start: Port)
    requires FleetOk(f, start)
    ensures RangeSplit(f, start, f.plant.ports.end) && SlotsTrue(f)
  {
    hide Inv, EffectsOk;
    var rts := f.plant.runtimes;
    forall n, g: Gen, q: Port | Holds(rts, n, g, q) ensures q in Held(rts) {
      HeldIs(rts, q);
    }
    forall q: Port | q in Held(rts) ensures exists n, g: Gen :: Holds(rts, n, g, q) {
      HeldIs(rts, q);
    }
  }

  // ------------------------------------------------------------ boundaries

  /** Adding a name conserves ports exactly when no live runtime is overwritten:
      the state machine ignores the name it knows, the driver forgets its children. */
  lemma JoinConservesIff(f: Fleet, start: Port, n: Name)
    requires FleetOk(f, start)
    ensures PortsOk(Joined(f, n).plant, start) <==>
            n !in f.plant.runtimes || f.plant.runtimes[n].children == map[]
    ensures n in f.plant.runtimes ==> Joined(f, n).daemon == f.daemon
  {
    hide Inv, EffectsOk, RuntimeOk;
    var rts := f.plant.runtimes;
    var after := rts[n := Empty];
    if n !in rts {
      HeldAfterJoin(rts, n);
    } else if rts[n].children == map[] {
      assert after == (rts - {n})[n := Empty];
      HeldWithoutIdle(rts, n);
      HeldAfterJoin(rts - {n}, n);
    } else {
      var g :| g in rts[n].children;
      var q := rts[n].children[g].port;
      assert Holds(rts, n, g, q);
      HeldIs(rts, q);
      HeldIs(after, q);
      assert forall m, h: Gen :: Holds(after, m, h, q) ==> Holds(rts, m, h, q) && m != n;
    }
  }

  /** A child the state machine has let go of without draining it. */
  ghost predicate Orphan(f: Fleet, n: Name, g: Gen) {
    && n in f.daemon.instances
    && Tracks(f.plant, n, g)
    && !Owns(f.daemon.instances[n], g)
    && !Drained(f.plant.effects, n, g)
  }

  predicate Stops(a: Action, n: Name, g: Gen) {
    (a.KillStandby? || a.StartDrain?) && a.name == n && a.gen == g
  }

  lemma {:induction false} UnstoppedStays(p: Plant, acts: seq<Action>, boots: Boots, n: Name, g: Gen)
    requires Tracks(p, n, g) && !Drained(p.effects, n, g)
    requires forall a :: a in acts ==> !Stops(a, n, g)
    ensures var q := ExecutedAll(p, acts, boots); Tracks(q, n, g) && !Drained(q.effects, n, g)
    decreases |acts|
  {
    if acts != [] {
      var front, a := acts[..|acts| - 1], acts[|acts| - 1];
      UnstoppedStays(p, front, boots, n, g);
      UnstoppedStaysOnce(ExecutedAll(p, front, boots), a, boots, n, g);
    }
  }

  lemma UnstoppedStaysOnce(p: Plant, a: Action, boots: Boots, n: Name, g: Gen)
    requires Tracks(p, n, g) && !Drained(p.effects, n, g) && !Stops(a, n, g)
    ensures var q := Executed(p, a, boots); Tracks(q, n, g) && !Drained(q.effects, n, g)
  {
    hide Allocated, Returned, ProbeBegan, Drained;
    if a.SpawnAndProbe? || a.Respawn? {
      SpawnEffects(p, a.name, a.sha, a.gen, boots);
    } else {
      var q := Executed(p, a, boots);
      if q.effects != p.effects {
        var ef := q.effects[|p.effects|];
        assert q.effects == p.effects + [ef];
        LoggedEffect(p.effects, ef);
      }
    }
  }

  /** The lifecycle stops only what it is probing or was serving. */
  lemma StopsWhatItOwns(i: Instance, n: Name, e: Event, gen: Gen, g: Gen)
    requires !Owns(i, g) && g < gen
    ensures forall a :: a in LocalStep(i, n, e, gen).acts ==> !Stops(a, n, g)
  {
    hide Decide, Perform;
    DecideStops(i, n, e, g);
    PerformAdds(Decide(i, n, e), n, gen);
  }

  lemma PerformAdds(m: Move, n: Name, gen: Gen)
    ensures forall a :: a in Perform(m, n, gen).acts ==> a in m.acts || a.Respawn?
  {
    hide Requested;
  }

  lemma DecideStops(i: Instance, n: Name, e: Event, g: Gen)
    requires !Owns(i, g)
    ensures forall a :: a in Decide(i, n, e).acts ==> !Stops(a, n, g)
  {
    hide DiskFull, IndeterminateTwice, ProbeRed, RespawnRed, Requested, OnBuilt;
    if e.BuildFinished? && BuildAccepted(i, e.gen) { BuildStops(i, n, e.gen, e.outcome); }
  }

  lemma BuildStops(i: Instance, n: Name, g: Gen, outcome: Outcome)
    requires BuildAccepted(i, g)
    ensures forall a :: a in OnBuilt(i, n, i.pipeline.sha, g, outcome).acts ==> !a.KillStandby? && !a.StartDrain?
  {
    hide DiskFull, IndeterminateTwice, Requested;
  }

  lemma OrphanOutlivesDrive(f: Fleet, start: Port, n: Name, g: Gen, m: Name, e: Event, boots: Boots)
    requires FleetOk(f, start) && Orphan(f, n, g)
    ensures Orphan(Driven(f, m, e, boots), n, g)
  {
    hide LocalStep, Inv, Dispatch, PortsOk, ExecutedAll, EffectsOk, Drained, ProbeBegan;
    if m !in f.daemon.instances {
      assert ExecutedAll(f.plant, [], boots) == f.plant by { NothingToDo(f.plant, boots); }
    } else {
      var i, gen := f.daemon.instances[m], f.daemon.nextGen;
      var l := LocalStep(i, m, e, gen);
      var d1 := Install(f.daemon, m, l);
      ReadyIn(f.daemon, m);
      LocalStepKeeps(i, m, e, gen);
      if m == n { StopsWhatItOwns(i, n, e, gen, g); }
      DispatchStarts(d1);
      UnstoppedStays(f.plant, Step(f.daemon, m, e).1, boots, n, g);
    }
  }

  lemma NothingToDo(p: Plant, boots: Boots)
    ensures ExecutedAll(p, [], boots) == p
  {
  }

  lemma OrphanOutlivesTurn(f: Fleet, start: Port, n: Name, g: Gen, t: Turn)
    requires FleetOk(f, start) && Orphan(f, n, g) && Allowed(f, t) && t != Leave(n)
    ensures Orphan(Turned(f, t), n, g)
  {
    hide Inv, PortsOk, EffectsOk, RuntimeOk;
    match t
    case Drive(m, e, boots) => OrphanOutlivesDrive(f, start, n, g, m, e, boots);
    case Reclaim(m, h) =>
    case Join(m) =>
    case Leave(m) =>
      AllStoppedKeeps(f.plant, m, start);
      assert SameFor(f.plant, AllStopped(f.plant, m), n);
  }

  // ------------------------------------------------------------ and a child that is gone stays gone

  /** A generation that is over for `n`: no child of it is tracked, and none will be. */
  ghost predicate Gone(f: Fleet, n: Name, g: Gen) {
    && g < f.daemon.nextGen && !Tracks(f.plant, n, g)
    && (n in f.daemon.instances ==> !BuildAccepted(f.daemon.instances[n], g))
  }

  predicate Spawns(a: Action, n: Name, g: Gen) {
    (a.SpawnAndProbe? || a.Respawn?) && a.name == n && a.gen == g
  }

  lemma UnspawnedStaysOutOnce(p: Plant, a: Action, boots: Boots, n: Name, g: Gen)
    requires !Tracks(p, n, g) && !Spawns(a, n, g)
    ensures !Tracks(Executed(p, a, boots), n, g)
  {
    hide Allocated, Returned;
  }

  lemma {:induction false} UnspawnedStaysOut(p: Plant, acts: seq<Action>, boots: Boots, n: Name, g: Gen)
    requires !Tracks(p, n, g) && forall a :: a in acts ==> !Spawns(a, n, g)
    ensures !Tracks(ExecutedAll(p, acts, boots), n, g)
    decreases |acts|
  {
    hide Executed;
    if acts != [] {
      var front := acts[..|acts| - 1];
      UnspawnedStaysOut(p, front, boots, n, g);
      UnspawnedStaysOutOnce(ExecutedAll(p, front, boots), acts[|acts| - 1], boots, n, g);
    }
  }

  /** The lifecycle spawns only what it was building, or a fresh generation. */
  lemma SpawnsOnlyNew(i: Instance, n: Name, e: Event, gen: Gen, g: Gen)
    requires !BuildAccepted(i, g) && g < gen
    ensures forall a :: a in LocalStep(i, n, e, gen).acts ==> !Spawns(a, n, g)
  {
    hide DiskFull, IndeterminateTwice, ProbeRed, RespawnRed, Requested;
  }

  lemma GoneOutlivesDrive(f: Fleet, start: Port, n: Name, g: Gen, m: Name, e: Event, boots: Boots)
    requires FleetOk(f, start) && Gone(f, n, g)
    ensures Gone(Driven(f, m, e, boots), n, g)
  {
    hide LocalStep, Inv, Dispatch, PortsOk, ExecutedAll, EffectsOk, RuntimeOk;
    if m !in f.daemon.instances {
      NothingToDo(f.plant, boots);
    } else {
      var i, gen := f.daemon.instances[m], f.daemon.nextGen;
      var l := LocalStep(i, m, e, gen);
      ReadyIn(f.daemon, m);
      LocalStepKeeps(i, m, e, gen);
      if m == n { SpawnsOnlyNew(i, n, e, gen, g); }
      DispatchStarts(Install(f.daemon, m, l));
      UnspawnedStaysOut(f.plant, Step(f.daemon, m, e).1, boots, n, g);
    }
  }

  lemma GoneOutlivesTurn(f: Fleet, start: Port, n: Name, g: Gen, t: Turn)
    requires FleetOk(f, start) && Gone(f, n, g) && Allowed(f, t)
    ensures Gone(Turned(f, t), n, g)
  {
    hide Inv, PortsOk, EffectsOk, RuntimeOk;
    match t
    case Drive(m, e, boots) => GoneOutlivesDrive(f, start, n, g, m, e, boots);
    case Reclaim(m, h) =>
    case Join(m) =>
    case Leave(m) =>
      AllStoppedKeeps(f.plant, m, start);
      if m != n { assert SameFor(f.plant, AllStopped(f.plant, m), n); }
  }

  lemma LeaveEnds(f: Fleet, start: Port, n: Name, g: Gen)
    requires FleetOk(f, start) && Orphan(f, n, g)
    ensures Gone(Left(f, n), n, g)
  {
    hide Inv, PortsOk, EffectsOk;
  }

  /** A serving child that exits on its own keeps its port issued exactly until its
      instance is removed: nothing short of that gives the port back, and after that
      no later run, not even one that configures the name again, brings it back. */
  lemma {:induction false} ExitedChildKeepsItsPortIff(
      f: Fleet, start: Port, n: Name, g: Gen, boots: Boots, ts: seq<Turn>)
    requires FleetOk(f, start) && n in f.daemon.instances
    requires IsServing(f.daemon.instances[n], g) && Tracks(f.plant, n, g)
    requires AllAllowed(Driven(f, n, ServingExited(g), boots), ts)
    ensures
      var f1 := AfterTurns(Driven(f, n, ServingExited(g), boots), ts);
      && FleetOk(f1, start)
      && (if Leave(n) in ts then Gone(f1, n, g) else Orphan(f1, n, g))
      && (Tracks(f1.plant, n, g) <==> Leave(n) !in ts)
    decreases |ts|
  {
    hide FleetOk, Driven, Turned, Allowed, Orphan, Gone;
    TracksTold(AfterTurns(Driven(f, n, ServingExited(g), boots), ts), n, g);
    if ts == [] {
      DrivenKeepsFleet(f, start, n, ServingExited(g), boots);
      ExitOrphans(f, start, n, g, boots);
    } else {
      var front, t, f0 := ts[..|ts| - 1], ts[|ts| - 1], Driven(f, n, ServingExited(g), boots);
      assert ts == front + [t];
      assert forall k :: 0 <= k < |front| ==> front[..k] == ts[..k] && front[k] == ts[k];
      ExitedChildKeepsItsPortIff(f, start, n, g, boots, front);
      var f1 := AfterTurns(f0, front);
      TurnKeepsFleet(f1, start, t);
      if Leave(n) in front {
        GoneOutlivesTurn(f1, start, n, g, t);
      } else if t == Leave(n) {
        LeaveEnds(f1, start, n, g);
        assert Turned(f1, t) == Left(f1, n) by { TurnedLeaves(f1, n); }
      } else {
        OrphanOutlivesTurn(f1, start, n, g, t);
      }
    }
  }

  lemma TracksTold(f: Fleet, n: Name, g: Gen)
    ensures Gone(f, n, g) ==> !Tracks(f.plant, n, g)
    ensures Orphan(f, n, g) ==> Tracks(f.plant, n, g)
  {
    hide Drained;
  }

  lemma TurnedLeaves(f: Fleet, n: Name)
    ensures Turned(f, Leave(n)) == Left(f, n)
  {
  }

  lemma ExitOrphans(f: Fleet, start: Port, n: Name, g: Gen, boots: Boots)
    requires FleetOk(f, start) && n in f.daemon.instances
    requires IsServing(f.daemon.instances[n], g) && Tracks(f.plant, n, g)
    ensures Orphan(Driven(f, n, ServingExited(g), boots), n, g)
  {
    hide Inv, PortsOk, EffectsOk;
    var i := f.daemon.instances[n];
    ReadyIn(f.daemon, n);
    var l := LocalStep(i, n, ServingExited(g), f.daemon.nextGen);
    assert !Owns(l.inst, g);
    assert !l.dispatch;
    assert forall a :: a in l.acts ==> !Stops(a, n, g);
    UnstoppedStays(f.plant, l.acts, boots, n, g);
  }

  // ------------------------------------------------------------ the leak is reached

  /** The fleet of one instance "a", one build slot and the single port `q`. */
  function Lone(i: Instance, gen: Gen, rt: Runtime, next: Port, q: Port, effects: seq<Effect>): Fleet {
    Fleet(Boundary.Solo(i, gen), Plant(map["a" := rt], Ports(next, q, []), effects))
  }

  lemma LoneDriven(f: Fleet, e: Event, boots: Boots, d: Daemon, a: Action)
    requires Step(f.daemon, "a", e) == (d, [a])
    ensures Driven(f, "a", e, boots) == Fleet(d, Executed(f.plant, a, boots))
  {
    ExecutedOnly(f.plant, a, boots);
  }

  lemma LoneBuilds(q: Port, boots: Boots)
    ensures
      Driven(Lone(Fresh, 1, Empty, q, q, []), "a", HeadAdvanced("A"), boots)
      == Lone(Fresh.(pipeline := Building("A", 1)), 2, Empty, q, q, [BuildStarted("a", "A", 1)])
  {
    hide Boundary.Solo, Step;
    Boundary.SoloStep(Fresh, HeadAdvanced("A"), 1);
    var s1 := Fresh.(pipeline := Building("A", 1));
    assert [] + [StartBuild("a", "A", 1)] == [StartBuild("a", "A", 1)];
    LoneDriven(Lone(Fresh, 1, Empty, q, q, []), HeadAdvanced("A"), boots,
               Boundary.Solo(s1, 2), StartBuild("a", "A", 1));
  }

  lemma LoneProbes(q: Port, boots: Boots, ef: seq<Effect>)
    requires q < U16_MAX && boots(1).Ok?
    ensures
      Driven(Lone(Fresh.(pipeline := Building("A", 1)), 2, Empty, q, q, ef), "a", BuildFinished(1, Green), boots)
      == Lone(Fresh.(pipeline := Probing("A", 1, false)), 2, Runtime(None, map[1 := Child(q, boots(1).value, "A")]),
              q + 1, q, ef + [ChildSpawned("a", "A", 1, q, boots(1).value), ProbeStarted("a", 1, q)])
  {
    hide Boundary.Solo, Step;
    var s1, s2 := Fresh.(pipeline := Building("A", 1)), Fresh.(pipeline := Probing("A", 1, false));
    Boundary.SoloStep(s1, BuildFinished(1, Green), 2);
    LoneDriven(Lone(s1, 2, Empty, q, q, ef), BuildFinished(1, Green), boots,
               Boundary.Solo(s2, 2), SpawnAndProbe("a", "A", 1));
  }

  lemma LoneServes(q: Port, c: Child, boots: Boots, ef: seq<Effect>)
    requires q < U16_MAX && c.port == q
    ensures
      Driven(Lone(Fresh.(pipeline := Probing("A", 1, false)), 2, Runtime(None, map[1 := c]), q + 1, q, ef),
             "a", ProbeSucceeded(1), boots)
      == Lone(Fresh.(serving := Some(Serving("A", 1)), lastGreen := Some("A")), 2,
              Runtime(Some((q, 1)), map[1 := c]), q + 1, q, ef)
  {
    hide Boundary.Solo, Step;
    var s2 := Fresh.(pipeline := Probing("A", 1, false));
    var s3 := Fresh.(serving := Some(Serving("A", 1)), lastGreen := Some("A"));
    Boundary.SoloStep(s2, ProbeSucceeded(1), 2);
    assert LocalStep(s2, "a", ProbeSucceeded(1), 2).acts == [Promote("a", "A", 1)];
    LoneDriven(Lone(s2, 2, Runtime(None, map[1 := c]), q + 1, q, ef), ProbeSucceeded(1), boots,
               Boundary.Solo(s3, 2), Promote("a", "A", 1));
  }

  lemma LoneDeath()
    ensures Step(Boundary.Solo(Fresh.(serving := Some(Serving("A", 1)), lastGreen := Some("A")), 2),
                 "a", ServingExited(1))
            == (Boundary.Solo(Fresh.(pipeline := Probing("A", 2, true), lastGreen := Some("A")), 3),
                [Respawn("a", "A", 2)])
  {
    hide Boundary.Solo, Step;
    var s3 := Fresh.(serving := Some(Serving("A", 1)), lastGreen := Some("A"));
    Boundary.SoloStep(s3, ServingExited(1), 2);
    assert [] + [Respawn("a", "A", 2)] == [Respawn("a", "A", 2)];
  }

  /** With its one port held, a respawn is refused. */
  lemma LoneRefused(rt: Runtime, q: Port, boots: Boots, ef: seq<Effect>)
    requires q < U16_MAX
    ensures
      var p := Plant(map["a" := rt], Ports(q + 1, q, []), ef);
      Executed(p, Respawn("a", "A", 2), boots) == p.(effects := ef + [Posted("a", NoPort(2))])
  {
    hide NoPort;
  }

  lemma LoneDies(q: Port, rt: Runtime, boots: Boots, ef: seq<Effect>)
    requires q < U16_MAX
    ensures
      Driven(Lone(Fresh.(serving := Some(Serving("A", 1)), lastGreen := Some("A")), 2, rt, q + 1, q, ef),
             "a", ServingExited(1), boots)
      == Lone(Fresh.(pipeline := Probing("A", 2, true), lastGreen := Some("A")), 3, rt, q + 1, q,
              ef + [Posted("a", NoPort(2))])
  {
    LoneDeath();
    hide Boundary.Solo, Step, LocalStep, Executed, NoPort;
    var s3 := Fresh.(serving := Some(Serving("A", 1)), lastGreen := Some("A"));
    var s4 := Fresh.(pipeline := Probing("A", 2, true), lastGreen := Some("A"));
    LoneRefused(rt, q, boots, ef);
    LoneDriven(Lone(s3, 2, rt, q + 1, q, ef), ServingExited(1), boots, Boundary.Solo(s4, 3), Respawn("a", "A", 2));
  }

  lemma TurnsSnoc(f: Fleet, ts: seq<Turn>, t: Turn)
    requires AllAllowed(f, ts) && Allowed(AfterTurns(f, ts), t)
    ensures AllAllowed(f, ts + [t]) && AfterTurns(f, ts + [t]) == Turned(AfterTurns(f, ts), t)
  {
    hide Allowed, Turned;
    var more := ts + [t];
    assert more[..|ts|] == ts;
    assert forall k :: 0 <= k < |ts| ==> more[..k] == ts[..k] && more[k] == ts[k];
  }

  /** A HEAD, its green build, its successful probe, and the served child's death. */
  function DeathOfTheServed(boots: Boots): seq<Turn> {
    [Drive("a", HeadAdvanced("A"), boots)] + [Drive("a", BuildFinished(1, Green), boots)]
    + [Drive("a", ProbeSucceeded(1), boots)] + [Drive("a", ServingExited(1), boots)]
  }

  /** On a one-port range the dead child keeps the port, and the respawn that is to
      replace it is refused for want of one. */
  lemma ExitedChildBlocksRespawn(q: Port, boots: Boots)
    requires q < U16_MAX && boots(1).Ok?
    ensures
      var f0, ts := NewFleet({"a"}, 1, q, q), DeathOfTheServed(boots);
      var f := AfterTurns(f0, ts);
      && AllAllowed(f0, ts) && FleetOk(f, q)
      && Orphan(f, "a", 1) && Holds(f.plant.runtimes, "a", 1, q)
      && f.plant.effects != [] && f.plant.effects[|f.plant.effects| - 1] == Posted("a", NoPort(2))
  {
    hide Driven, AllAllowed, AfterTurns, FleetOk, Boundary.Solo;
    var f0 := NewFleet({"a"}, 1, q, q);
    var t1, t2 := Drive("a", HeadAdvanced("A"), boots), Drive("a", BuildFinished(1, Green), boots);
    var t3, t4 := Drive("a", ProbeSucceeded(1), boots), Drive("a", ServingExited(1), boots);
    var c := Child(q, boots(1).value, "A");
    StartsLone(q);
    NoTurns(f0);
    LoneBuilds(q, boots);
    TurnsSnoc(f0, [], t1);
    assert [] + [t1] == [t1];
    var ef1: seq<Effect> := [BuildStarted("a", "A", 1)];
    LoneProbes(q, boots, ef1);
    TurnsSnoc(f0, [t1], t2);
    var ef2 := ef1 + [ChildSpawned("a", "A", 1, q, boots(1).value), ProbeStarted("a", 1, q)];
    LoneServes(q, c, boots, ef2);
    assert ProbeBegan(ef2, "a", 1) by { assert ProbeStarted("a", 1, q) in ef2; }
    TurnsSnoc(f0, [t1] + [t2], t3);
    LoneDies(q, Runtime(Some((q, 1)), map[1 := c]), boots, ef2);
    TurnsSnoc(f0, [t1] + [t2] + [t3], t4);
    NewFleetOk({"a"}, 1, q, q);
    TurnsKeepFleet(f0, q, DeathOfTheServed(boots));
    var f := AfterTurns(f0, DeathOfTheServed(boots));
    LoneOrphans(f, q, Runtime(Some((q, 1)), map[1 := c]), ef2);
  }

  lemma StartsLone(q: Port)
    ensures NewFleet({"a"}, 1, q, q) == Lone(Fresh, 1, Empty, q, q, [])
  {
    var f := NewFleet({"a"}, 1, q, q);
    assert f.daemon.instances == map["a" := Fresh] && f.plant.runtimes == map["a" := Empty];
  }

  lemma NoTurns(f: Fleet)
    ensures AllAllowed(f, []) && AfterTurns(f, []) == f
  {
  }

  lemma LoneOrphans(f: Fleet, q: Port, rt: Runtime, ef: seq<Effect>)
    requires q < U16_MAX && 1 in rt.children && forall x :: x in ef ==> !x.ChildStopped?
    requires f == Lone(Fresh.(pipeline := Probing("A", 2, true), lastGreen := Some("A")), 3, rt, q + 1, q,
                       ef + [Posted("a", NoPort(2))])
    ensures Orphan(f, "a", 1)
  {
    assert "a" in f.daemon.instances;
  }

  /** Joining a configured name again loses the port of its child: after the same run
      the port is neither free nor un-issued, and no child holds it. */
  lemma RejoinLosesPort(q: Port, boots: Boots)
    requires q < U16_MAX && boots(1).Ok?
    ensures
      var f := Joined(AfterTurns(NewFleet({"a"}, 1, q, q), DeathOfTheServed(boots)), "a");
      && !PortsOk(f.plant, q) && q < f.plant.ports.next && q !in f.plant.ports.free
      && forall n, g: Gen :: !Holds(f.plant.runtimes, n, g, q)
  {
    hide Driven, AfterTurns, FleetOk, PortsOk, DeathOfTheServed;
    var f := AfterTurns(NewFleet({"a"}, 1, q, q), DeathOfTheServed(boots));
    ExitedChildBlocksRespawn(q, boots);
    ReadOwnership(f, q);
    JoinConservesIff(f, q, "a");
    assert forall m, g: Gen :: Holds(Joined(f, "a").plant.runtimes, m, g, q) ==> Holds(f.plant.runtimes, m, g, q);
  }
}
