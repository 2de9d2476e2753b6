/**
 * Ownership of ports and proxy slots over whole runs of the driver.
 */
module AppFleetRuns {
  import opened Wrappers
  import opened AppModel
  import opened AppInvariant
  import opened PortRange
  import opened AppFleet

  // ------------------------------------------------------------ the effect log

  lemma LoggedEffect(effects: seq<Effect>, ef: Effect)
    ensures forall n, g: Gen :: ProbeBegan(effects + [ef], n, g) <==>
              ProbeBegan(effects, n, g) || (ef.ProbeStarted? && ef.name == n && ef.gen == g)
    ensures forall n, g: Gen :: Drained(effects + [ef], n, g) <==>
              Drained(effects, n, g) || (ef.ChildStopped? && ef.drain && ef.name == n && ef.gen == g)
  {
    forall n, g: Gen ensures ProbeBegan(effects + [ef], n, g) <==>
              ProbeBegan(effects, n, g) || (ef.ProbeStarted? && ef.name == n && ef.gen == g) {
      if ProbeBegan(effects, n, g) {
        var port :| ProbeStarted(n, g, port) in effects;
        assert ProbeStarted(n, g, port) in effects + [ef];
      }
      if ef.ProbeStarted? && ef.name == n && ef.gen == g {
        assert ProbeStarted(n, g, ef.port) in effects + [ef];
      }
    }
    forall n, g: Gen ensures Drained(effects + [ef], n, g) <==>
              Drained(effects, n, g) || (ef.ChildStopped? && ef.drain && ef.name == n && ef.gen == g) {
      if Drained(effects, n, g) {
        var token :| ChildStopped(n, g, token, true) in effects;
        assert ChildStopped(n, g, token, true) in effects + [ef];
      }
      if ef.ChildStopped? && ef.drain && ef.name == n && ef.gen == g {
        assert ChildStopped(n, g, ef.token, true) in effects + [ef];
      }
    }
  }

  lemma SpawnLogged(effects: seq<Effect>, n: Name, sha: Sha, g: Gen, port: Port, token: nat)
    ensures
      var after := effects + [ChildSpawned(n, sha, g, port, token), ProbeStarted(n, g, port)];
      && (forall m, h: Gen :: ProbeBegan(after, m, h) <==> ProbeBegan(effects, m, h) || (m == n && h == g))
      && (forall m, h: Gen :: Drained(after, m, h) <==> Drained(effects, m, h))
  {
    hide ProbeBegan, Drained;
    var e1, e2 := ChildSpawned(n, sha, g, port, token), ProbeStarted(n, g, port);
    LoggedEffect(effects, e1);
    LoggedEffect(effects + [e1], e2);
    assert effects + [e1, e2] == (effects + [e1]) + [e2];
  }

  lemma {:induction false} ExecutedInTurn(p: Plant, a: seq<Action>, b: seq<Action>, boots: Boots)
    ensures ExecutedAll(p, a + b, boots) == ExecutedAll(ExecutedAll(p, a, boots), b, boots)
    decreases |b|
  {
    if b == [] {
      assert a + b == a;
    } else {
      assert (a + b)[..|a + b| - 1] == a + b[..|b| - 1];
      ExecutedInTurn(p, a, b[..|b| - 1], boots);
    }
  }

  lemma ExecutedOnly(p: Plant, a: Action, boots: Boots)
    ensures ExecutedAll(p, [a], boots) == Executed(p, a, boots)
  {
    assert ExecutedAll(p, [], boots) == p;
  }

  // ------------------------------------------------------------ one instance

  ghost predicate PlantOk(p: Plant, start: Port, n: Name, i: Instance, gen: Gen) {
    && n in p.runtimes
    && PortsOk(p, start)
    && EffectsOk(p.effects, gen)
    && RuntimeOk(i, p.runtimes[n], n, gen, p.effects)
  }

  /** Instance `j` is in flight, building or serving only where `i` was. */
  predicate Quieter(i: Instance, j: Instance) {
    && (j.pipeline == i.pipeline || j.pipeline.Idle? || j.pipeline.Queued?)
    && (j.serving == i.serving || j.serving.None?)
    && (forall g :: g in j.draining ==> g in i.draining)
  }

  lemma QuietKeeps(p: Plant, start: Port, n: Name, i: Instance, j: Instance, gen: Gen)
    requires PlantOk(p, start, n, i, gen) && Quieter(i, j)
    ensures PlantOk(p, start, n, j, gen)
  {
  }

  /** The launcher has a port to offer and says yes. */
  predicate Starts(p: Plant, n: Name, g: Gen, boots: Boots) {
    n in p.runtimes && Allocated(p.ports).1.Some? && boots(g).Ok?
  }

  /** A spawn that works starts its own probe; no spawn drains anything. */
  lemma SpawnEffects(p: Plant, n: Name, sha: Sha, g: Gen, boots: Boots)
    ensures
      var p1 := SpawnedAndProbed(p, n, sha, g, boots);
      && (forall m, h: Gen :: Drained(p1.effects, m, h) <==> Drained(p.effects, m, h))
      && (forall m, h: Gen :: ProbeBegan(p1.effects, m, h) <==>
            ProbeBegan(p.effects, m, h) || (Starts(p, n, g, boots) && m == n && h == g))
      && (!Starts(p, n, g, boots) ==> p1.runtimes == p.runtimes)
  {
    hide ProbeBegan, Drained, Returned, Allocated;
    var (_, port) := Allocated(p.ports);
    if n in p.runtimes && port.None? {
      LoggedEffect(p.effects, Posted(n, NoPort(g)));
    } else if n in p.runtimes {
      match boots(g)
      case Ok(token) => SpawnLogged(p.effects, n, sha, g, port.value, token);
      case Err(e) => LoggedEffect(p.effects, Posted(n, SpawnFailed(g, e)));
    }
  }

  lemma SpawnKeeps(p: Plant, start: Port, n: Name, i: Instance, sha: Sha, g: Gen, boots: Boots, gen: Gen)
    requires n in p.runtimes && PortsOk(p, start) && EffectsOk(p.effects, gen)
    requires g < gen && i.pipeline.Probing? && i.pipeline.gen == g
    requires !Tracks(p, n, g) && !ProbeBegan(p.effects, n, g) && !Drained(p.effects, n, g)
    requires var rt := p.runtimes[n];
             && (forall h :: h in rt.children ==> h < gen)
             && (rt.slot.Some? ==> rt.slot.value.1 in rt.children
                                   && rt.children[rt.slot.value.1].port == rt.slot.value.0
                                   && !Drained(p.effects, n, rt.slot.value.1))
             && (i.serving.Some? ==> rt.slot.Some? && rt.slot.value.1 == i.serving.value.gen)
             && g !in i.draining
             && (forall h: Gen :: h in i.draining && h in rt.children ==> Drained(p.effects, n, h))
    requires forall h: Gen :: Drained(p.effects, n, h) ==> !IsServing(i, h)
    ensures PlantOk(SpawnedAndProbed(p, n, sha, g, boots), start, n, i, gen)
  {
    hide PortsOk, ProbeBegan, Drained;
    SpawnKeepsPorts(p, start, n, sha, g, boots);
    var p1 := SpawnedAndProbed(p, n, sha, g, boots);
    SpawnEffects(p, n, sha, g, boots);
  }

  lemma KillKeeps(p: Plant, start: Port, n: Name, i: Instance, g: Gen, j: Instance, gen: Gen)
    requires PlantOk(p, start, n, i, gen) && InFlight(i, g) && Quieter(i, j) && !InFlight(j, g)
    ensures PlantOk(StoppedChild(p, n, g, false), start, n, j, gen)
  {
    hide PortsOk;
    StopKeepsPorts(p, start, n, g, false);
    if Tracks(p, n, g) {
      LoggedEffect(p.effects, ChildStopped(n, g, p.runtimes[n].children[g].token, false));
    }
  }

  lemma PromoteKeeps(p: Plant, start: Port, n: Name, i: Instance, g: Gen, boots: Boots, gen: Gen)
    requires PlantOk(p, start, n, i, gen) && ProbeAccepted(i, g) && OwnDistinct(i)
    requires forall h: Gen :: Owns(i, h) ==> h < gen
    requires ProbeBegan(p.effects, n, g)
    ensures PlantOk(ExecutedAll(p, OnProbed(i, n, g).acts, boots), start, n, AfterPromote(i, g), gen)
  {
    hide PortsOk;
    var p1 := Promoted(p, n, g);
    var first := Promote(n, i.pipeline.sha, g);
    ExecutedOnly(p, first, boots);
    assert InFlight(i, g);
    assert PortsOk(p1, start) by { PromoteKeepsPorts(p, start, n, g); }
    if i.serving.Some? {
      var s := i.serving.value.gen;
      assert OnProbed(i, n, g).acts == [first] + [StartDrain(n, s)];
      ExecutedInTurn(p, [first], [StartDrain(n, s)], boots);
      ExecutedOnly(p1, StartDrain(n, s), boots);
      StopKeepsPorts(p1, start, n, s, true);
      if Tracks(p1, n, s) {
        LoggedEffect(p1.effects, ChildStopped(n, s, p1.runtimes[n].children[s].token, true));
      }
    } else {
      assert OnProbed(i, n, g).acts == [first];
    }
  }

  lemma PromoteKeepsPorts(p: Plant, start: Port, n: Name, g: Gen)
    requires PortsOk(p, start) && Tracks(p, n, g)
    ensures PortsOk(Promoted(p, n, g), start)
  {
    SlotHolds(p.runtimes, n, Some((p.runtimes[n].children[g].port, g)));
  }

  /** What the launcher promises: a probe succeeds only where one was started. */
  ghost predicate Honest(effects: seq<Effect>, n: Name, e: Event) {
    e.ProbeSucceeded? ==> ProbeBegan(effects, n, e.gen)
  }

  lemma GreenKeeps(p: Plant, start: Port, n: Name, i: Instance, g: Gen, boots: Boots, gen: Gen)
    requires PlantOk(p, start, n, i, gen) && Ready(i, gen) && BuildAccepted(i, g)
    ensures
      var m := OnBuilt(i, n, i.pipeline.sha, g, Green);
      PlantOk(ExecutedAll(p, m.acts, boots), start, n, m.inst, gen)
  {
    hide PortsOk;
    var m := OnBuilt(i, n, i.pipeline.sha, g, Green);
    assert InFlight(i, g) && Owns(i, g);
    ExecutedOnly(p, SpawnAndProbe(n, i.pipeline.sha, g), boots);
    SpawnKeeps(p, start, n, m.inst, i.pipeline.sha, g, boots, gen);
  }

  lemma RedKeeps(p: Plant, n: Name, sha: Sha, reason: string, before: seq<Action>, boots: Boots)
    ensures ExecutedAll(p, before + [RecordRed(n, sha, reason)], boots) == ExecutedAll(p, before, boots)
  {
    ExecutedInTurn(p, before, [RecordRed(n, sha, reason)], boots);
    ExecutedOnly(ExecutedAll(p, before, boots), RecordRed(n, sha, reason), boots);
  }

  lemma BuildVerdictKeeps(p: Plant, start: Port, n: Name, i: Instance, g: Gen, outcome: Outcome, boots: Boots, gen: Gen)
    requires PlantOk(p, start, n, i, gen) && BuildAccepted(i, g) && !outcome.Green?
    ensures
      var m := OnBuilt(i, n, i.pipeline.sha, g, outcome);
      PlantOk(ExecutedAll(p, m.acts, boots), start, n, m.inst, gen)
  {
    hide PortsOk, RuntimeOk, DiskFull, IndeterminateTwice;
    var m := OnBuilt(i, n, i.pipeline.sha, g, outcome);
    QuietKeeps(p, start, n, i, m.inst, gen);
    if m.acts != [] {
      assert m.acts == [] + m.acts;
      RedKeeps(p, n, m.acts[0].sha, m.acts[0].reason, [], boots);
    }
  }

  lemma ProbeFailureKeepsPlant(p: Plant, start: Port, n: Name, i: Instance, g: Gen, reason: string, boots: Boots,
                               gen: Gen)
    requires PlantOk(p, start, n, i, gen) && ProbeAccepted(i, g)
    ensures
      var m := OnProbeFailure(i, n, g, reason);
      PlantOk(ExecutedAll(p, m.acts, boots), start, n, m.inst, gen)
  {
    hide PortsOk, RuntimeOk, RespawnRed, ProbeRed;
    var m := OnProbeFailure(i, n, g, reason);
    ExecutedOnly(p, KillStandby(n, g), boots);
    KillKeeps(p, start, n, i, g, m.inst, gen);
    if |m.acts| == 2 {
      assert m.acts == [KillStandby(n, g)] + [m.acts[1]];
      RedKeeps(p, n, m.acts[1].sha, m.acts[1].reason, [KillStandby(n, g)], boots);
    }
  }

  lemma DecideKeepsPlant(p: Plant, start: Port, n: Name, i: Instance, e: Event, boots: Boots, gen: Gen)
    requires PlantOk(p, start, n, i, gen) && Ready(i, gen) && Honest(p.effects, n, e)
    ensures
      var m := Decide(i, n, e);
      PlantOk(ExecutedAll(p, m.acts, boots), start, n, m.inst, gen)
  {
    hide PlantOk, OnBuilt, OnProbeFailure, OnProbed;
    match e
    case BuildFinished(g, outcome) =>
      if BuildAccepted(i, g) {
        if outcome.Green? { GreenKeeps(p, start, n, i, g, boots, gen); }
        else { BuildVerdictKeeps(p, start, n, i, g, outcome, boots, gen); }
      }
    case ProbeSucceeded(g) =>
      if ProbeAccepted(i, g) { PromoteKeeps(p, start, n, i, g, boots, gen); ProbedTo(i, n, g); }
    case ProbeFailed(g, reason) =>
      if ProbeAccepted(i, g) { ProbeFailureKeepsPlant(p, start, n, i, g, reason, boots, gen); }
    case DrainComplete(g) =>
      WithoutIs(i.draining, g);
      QuietKeeps(p, start, n, i, Decide(i, n, e).inst, gen);
    case _ => QuietKeeps(p, start, n, i, Decide(i, n, e).inst, gen);
  }

  lemma ProbedTo(i: Instance, n: Name, g: Gen)
    requires ProbeAccepted(i, g)
    ensures OnProbed(i, n, g).inst == AfterPromote(i, g)
  {
  }

  lemma RespawnKeepsPlant(p: Plant, start: Port, n: Name, i: Instance, boots: Boots, gen: Gen)
    requires PlantOk(p, start, n, i, gen) && gen !in i.draining
    ensures
      var r := Respawned(i, n, gen);
      PlantOk(ExecutedAll(p, r.acts, boots), start, n, r.inst, r.gen)
  {
    hide PortsOk;
    if RespawnDue(i) {
      ExecutedOnly(p, Respawn(n, i.lastGreen.value, gen), boots);
      SpawnKeeps(p, start, n, Respawned(i, n, gen).inst, i.lastGreen.value, gen, boots, gen + 1);
    }
  }

  lemma DrainsOnlyOwn(i: Instance, n: Name, e: Event, gen: Gen)
    requires Ready(i, gen)
    ensures gen !in Decide(i, n, e).inst.draining
  {
    hide Decide;
    DecideKeeps(i, n, e);
    assert gen in Decide(i, n, e).inst.draining ==> Owns(Decide(i, n, e).inst, gen);
  }

  lemma PerformKeepsPlant(p: Plant, start: Port, n: Name, i: Instance, e: Event, boots: Boots, gen: Gen)
    requires PlantOk(p, start, n, i, gen) && Ready(i, gen) && Honest(p.effects, n, e)
    ensures
      var l := LocalStep(i, n, e, gen);
      PlantOk(ExecutedAll(p, l.acts, boots), start, n, l.inst, l.gen)
  {
    hide PlantOk, Decide, Respawned, Executed;
    var m := Decide(i, n, e);
    DecideKeepsPlant(p, start, n, i, e, boots, gen);
    var p1 := ExecutedAll(p, m.acts, boots);
    if !m.Stay? {
      var r := Respawned(m.inst, n, gen);
      DrainsOnlyOwn(i, n, e, gen);
      RespawnKeepsPlant(p1, start, n, m.inst, boots, gen);
      ExecutedInTurn(p, m.acts, r.acts, boots);
      QuietKeeps(ExecutedAll(p1, r.acts, boots), start, n, r.inst, LocalStep(i, n, e, gen).inst, r.gen);
    }
  }

  // ------------------------------------------------------------ the other instances

  /** What instance `m` can tell apart in the plant. */
  ghost predicate SameFor(p: Plant, q: Plant, m: Name) {
    && (m in p.runtimes <==> m in q.runtimes)
    && (m in p.runtimes ==> p.runtimes[m] == q.runtimes[m])
    && (forall g: Gen :: ProbeBegan(p.effects, m, g) <==> ProbeBegan(q.effects, m, g))
    && (forall g: Gen :: Drained(p.effects, m, g) <==> Drained(q.effects, m, g))
  }

  lemma OtherSpared(p: Plant, a: Action, boots: Boots, m: Name)
    requires a.name != m || a.StartBuild?
    ensures SameFor(p, Executed(p, a, boots), m)
    ensures Executed(p, a, boots).runtimes.Keys == p.runtimes.Keys
  {
    hide Allocated, Returned, ProbeBegan, Drained;
    if a.SpawnAndProbe? || a.Respawn? {
      SpawnEffects(p, a.name, a.sha, a.gen, boots);
    } else {
      var q := Executed(p, a, boots);
      if q.effects != p.effects {
        var ef := q.effects[|p.effects|];
        assert q.effects == p.effects + [ef];
        LoggedEffect(p.effects, ef);
      }
    }
  }

  lemma {:induction false} OthersSpared(p: Plant, acts: seq<Action>, boots: Boots, m: Name)
    requires forall a :: a in acts ==> a.name != m || a.StartBuild?
    ensures SameFor(p, ExecutedAll(p, acts, boots), m)
    ensures ExecutedAll(p, acts, boots).runtimes.Keys == p.runtimes.Keys
    decreases |acts|
  {
    if acts != [] {
      var front := acts[..|acts| - 1];
      OthersSpared(p, front, boots, m);
      OtherSpared(ExecutedAll(p, front, boots), acts[|acts| - 1], boots, m);
    }
  }

  lemma StartKeepsPorts(p: Plant, a: Action, boots: Boots)
    requires a.StartBuild?
    ensures Executed(p, a, boots).runtimes == p.runtimes && Executed(p, a, boots).ports == p.ports
    ensures forall gen: Gen :: EffectsOk(p.effects, gen) ==> EffectsOk(Executed(p, a, boots).effects, gen)
  {
    if a.name in p.runtimes { LoggedEffect(p.effects, BuildStarted(a.name, a.sha, a.gen)); }
  }

  lemma {:induction false} StartsKeepPorts(p: Plant, acts: seq<Action>, boots: Boots)
    requires forall a :: a in acts ==> a.StartBuild?
    ensures
      var q := ExecutedAll(p, acts, boots);
      && q.runtimes == p.runtimes && q.ports == p.ports
      && forall gen: Gen :: EffectsOk(p.effects, gen) ==> EffectsOk(q.effects, gen)
    decreases |acts|
  {
    hide EffectsOk, Executed;
    if acts != [] {
      var front := acts[..|acts| - 1];
      StartsKeepPorts(p, front, boots);
      StartKeepsPorts(ExecutedAll(p, front, boots), acts[|acts| - 1], boots);
    }
  }

  // ------------------------------------------------------------ dispatch

  predicate SameOrStarted(i: Instance, j: Instance, gen: Gen, gen1: Gen) {
    j == i || (i.pipeline.Queued? && j.pipeline.Building? && gen <= j.pipeline.gen < gen1
               && j == i.(pipeline := j.pipeline))
  }

  lemma {:induction false} DispatchStarts(d: Daemon)
    ensures
      var (d1, acts) := Dispatch(d);
      && d1.instances.Keys == d.instances.Keys && d.nextGen <= d1.nextGen
      && (forall a :: a in acts ==> a.StartBuild?)
      && (forall n :: n in d.instances ==> SameOrStarted(d.instances[n], d1.instances[n], d.nextGen, d1.nextGen))
    decreases |d.queue|
  {
    if SlotFree(d) && HeadDispatchable(d) {
      DispatchStarts(Dispatched(d).0);
    }
  }

  lemma StartedKeeps(p: Plant, q: Plant, n: Name, i: Instance, j: Instance, gen: Gen, gen1: Gen)
    requires n in p.runtimes && RuntimeOk(i, p.runtimes[n], n, gen, p.effects) && EffectsOk(p.effects, gen)
    requires SameFor(p, q, n) && gen <= gen1 && SameOrStarted(i, j, gen, gen1)
    ensures RuntimeOk(j, q.runtimes[n], n, gen1, q.effects)
  {
  }

  lemma DispatchKeepsFleet(f: Fleet, start: Port, boots: Boots)
    requires FleetOk(f, start)
    ensures
      var (d, acts) := Dispatch(f.daemon);
      FleetOk(Fleet(d, ExecutedAll(f.plant, acts, boots)), start)
  {
    hide RuntimeOk, Inv, PortsOk, Dispatch;
    var (d, acts) := Dispatch(f.daemon);
    var q := ExecutedAll(f.plant, acts, boots);
    DispatchStarts(f.daemon);
    DispatchKeeps(f.daemon);
    StartsKeepPorts(f.plant, acts, boots);
    PortsDependOn(f.plant, q, start);
    LaterOk(q.effects, f.daemon.nextGen, d.nextGen);
    forall n | n in d.instances
      ensures RuntimeOk(d.instances[n], q.runtimes[n], n, d.nextGen, q.effects)
    {
      OthersSpared(f.plant, acts, boots, n);
      StartedKeeps(f.plant, q, n, f.daemon.instances[n], d.instances[n], f.daemon.nextGen, d.nextGen);
    }
  }

  lemma PortsDependOn(p: Plant, q: Plant, start: Port)
    requires PortsOk(p, start) && q.runtimes == p.runtimes && q.ports == p.ports
    ensures PortsOk(q, start)
  {
  }

  lemma LaterOk(effects: seq<Effect>, gen: Gen, gen1: Gen)
    requires EffectsOk(effects, gen) && gen <= gen1
    ensures EffectsOk(effects, gen1)
  {
  }

  // ------------------------------------------------------------ one input

  lemma InstalledKeepsFleet(f: Fleet, start: Port, n: Name, e: Event, boots: Boots)
    requires FleetOk(f, start) && n in f.daemon.instances && Honest(f.plant.effects, n, e)
    ensures
      var l := LocalStep(f.daemon.instances[n], n, e, f.daemon.nextGen);
      FleetOk(Fleet(Install(f.daemon, n, l), ExecutedAll(f.plant, l.acts, boots)), start)
  {
    hide LocalStep, RuntimeOk, Inv, PortsOk, EffectsOk, ExecutedAll;
    var i, gen := f.daemon.instances[n], f.daemon.nextGen;
    var l := LocalStep(i, n, e, gen);
    var d1, q := Install(f.daemon, n, l), ExecutedAll(f.plant, l.acts, boots);
    InstallKeeps(f.daemon, n, e);
    ReadyIn(f.daemon, n);
    LocalStepKeeps(i, n, e, gen);
    PerformKeepsPlant(f.plant, start, n, i, e, boots, gen);
    forall m | m in d1.instances
      ensures m in q.runtimes && RuntimeOk(d1.instances[m], q.runtimes[m], m, l.gen, q.effects)
    {
      if m != n {
        OthersSpared(f.plant, l.acts, boots, m);
        StartedKeeps(f.plant, q, m, f.daemon.instances[m], f.daemon.instances[m], gen, l.gen);
      }
    }
    OthersSpared(f.plant, [], boots, n);
    KeysKept(f.plant, l.acts, boots);
  }

  lemma {:induction false} KeysKept(p: Plant, acts: seq<Action>, boots: Boots)
    ensures ExecutedAll(p, acts, boots).runtimes.Keys == p.runtimes.Keys
    decreases |acts|
  {
    if acts != [] { KeysKept(p, acts[..|acts| - 1], boots); }
  }

  lemma ReadyIn(d: Daemon, n: Name)
    requires Inv(d) && n in d.instances
    ensures Ready(d.instances[n], d.nextGen)
  {
  }

  /** One event driven through state machine and driver. */
  lemma DrivenKeepsFleet(f: Fleet, start: Port, n: Name, e: Event, boots: Boots)
    requires FleetOk(f, start) && Honest(f.plant.effects, n, e)
    ensures FleetOk(Driven(f, n, e, boots), start)
  {
    hide LocalStep, FleetOk, Install, Dispatch, Executed, Honest;
    KnownName(f, start, n);
    if n in f.daemon.instances {
      var l := LocalStep(f.daemon.instances[n], n, e, f.daemon.nextGen);
      var d1 := Install(f.daemon, n, l);
      InstalledKeepsFleet(f, start, n, e, boots);
      if l.dispatch {
        DispatchKeepsFleet(Fleet(d1, ExecutedAll(f.plant, l.acts, boots)), start, boots);
        ExecutedInTurn(f.plant, l.acts, Dispatch(d1).1, boots);
      }
    } else {
      assert ExecutedAll(f.plant, [], boots) == f.plant;
    }
  }

  lemma KnownName(f: Fleet, start: Port, n: Name)
    requires FleetOk(f, start)
    ensures n in f.daemon.instances <==> n in f.plant.runtimes
  {
  }

  /** A drained child's port comes back when its drain is over. */
  lemma ReclaimedKeepsFleet(f: Fleet, start: Port, n: Name, g: Gen)
    requires FleetOk(f, start) && Drained(f.plant.effects, n, g)
    ensures FleetOk(f.(plant := Reclaimed(f.plant, n, g)), start)
  {
    hide Inv, PortsOk, EffectsOk;
    StopKeepsPorts(f.plant, start, n, g, false);
  }

  lemma JoinedKeepsFleet(f: Fleet, start: Port, n: Name)
    requires FleetOk(f, start) && n !in f.plant.runtimes
    ensures FleetOk(Joined(f, n), start)
  {
    hide Inv, Partition;
    AddedKeeps(f.daemon, n);
    HeldAfterJoin(f.plant.runtimes, n);
  }

  lemma HeldAfterJoin(rts: map<Name, Runtime>, n: Name)
    requires n !in rts
    ensures Held(rts[n := Empty]) == Held(rts)
    ensures OnePortEach(rts) ==> OnePortEach(rts[n := Empty])
  {
    var after := rts[n := Empty];
    assert forall m, g: Gen, q: Port :: Holds(after, m, g, q) <==> Holds(rts, m, g, q);
    forall q: Port ensures q in Held(after) <==> q in Held(rts) {
      HeldIs(rts, q);
      HeldIs(after, q);
    }
  }
}
