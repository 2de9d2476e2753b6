/**
 * The lifecycle state machine as the program keeps it: maps, queue and set
 * edited in place, actions pushed to a list, slots handed out by a loop.  Every
 * method is proved against the functions of module AppModel.
 */
module AppState {
  import opened Wrappers
  import opened AppModel
  import opened AppInvariant

  /** The edits a handler makes in place for one instance: its own record, and
      its queue entry and building mark only when its pipeline changes phase. */
  predicate Edited(d: Daemon, n: Name, l: Local, d1: Daemon)
    requires n in d.instances
  {
    var before, after := d.instances[n].pipeline, l.inst.pipeline;
    && d1.instances == d.instances[n := l.inst]
    && d1.queue == (if before.Queued? then if after.Queued? then d.queue else Without(d.queue, n)
                    else if after.Queued? then d.queue + [n] else d.queue)
    && d1.building == (if before.Building? && !after.Building? then d.building - {n} else d.building)
    && d1.nextGen == l.gen
    && d1.maxConcurrent == d.maxConcurrent
  }

  /** Those edits are what `Install` derives from the pipeline alone. */
  lemma EditedIsInstalled(d: Daemon, n: Name, e: Event, d1: Daemon)
    requires Inv(d) && n in d.instances
    requires Edited(d, n, LocalStep(d.instances[n], n, e, d.nextGen), d1)
    ensures d1 == Install(d, n, LocalStep(d.instances[n], n, e, d.nextGen))
    ensures Inv(d1)
  {
    hide LocalStep;
    LocalStepKeeps(d.instances[n], n, e, d.nextGen);
    InstallKeeps(d, n, e);
    WithoutIs(d.queue, n);
    if n !in d.building { assert d.building - {n} == d.building; }
  }

  /** A step is the edit of one instance, then dispatch if it asks for it. */
  lemma StepIs(d: Daemon, n: Name, e: Event, d1: Daemon, acts: seq<Action>)
    requires Inv(d) && n in d.instances
    requires Edited(d, n, LocalStep(d.instances[n], n, e, d.nextGen), d1)
    requires acts == LocalStep(d.instances[n], n, e, d.nextGen).acts
    ensures Inv(d1)
    ensures Step(d, n, e) ==
            if LocalStep(d.instances[n], n, e, d.nextGen).dispatch then (Dispatch(d1).0, acts + Dispatch(d1).1)
            else (d1, acts)
  {
    hide LocalStep, Install, Dispatch, Edited, Inv;
    EditedIsInstalled(d, n, e, d1);
  }

  /** A stale or out-of-phase event changes nothing. */
  lemma StepIgnores(d: Daemon, n: Name, e: Event)
    requires Inv(d) && n in d.instances
    requires Decide(d.instances[n], n, e) == Stay(d.instances[n], [], false)
    ensures Step(d, n, e) == (d, [])
  {
    hide Inv, Dispatch, Install, Decide;
    assert d.instances == d.instances[n := d.instances[n]];
    StepIs(d, n, e, d, []);
  }

  lemma DecideBuilt(i: Instance, n: Name, g: Gen, outcome: Outcome)
    ensures
      Decide(i, n, BuildFinished(g, outcome)) ==
      if BuildAccepted(i, g) then OnBuilt(i, n, i.pipeline.sha, g, outcome) else Stay(i, [], false)
  {
  }

  /** The same for a build whose slot is freed with nothing to restore. */
  lemma StepFreesSlot(d: Daemon, n: Name, e: Event, j: Instance, acts: seq<Action>, d1: Daemon)
    requires Inv(d) && n in d.instances && d.instances[n].pipeline.Building?
    requires !j.pipeline.Building?
    requires Decide(d.instances[n], n, e) == Stay(j, acts, true)
    requires d1 == d.(instances := d.instances[n := j],
                      queue := if j.pipeline.Queued? then d.queue + [n] else d.queue,
                      building := d.building - {n})
    ensures Inv(d1)
    ensures Step(d, n, e) == (Dispatch(d1).0, acts + Dispatch(d1).1)
  {
    hide Inv, Dispatch, Step, Install, Decide;
    StepIs(d, n, e, d1, acts);
  }

  /** The same for an event that settles an instance that held a slot or a
      probe: `out` and `d1` are read off `Settled` alone. */
  lemma StepSettles(d: Daemon, n: Name, e: Event, d1: Daemon, out: seq<Action>)
    requires Inv(d) && n in d.instances && !d.instances[n].pipeline.Queued?
    requires Decide(d.instances[n], n, e).Settle?
    requires
      var m := Decide(d.instances[n], n, e);
      var s := Settled(m.inst, n, d.nextGen);
      && out == m.acts + s.acts
      && d1 == d.(instances := d.instances[n := s.inst], nextGen := s.gen,
                  queue := if s.inst.pipeline.Queued? then d.queue + [n] else d.queue,
                  building := d.building - {n})
    ensures Inv(d1)
    ensures Step(d, n, e) == (Dispatch(d1).0, out + Dispatch(d1).1)
  {
    hide Dispatch, Step, Install, Settled, Decide, LocalStep;
    SettledIsLocal(d.instances[n], n, e, d.nextGen);
    if !d.instances[n].pipeline.Building? { BuildersAreMarked(d, n); }
    DecideKeeps(d.instances[n], n, e);
    SettledNeverBuilds(Decide(d.instances[n], n, e).inst, n, d.nextGen);
    StepIs(d, n, e, d1, out);
  }

  lemma SettledIsLocal(i: Instance, n: Name, e: Event, gen: Gen)
    requires Decide(i, n, e).Settle?
    ensures
      var m := Decide(i, n, e);
      var s := Settled(m.inst, n, gen);
      LocalStep(i, n, e, gen) == Local(s.inst, s.gen, m.acts + s.acts, true)
  {
  }

  lemma SettledNeverBuilds(i: Instance, n: Name, gen: Gen)
    requires i.pipeline.Idle?
    ensures !Settled(i, n, gen).inst.pipeline.Building?
  {
  }

  lemma BuildersAreMarked(d: Daemon, n: Name)
    requires Inv(d) && n in d.instances && !d.instances[n].pipeline.Building?
    ensures d.building - {n} == d.building
  {
  }

  lemma DispatchHalts(d: Daemon)
    requires !SlotFree(d)
    ensures Dispatch(d) == (d, [])
  {
  }

  lemma DispatchContinues(d: Daemon)
    requires SlotFree(d) && HeadDispatchable(d)
    ensures
      var (d1, a) := Dispatched(d);
      Dispatch(d) == (Dispatch(d1).0, [a] + Dispatch(d1).1)
  {
  }

  class AppState {
    var instances: map<Name, Instance>
    var queue: seq<Name>
    var building: set<Name>
    const maxConcurrent: nat
    var nextGeneration: Gen

    ghost function Model(): Daemon
      reads this
    {
      Daemon(instances, queue, building, maxConcurrent, nextGeneration)
    }

    ghost predicate Valid()
      reads this
    {
      Inv(Model())
    }

    constructor WithMaxConcurrent(names: set<Name>, maxConcurrent: nat)
      ensures Valid() && Model() == New(names, maxConcurrent)
    {
      instances := map n | n in names :: Fresh;
      queue := [];
      building := {};
      this.maxConcurrent := if maxConcurrent < 1 then 1 else maxConcurrent;
      nextGeneration := 1;
      new;
      NewKeeps(names, maxConcurrent);
    }

    method AddInstance(name: Name)
      requires Valid()
      modifies this
      ensures Valid() && Model() == Added(old(Model()), name)
    {
      AddedKeeps(Model(), name);
      if name !in instances {
        instances := instances[name := Fresh];
      }
    }

    method RemoveInstance(name: Name)
      requires Valid()
      modifies this
      ensures Valid() && Model() == Removed(old(Model()), name)
    {
      RemovedKeeps(Model(), name);
      instances := instances - {name};
      queue := Without(queue, name);
      building := building - {name};
    }

    /** Advance one instance by one event; the actions may concern others. */
    method Step(name: Name, event: Event) returns (actions: seq<Action>)
      requires Valid()
      modifies this
      ensures Valid() && (Model(), actions) == AppModel.Step(old(Model()), name, event)
    {
      hide LocalStep, Install, AppModel.Dispatch;
      actions := [];
      StepKeeps(Model(), name, event);
      if name !in instances {
        return;
      }
      match event
      case HeadAdvanced(sha) => actions := OnHead(name, sha);
      case BuildFinished(g, outcome) => actions := OnBuildFinished(name, g, outcome);
      case ProbeSucceeded(g) => actions := OnProbeSucceeded(name, g);
      case ProbeFailed(g, reason) => actions := OnProbeFailed(name, g, reason);
      case ServingExited(g) => actions := OnServingExited(name, g);
      case DrainComplete(g) => OnDrainComplete(name, g);
      case RecoverFromPointer(sha) => actions := OnRecover(name, sha);
    }

    method AllocGeneration() returns (g: Gen)
      modifies this`nextGeneration
      ensures g == old(nextGeneration) && nextGeneration == g + 1
    {
      g := nextGeneration;
      nextGeneration := nextGeneration + 1;
    }

    method RequestBuild(name: Name, sha: Sha)
      requires name in instances
      modifies this`instances, this`queue
      ensures instances == old(instances)[name := Requested(old(instances)[name], sha)]
      ensures queue == if old(instances)[name].pipeline.Idle? && instances[name].pipeline.Queued?
                       then old(queue) + [name] else old(queue)
      ensures old(instances)[name].pipeline.Idle? ==> !instances[name].pipeline.Building?
    {
      var inst := instances[name];
      if inst.serving.Some? && inst.serving.value.sha == sha { return; }
      if inst.lastRed.Some? && inst.lastRed.value.0 == sha { return; }
      match inst.pipeline
      case Idle =>
        instances := instances[name := inst.(pipeline := Queued(sha))];
        queue := queue + [name];
      case Queued(_) =>
        instances := instances[name := inst.(pipeline := Queued(sha))];
      case Building(busy, _) =>
        if busy != sha { instances := instances[name := inst.(pending := Some(sha))]; }
      case Probing(busy, _, _) =>
        if busy != sha { instances := instances[name := inst.(pending := Some(sha))]; }
    }

    method TryRespawn(name: Name, acts: seq<Action>) returns (out: seq<Action>)
      requires name in instances
      modifies this`instances, this`nextGeneration
      ensures
        var r := Respawned(old(instances)[name], name, old(nextGeneration));
        instances == old(instances)[name := r.inst] && nextGeneration == r.gen && out == acts + r.acts
    {
      out := acts;
      var inst := instances[name];
      if !(inst.pipeline.Idle? && inst.serving.None? && inst.needsRespawn && inst.lastGreen.Some?) { return; }
      var generation := AllocGeneration();
      var sha := inst.lastGreen.value;
      instances := instances[name := inst.(needsRespawn := false, pipeline := Probing(sha, generation, true))];
      out := out + [Respawn(name, sha, generation)];
    }

    method SettleIdle(name: Name, acts: seq<Action>) returns (out: seq<Action>)
      requires name in instances
      modifies this`instances, this`queue, this`nextGeneration
      ensures
        var s := Settled(old(instances)[name], name, old(nextGeneration));
        instances == old(instances)[name := s.inst] && nextGeneration == s.gen && out == acts + s.acts
      ensures queue == if old(instances)[name].pipeline.Idle? && instances[name].pipeline.Queued?
                       then old(queue) + [name] else old(queue)
      ensures old(instances)[name].pipeline.Idle? ==> !instances[name].pipeline.Building?
    {
      out := TryRespawn(name, acts);
      var inst := instances[name];
      if inst.pipeline.Idle? && inst.pending.Some? {
        instances := instances[name := inst.(pending := None)];
        RequestBuild(name, inst.pending.value);
      }
    }

    method RecordRed(name: Name, sha: Sha, reason: string, files: seq<string>, acts: seq<Action>)
      returns (out: seq<Action>)
      requires name in instances
      modifies this`instances
      ensures instances == old(instances)[name := Reddened(old(instances)[name], sha, reason, files)]
      ensures out == acts + [AppModel.RecordRed(name, sha, reason)]
    {
      var inst := instances[name];
      instances := instances[name := inst.(lastRed := Some((sha, reason)), lastRedFiles := files)];
      out := acts + [AppModel.RecordRed(name, sha, reason)];
    }

    /** Hand free build slots to the next queued instances. */
    method Dispatch(acts: seq<Action>) returns (out: seq<Action>)
      requires Valid()
      modifies this
      ensures Valid()
      ensures Model() == AppModel.Dispatch(old(Model())).0 && out == acts + AppModel.Dispatch(old(Model())).1
    {
      hide Inv, AppModel.Dispatch;
      out := acts;
      ghost var started: seq<Action> := [];
      while |building| < maxConcurrent && queue != []
        invariant Valid()
        invariant out == acts + started
        invariant AppModel.Dispatch(old(Model())).0 == AppModel.Dispatch(Model()).0
        invariant AppModel.Dispatch(old(Model())).1 == started + AppModel.Dispatch(Model()).1
        decreases |queue|
      {
        ghost var before := Model();
        QueueHeadIsQueued(before);
        DispatchedKeeps(before);
        DispatchContinues(before);
        var name := queue[0];
        queue := queue[1..];
        var generation := AllocGeneration();
        var inst := instances[name];
        var sha := inst.pipeline.sha;
        instances := instances[name := inst.(pipeline := Building(sha, generation))];
        building := building + {name};
        out := out + [StartBuild(name, sha, generation)];
        assert Model() == Dispatched(before).0;
        started := started + [StartBuild(name, sha, generation)];
      }
      DispatchHalts(Model());
    }

    method OnHead(name: Name, sha: Sha) returns (actions: seq<Action>)
      requires Valid() && name in instances
      modifies this
      ensures (Model(), actions) == AppModel.Step(old(Model()), name, HeadAdvanced(sha))
    {
      hide Inv, AppModel.Dispatch, AppModel.Step, Settled, Requested,
           DiskFull, IndeterminateTwice, ProbeRed, RespawnRed;
      actions := [];
      ghost var d := Model();
      var inst := instances[name];
      match inst.pipeline
      case Idle =>
        RequestBuild(name, sha);
        StepIs(d, name, HeadAdvanced(sha), Model(), actions);
        actions := Dispatch(actions);
      case Queued(queued) =>
        if queued != sha { instances := instances[name := inst.(pipeline := Queued(sha))]; }
        StepIs(d, name, HeadAdvanced(sha), Model(), actions);
      case Building(busy, _) =>
        if busy != sha { instances := instances[name := inst.(pending := Some(sha))]; }
        StepIs(d, name, HeadAdvanced(sha), Model(), actions);
      case Probing(busy, _, _) =>
        if busy != sha { instances := instances[name := inst.(pending := Some(sha))]; }
        StepIs(d, name, HeadAdvanced(sha), Model(), actions);
    }

    method OnBuildFinished(name: Name, generation: Gen, outcome: Outcome) returns (actions: seq<Action>)
      requires Valid() && name in instances
      modifies this
      ensures (Model(), actions) == AppModel.Step(old(Model()), name, BuildFinished(generation, outcome))
    {
      hide Inv, AppModel.Dispatch, AppModel.Step, Decide;
      actions := [];
      ghost var d := Model();
      var inst := instances[name];
      if !(inst.pipeline.Building? && inst.pipeline.gen == generation) {
        DecideBuilt(inst, name, generation, outcome);
        StepIgnores(d, name, BuildFinished(generation, outcome));
        return;
      }
      var sha := inst.pipeline.sha;
      building := building - {name};
      match outcome {
        case Green => actions := FinishGreen(name, generation, sha, d);
        case Failed(reason, enospc, files) => actions := FinishFailed(name, generation, sha, reason, enospc, files, d);
        case Indeterminate(reason) => actions := FinishIndeterminate(name, generation, sha, reason, d);
      }
      actions := Dispatch(actions);
    }

    /** The outcome arms start from the daemon `d` with the slot already freed, and
        leave what only the handing out of slots separates from the whole step. */
    ghost predicate Freed(d: Daemon, name: Name, generation: Gen, sha: Sha)
      reads this
    {
      && Inv(d) && name in d.instances && d.instances[name].pipeline == Building(sha, generation)
      && Model() == d.(building := d.building - {name})
    }

    ghost predicate Undispatched(d: Daemon, name: Name, event: Event, actions: seq<Action>)
      reads this
    {
      var (d1, starts) := AppModel.Dispatch(Model());
      Valid() && AppModel.Step(d, name, event) == (d1, actions + starts)
    }

    method FinishGreen(name: Name, generation: Gen, sha: Sha, ghost d: Daemon) returns (actions: seq<Action>)
      requires Freed(d, name, generation, sha)
      modifies this
      ensures Undispatched(d, name, BuildFinished(generation, Green), actions)
    {
      hide Inv, AppModel.Dispatch, AppModel.Step;
      var inst := instances[name];
      instances := instances[name := inst.(indeterminateStreak := 0, enospcStreak := 0,
                                           pipeline := Probing(sha, generation, false))];
      actions := [SpawnAndProbe(name, sha, generation)];
      StepFreesSlot(d, name, BuildFinished(generation, Green), instances[name], actions, Model());
    }

    method FinishFailed(name: Name, generation: Gen, sha: Sha, reason: string, enospc: bool, files: seq<string>,
                        ghost d: Daemon)
      returns (actions: seq<Action>)
      requires Freed(d, name, generation, sha)
      modifies this
      ensures Undispatched(d, name, BuildFinished(generation, Failed(reason, enospc, files)), actions)
    {
      hide Inv, AppModel.Dispatch, AppModel.Step, Settled, Requested, Decide, DiskFull;
      ghost var outcome := Failed(reason, enospc, files);
      ghost var event := BuildFinished(generation, outcome);
      DecideBuilt(d.instances[name], name, generation, outcome);
      var inst := instances[name].(indeterminateStreak := 0, pipeline := Idle);
      actions := [];
      if !enospc {
        instances := instances[name := inst.(enospcStreak := 0)];
        actions := Latch(name, generation, outcome, sha, reason, files, d);
      } else if inst.enospcStreak >= ENOSPC_RETRY_CAP {
        instances := instances[name := inst.(enospcStreak := 0)];
        actions := Latch(name, generation, outcome, sha, DiskFull(reason), [], d);
      } else {
        var retry := if inst.pending.Some? then inst.pending.value else sha;
        instances := instances[name := inst.(enospcStreak := inst.enospcStreak + 1, pending := None)];
        RequestBuild(name, retry);
        StepFreesSlot(d, name, event, instances[name], actions, Model());
      }
    }

    method FinishIndeterminate(name: Name, generation: Gen, sha: Sha, reason: string, ghost d: Daemon)
      returns (actions: seq<Action>)
      requires Freed(d, name, generation, sha)
      modifies this
      ensures Undispatched(d, name, BuildFinished(generation, Indeterminate(reason)), actions)
    {
      hide Inv, AppModel.Dispatch, AppModel.Step, Settled, Requested, Decide, IndeterminateTwice;
      ghost var outcome := Indeterminate(reason);
      DecideBuilt(d.instances[name], name, generation, outcome);
      var inst := instances[name].(pipeline := Idle);
      actions := [];
      if inst.indeterminateStreak >= 1 {
        instances := instances[name := inst.(indeterminateStreak := 0)];
        actions := Latch(name, generation, outcome, sha, IndeterminateTwice(reason), [], d);
      } else {
        var retry := if inst.pending.Some? then inst.pending.value else sha;
        instances := instances[name := inst.(indeterminateStreak := inst.indeterminateStreak + 1, pending := None)];
        RequestBuild(name, retry);
        StepFreesSlot(d, name, BuildFinished(generation, outcome), instances[name], actions, Model());
      }
    }

    /** Record the red of a decided build, then settle. */
    method Latch(name: Name, generation: Gen, ghost outcome: Outcome, sha: Sha, reason: string, files: seq<string>,
                 ghost d: Daemon)
      returns (actions: seq<Action>)
      requires Inv(d) && name in d.instances && d.instances[name].pipeline.Building? && name in instances
      requires instances[name].pipeline.Idle?
      requires Model() == d.(instances := d.instances[name := instances[name]], building := d.building - {name})
      requires Decide(d.instances[name], name, BuildFinished(generation, outcome))
               == Red(instances[name], name, sha, reason, files, [])
      modifies this
      ensures Undispatched(d, name, BuildFinished(generation, outcome), actions)
    {
      hide Inv, AppModel.Dispatch, AppModel.Step, Settled, Decide;
      actions := RecordRed(name, sha, reason, files, []);
      actions := SettleIdle(name, actions);
      StepSettles(d, name, BuildFinished(generation, outcome), Model(), actions);
    }

    method OnProbeSucceeded(name: Name, generation: Gen) returns (actions: seq<Action>)
      requires Valid() && name in instances
      modifies this
      ensures (Model(), actions) == AppModel.Step(old(Model()), name, ProbeSucceeded(generation))
    {
      hide Inv, AppModel.Dispatch, AppModel.Step, Settled, Requested, LocalStep;
      actions := [];
      ghost var d := Model();
      var inst := instances[name];
      if !(inst.pipeline.Probing? && inst.pipeline.gen == generation) {
        StepIgnores(d, name, ProbeSucceeded(generation));
        return;
      }
      var sha := inst.pipeline.sha;
      actions := actions + [Promote(name, sha, generation)];
      var previous := inst.serving;
      inst := inst.(serving := Some(Serving(sha, generation)));
      if previous.Some? {
        inst := inst.(draining := inst.draining + [previous.value.gen]);
        actions := actions + [StartDrain(name, previous.value.gen)];
      }
      instances := instances[name := inst.(lastGreen := Some(sha), needsRespawn := false,
                                           respawnStreak := 0, pipeline := Idle)];
      BuildersAreMarked(d, name);
      assert Decide(d.instances[name], name, ProbeSucceeded(generation)) == Settle(instances[name], actions);
      actions := SettleIdle(name, actions);
      StepSettles(d, name, ProbeSucceeded(generation), Model(), actions);
      actions := Dispatch(actions);
    }

    method OnProbeFailed(name: Name, generation: Gen, reason: string) returns (actions: seq<Action>)
      requires Valid() && name in instances
      modifies this
      ensures (Model(), actions) == AppModel.Step(old(Model()), name, ProbeFailed(generation, reason))
    {
      hide Inv, AppModel.Dispatch, AppModel.Step, Settled, Requested, LocalStep,
           DiskFull, IndeterminateTwice, ProbeRed, RespawnRed;
      actions := [];
      ghost var d := Model();
      var inst := instances[name];
      if !(inst.pipeline.Probing? && inst.pipeline.gen == generation) {
        StepIgnores(d, name, ProbeFailed(generation, reason));
        return;
      }
      var sha, respawn := inst.pipeline.sha, inst.pipeline.respawn;
      inst := inst.(pipeline := Idle);
      instances := instances[name := inst];
      actions := actions + [KillStandby(name, generation)];
      if respawn {
        if inst.respawnStreak >= RESPAWN_RETRY_CAP {
          instances := instances[name := inst.(respawnStreak := 0)];
          actions := RecordRed(name, sha, RespawnRed(reason), [], actions);
        } else {
          instances := instances[name := inst.(respawnStreak := inst.respawnStreak + 1, needsRespawn := true)];
        }
      } else {
        actions := RecordRed(name, sha, ProbeRed(reason), [], actions);
      }
      BuildersAreMarked(d, name);
      assert Decide(d.instances[name], name, ProbeFailed(generation, reason)) == Settle(instances[name], actions);
      actions := SettleIdle(name, actions);
      StepSettles(d, name, ProbeFailed(generation, reason), Model(), actions);
      actions := Dispatch(actions);
    }

    method OnServingExited(name: Name, generation: Gen) returns (actions: seq<Action>)
      requires Valid() && name in instances
      modifies this
      ensures (Model(), actions) == AppModel.Step(old(Model()), name, ServingExited(generation))
    {
      hide Inv, AppModel.Dispatch, AppModel.Step, Settled, Requested,
           DiskFull, IndeterminateTwice, ProbeRed, RespawnRed;
      actions := [];
      ghost var d := Model();
      var inst := instances[name];
      if !(inst.serving.Some? && inst.serving.value.gen == generation) {
        StepIs(d, name, ServingExited(generation), Model(), actions);
        return;
      }
      inst := inst.(serving := None, needsRespawn := inst.lastGreen.Some?);
      instances := instances[name := inst];
      match inst.pipeline {
        case Idle =>
          actions := TryRespawn(name, actions);
        case Queued(sha) =>
          if inst.lastGreen.Some? {
            instances := instances[name := inst.(pending := Some(sha), pipeline := Idle)];
            queue := Without(queue, name);
            actions := TryRespawn(name, actions);
          }
        case Building(_, _) =>
        case Probing(_, _, _) =>
      }
      StepIs(d, name, ServingExited(generation), Model(), actions);
    }

    method OnDrainComplete(name: Name, generation: Gen)
      requires Valid() && name in instances
      modifies this
      ensures (Model(), []) == AppModel.Step(old(Model()), name, DrainComplete(generation))
    {
      hide Inv, AppModel.Dispatch, AppModel.Step, Settled, Requested,
           DiskFull, IndeterminateTwice, ProbeRed, RespawnRed;
      ghost var d := Model();
      var inst := instances[name];
      instances := instances[name := inst.(draining := Without(inst.draining, generation))];
      StepIs(d, name, DrainComplete(generation), Model(), []);
    }

    method OnRecover(name: Name, sha: Sha) returns (actions: seq<Action>)
      requires Valid() && name in instances
      modifies this
      ensures (Model(), actions) == AppModel.Step(old(Model()), name, RecoverFromPointer(sha))
    {
      hide Inv, AppModel.Dispatch, AppModel.Step, Settled, Requested,
           DiskFull, IndeterminateTwice, ProbeRed, RespawnRed;
      ghost var d := Model();
      actions := [];
      var inst := instances[name];
      if !inst.pipeline.Idle? || inst.serving.Some? {
        StepIs(d, name, RecoverFromPointer(sha), Model(), actions);
        return;
      }
      instances := instances[name := inst.(lastGreen := Some(sha), needsRespawn := true)];
      actions := TryRespawn(name, actions);
      StepIs(d, name, RecoverFromPointer(sha), Model(), actions);
    }
  }
}
