/**
 * What every step of the lifecycle keeps: the queue holds exactly the queued
 * instances, the building set exactly the building ones, generations are never
 * shared, and a waiting instance means every slot is taken.
 */
module AppInvariant {
  import opened Wrappers
  import opened AppModel

  // ------------------------------------------------------------ one instance

  /** The generation of the activity in the pipeline, if it has one. */
  predicate InFlight(i: Instance, g: Gen) {
    (i.pipeline.Building? || i.pipeline.Probing?) && i.pipeline.gen == g
  }

  /** Every generation an instance still answers for. */
  predicate Owns(i: Instance, g: Gen) {
    InFlight(i, g) || IsServing(i, g) || g in i.draining
  }

  predicate NoDup<T(==)>(s: seq<T>) {
    forall j, k :: 0 <= j < k < |s| ==> s[j] != s[k]
  }

  predicate OwnDistinct(i: Instance) {
    && NoDup(i.draining)
    && (i.pipeline.Building? || i.pipeline.Probing? ==>
          i.pipeline.gen !in i.draining && !IsServing(i, i.pipeline.gen))
    && (i.serving.Some? ==> i.serving.value.gen !in i.draining)
  }

  predicate InstanceOk(i: Instance) {
    && (i.pending.Some? ==> i.pipeline.Building? || i.pipeline.Probing?)
    && (i.needsRespawn ==> i.serving.None? && i.lastGreen.Some?)
    && (i.serving.Some? ==> i.lastGreen == Some(i.serving.value.sha))
    && (i.pipeline.Probing? && i.pipeline.respawn ==>
          i.serving.None? && i.lastGreen == Some(i.pipeline.sha) && !i.needsRespawn)
    && i.indeterminateStreak <= 1
    && i.enospcStreak <= ENOSPC_RETRY_CAP
    && i.respawnStreak <= RESPAWN_RETRY_CAP
  }

  // ------------------------------------------------------------ the daemon

  predicate QueueOk(d: Daemon) {
    && NoDup(d.queue)
    && (forall n :: n in d.queue ==> n in d.instances && d.instances[n].pipeline.Queued?)
    && (forall n :: n in d.instances && d.instances[n].pipeline.Queued? ==> n in d.queue)
  }

  predicate BuildingOk(d: Daemon) {
    && (forall n :: n in d.building ==> n in d.instances && d.instances[n].pipeline.Building?)
    && (forall n :: n in d.instances && d.instances[n].pipeline.Building? ==> n in d.building)
    && |d.building| <= d.maxConcurrent
    && 1 <= d.maxConcurrent
  }

  ghost predicate GensOk(d: Daemon) {
    && (forall n :: n in d.instances ==> OwnDistinct(d.instances[n]))
    && (forall n, g: Gen :: n in d.instances && Owns(d.instances[n], g) ==> g < d.nextGen)
    && (forall m, n, g: Gen ::
          m in d.instances && n in d.instances && Owns(d.instances[m], g) && Owns(d.instances[n], g) ==> m == n)
  }

  ghost predicate Inv(d: Daemon) {
    && QueueOk(d)
    && BuildingOk(d)
    && GensOk(d)
    && (forall n :: n in d.instances ==> InstanceOk(d.instances[n]))
  }

  /** No slot idles while an instance waits. */
  predicate WorkConserving(d: Daemon) {
    d.queue != [] ==> |d.building| == d.maxConcurrent
  }

  // ------------------------------------------------------------ sequences

  lemma {:induction false} WithoutIs<T>(s: seq<T>, x: T)
    ensures x !in Without(s, x)
    ensures forall y :: y != x ==> (y in Without(s, x) <==> y in s)
    ensures NoDup(s) ==> NoDup(Without(s, x))
    ensures x !in s ==> Without(s, x) == s
    ensures |Without(s, x)| <= |s|
    ensures x in s ==> |Without(s, x)| < |s|
  {
    if s != [] {
      WithoutIs(s[1..], x);
      assert s == [s[0]] + s[1..];
      if NoDup(s) {
        assert forall k :: 0 <= k < |s| - 1 ==> s[1..][k] == s[k + 1] != s[0];
        assert NoDup(s[1..]);
        var rest := Without(s[1..], x);
        assert forall k :: 0 <= k < |rest| ==> rest[k] in rest;
        assert s[0] != x ==> s[0] !in rest;
      }
    }
  }

  lemma AddedOnce<T>(s: set<T>, x: T)
    ensures |s + {x}| <= |s| + 1
    ensures x !in s ==> |s + {x}| == |s| + 1
    ensures |s - {x}| <= |s|
    ensures x in s ==> |s - {x}| == |s| - 1
  {
    if x in s {
      assert s + {x} == s;
      assert s == (s - {x}) + {x};
    } else {
      assert s - {x} == s;
    }
  }

  // ------------------------------------------------------------ local steps

  /** What one event may do to one instance, seen from the daemon: it stays
      well formed, keeps its generations apart, answers for no generation it did
      not already own or has just been allocated, never starts a build itself,
      speaks only for itself, and neither frees a slot nor joins the queue
      without slots being handed out next. */
  ghost predicate Kept(i: Instance, n: Name, gen: Gen, l: Local) {
    && InstanceOk(l.inst) && OwnDistinct(l.inst)
    && gen <= l.gen
    && (forall g: Gen :: Owns(l.inst, g) ==> Owns(i, g) || gen <= g < l.gen)
    && (l.inst.pipeline.Building? ==> l.inst.pipeline == i.pipeline)
    && (!l.dispatch ==> (i.pipeline.Building? ==> l.inst.pipeline.Building?)
                        && (l.inst.pipeline.Queued? ==> i.pipeline.Queued?))
    && (forall a :: a in l.acts ==> a.name == n && !a.StartBuild?)
  }

  ghost predicate Ready(i: Instance, gen: Gen) {
    && InstanceOk(i) && OwnDistinct(i)
    && (forall g: Gen :: Owns(i, g) ==> g < gen)
  }

  /** The same for a move, whose instance may be idle with a pending sha. */
  ghost predicate MoveKept(i: Instance, n: Name, m: Move) {
    && InstanceOk(if m.Stay? then m.inst else m.inst.(pending := None)) && OwnDistinct(m.inst)
    && (!m.Stay? ==> m.inst.pipeline.Idle?)
    && (m.Boot? ==> !i.pipeline.Building? && RespawnDue(m.inst))
    && (forall g: Gen :: Owns(m.inst, g) ==> Owns(i, g))
    && (m.inst.pipeline.Building? ==> m.inst.pipeline == i.pipeline)
    && (m.Stay? && !m.dispatch ==> (i.pipeline.Building? ==> m.inst.pipeline.Building?)
                                   && (m.inst.pipeline.Queued? ==> i.pipeline.Queued?))
    && (forall a :: a in m.acts ==> a.name == n && !a.StartBuild?)
  }

  /** Giving up the in-flight activity, keeping serving and draining. */
  predicate Released(i: Instance, j: Instance) {
    && j.serving == i.serving && j.draining == i.draining
    && (j.pipeline.Idle? || j.pipeline.Queued?)
  }

  lemma ReleasedOwns(i: Instance, j: Instance)
    requires Released(i, j)
    ensures forall g: Gen :: Owns(j, g) ==> Owns(i, g)
    ensures OwnDistinct(i) ==> OwnDistinct(j)
  {
  }

  lemma RedBuildKeeps(i: Instance, n: Name, reason: string, enospc: bool, files: seq<string>)
    requires InstanceOk(i) && OwnDistinct(i) && i.pipeline.Building?
    ensures MoveKept(i, n, OnRedBuild(i, n, i.pipeline.sha, reason, enospc, files))
  {
    ReleasedOwns(i, OnRedBuild(i, n, i.pipeline.sha, reason, enospc, files).inst);
  }

  lemma UntrustedKeeps(i: Instance, n: Name, reason: string)
    requires InstanceOk(i) && OwnDistinct(i) && i.pipeline.Building?
    ensures MoveKept(i, n, OnUntrusted(i, n, i.pipeline.sha, reason))
  {
    ReleasedOwns(i, OnUntrusted(i, n, i.pipeline.sha, reason).inst);
  }

  lemma BuiltKeeps(i: Instance, n: Name, g: Gen, outcome: Outcome)
    requires InstanceOk(i) && OwnDistinct(i) && BuildAccepted(i, g)
    ensures MoveKept(i, n, OnBuilt(i, n, i.pipeline.sha, g, outcome))
  {
    match outcome
    case Green =>
    case Failed(reason, enospc, files) => RedBuildKeeps(i, n, reason, enospc, files);
    case Indeterminate(reason) => UntrustedKeeps(i, n, reason);
  }

  lemma ProbeFailureKeeps(i: Instance, n: Name, g: Gen, reason: string)
    requires InstanceOk(i) && OwnDistinct(i) && ProbeAccepted(i, g)
    ensures MoveKept(i, n, OnProbeFailure(i, n, g, reason))
  {
    ReleasedOwns(i, OnProbeFailure(i, n, g, reason).inst);
  }

  lemma ProbedKeeps(i: Instance, n: Name, g: Gen)
    requires InstanceOk(i) && OwnDistinct(i) && ProbeAccepted(i, g)
    ensures MoveKept(i, n, OnProbed(i, n, g))
  {
    assert forall k :: 0 <= k < |i.draining| ==> i.draining[k] in i.draining;
  }

  lemma DecideKeeps(i: Instance, n: Name, e: Event)
    requires InstanceOk(i) && OwnDistinct(i)
    ensures MoveKept(i, n, Decide(i, n, e))
  {
    match e
    case BuildFinished(g, outcome) =>
      if BuildAccepted(i, g) { BuiltKeeps(i, n, g, outcome); }
    case ProbeSucceeded(g) =>
      if ProbeAccepted(i, g) { ProbedKeeps(i, n, g); }
    case ProbeFailed(g, reason) =>
      if ProbeAccepted(i, g) { ProbeFailureKeeps(i, n, g, reason); }
    case DrainComplete(g) => WithoutIs(i.draining, g);
    case _ =>
  }

  lemma PerformKeeps(i: Instance, n: Name, m: Move, gen: Gen)
    requires Ready(i, gen) && MoveKept(i, n, m)
    ensures Kept(i, n, gen, Perform(m, n, gen))
  {
    assert !Owns(i, gen);
  }

  lemma LocalStepKeeps(i: Instance, n: Name, e: Event, gen: Gen)
    requires Ready(i, gen)
    ensures Kept(i, n, gen, LocalStep(i, n, e, gen))
  {
    DecideKeeps(i, n, e);
    PerformKeeps(i, n, Decide(i, n, e), gen);
  }

  // ------------------------------------------------------------ one instance replaced

  lemma ReplacedGens(d: Daemon, n: Name, i: Instance, gen: Gen, d1: Daemon)
    requires GensOk(d) && n in d.instances
    requires d1.instances == d.instances[n := i] && d1.nextGen == gen && d.nextGen <= gen
    requires OwnDistinct(i)
    requires forall g: Gen :: Owns(i, g) ==> Owns(d.instances[n], g) || d.nextGen <= g < gen
    ensures GensOk(d1)
  {
    forall m, k, g: Gen | m in d1.instances && k in d1.instances && Owns(d1.instances[m], g) && Owns(d1.instances[k], g)
      ensures m == k
    {
      assert m != n ==> Owns(d.instances[m], g);
      assert k != n ==> Owns(d.instances[k], g);
    }
  }

  lemma ReplacedQueue(d: Daemon, n: Name, i: Instance, d1: Daemon)
    requires QueueOk(d) && n in d.instances
    requires d1.instances == d.instances[n := i]
    requires NoDup(d1.queue)
    requires forall m :: m != n ==> (m in d1.queue <==> m in d.queue)
    requires n in d1.queue <==> i.pipeline.Queued?
    ensures QueueOk(d1)
  {
  }

  lemma ReplacedBuilding(d: Daemon, n: Name, i: Instance, d1: Daemon)
    requires BuildingOk(d) && n in d.instances
    requires d1.instances == d.instances[n := i]
    requires forall m :: m != n ==> (m in d1.building <==> m in d.building)
    requires n in d1.building <==> i.pipeline.Building?
    requires |d1.building| <= d1.maxConcurrent == d.maxConcurrent
    ensures BuildingOk(d1)
  {
  }

  lemma InstallKeeps(d: Daemon, n: Name, e: Event)
    requires Inv(d) && n in d.instances
    ensures Inv(Install(d, n, LocalStep(d.instances[n], n, e, d.nextGen)))
  {
    var i := d.instances[n];
    var l := LocalStep(i, n, e, d.nextGen);
    var d1 := Install(d, n, l);
    LocalStepKeeps(i, n, e, d.nextGen);
    WithoutIs(d.queue, n);
    AddedOnce(d.building, n);
    ReplacedQueue(d, n, l.inst, d1);
    ReplacedBuilding(d, n, l.inst, d1);
    ReplacedGens(d, n, l.inst, l.gen, d1);
  }

  lemma InstallConserves(d: Daemon, n: Name, e: Event)
    requires Inv(d) && WorkConserving(d) && n in d.instances
    ensures
      var l := LocalStep(d.instances[n], n, e, d.nextGen);
      l.dispatch || WorkConserving(Install(d, n, l))
  {
    LocalStepKeeps(d.instances[n], n, e, d.nextGen);
    var l := LocalStep(d.instances[n], n, e, d.nextGen);
    if !l.dispatch {
      var d1 := Install(d, n, l);
      WithoutIs(d.queue, n);
      assert d1.queue != [] ==> d.queue != [] by {
        if d1.queue != [] { assert d1.queue[0] in d1.queue; }
      }
      assert d1.building == d.building;
    }
  }

  // ------------------------------------------------------------ dispatch

  /** The source's `unreachable!` and `expect`: neither can fire. */
  lemma QueueHeadIsQueued(d: Daemon)
    requires Inv(d)
    ensures d.queue != [] ==> HeadDispatchable(d)
  {
    if d.queue != [] { assert d.queue[0] in d.queue; }
  }

  lemma DispatchedKeeps(d: Daemon)
    requires Inv(d) && SlotFree(d) && HeadDispatchable(d)
    ensures Inv(Dispatched(d).0)
  {
    var n := d.queue[0];
    var d1 := Dispatched(d).0;
    var i := d1.instances[n];
    AddedOnce(d.building, n);
    assert d.queue == [n] + d.queue[1..];
    assert n !in d.queue[1..];
    ReplacedQueue(d, n, i, d1);
    ReplacedBuilding(d, n, i, d1);
    assert forall g: Gen :: Owns(i, g) ==> Owns(d.instances[n], g) || g == d.nextGen;
    assert !Owns(d.instances[n], d.nextGen);
    ReplacedGens(d, n, i, d1.nextGen, d1);
  }

  /** Dispatch keeps the invariant, leaves no slot idle while an instance
      waits, and stops for no other reason. */
  lemma {:induction false} DispatchKeeps(d: Daemon)
    requires Inv(d)
    ensures Inv(Dispatch(d).0) && WorkConserving(Dispatch(d).0) && !SlotFree(Dispatch(d).0)
    decreases |d.queue|
  {
    QueueHeadIsQueued(d);
    if SlotFree(d) {
      DispatchedKeeps(d);
      DispatchKeeps(Dispatched(d).0);
    }
  }

  // ------------------------------------------------------------ steps and runs

  lemma StepKeeps(d: Daemon, n: Name, e: Event)
    requires Inv(d)
    ensures Inv(Step(d, n, e).0)
    ensures WorkConserving(d) ==> WorkConserving(Step(d, n, e).0)
  {
    if n in d.instances {
      InstallKeeps(d, n, e);
      var l := LocalStep(d.instances[n], n, e, d.nextGen);
      if l.dispatch {
        DispatchKeeps(Install(d, n, l));
      } else if WorkConserving(d) {
        InstallConserves(d, n, e);
      }
    }
  }

  lemma AddedKeeps(d: Daemon, n: Name)
    requires Inv(d)
    ensures Inv(Added(d, n))
    ensures WorkConserving(d) ==> WorkConserving(Added(d, n))
  {
    var d1 := Added(d, n);
    assert forall g: Gen :: !Owns(Fresh, g);
  }

  /** Removal keeps the invariant, and keeps slots busy exactly when it did not
      take a builder away from under a waiting instance. */
  lemma RemovedKeeps(d: Daemon, n: Name)
    requires Inv(d)
    ensures Inv(Removed(d, n))
    ensures WorkConserving(d) ==>
              (WorkConserving(Removed(d, n)) <==> !(n in d.building && d.queue != []))
  {
    var d1 := Removed(d, n);
    WithoutIs(d.queue, n);
    AddedOnce(d.building, n);
    assert forall m :: m in d1.instances ==> m in d.instances && d1.instances[m] == d.instances[m];
    if n !in d.building { assert d.building - {n} == d.building; }
    if n in d.building {
      assert d.instances[n].pipeline.Building?;
      assert n !in d.queue;
    }
  }

  lemma NewKeeps(names: set<Name>, maxConcurrent: nat)
    ensures Inv(New(names, maxConcurrent)) && WorkConserving(New(names, maxConcurrent))
  {
  }

  datatype Input = Observe(name: Name, event: Event) | Add(name: Name) | Remove(name: Name)

  /** One input to the daemon and the actions it answers with. */
  function Advance(d: Daemon, x: Input): (Daemon, seq<Action>) {
    match x
    case Observe(n, e) => Step(d, n, e)
    case Add(n) => (Added(d, n), [])
    case Remove(n) => (Removed(d, n), [])
  }

  function After(d: Daemon, xs: seq<Input>): Daemon {
    if xs == [] then d else Advance(After(d, xs[..|xs| - 1]), xs[|xs| - 1]).0
  }

  /** No removal in the run took a builder away while another instance waited. */
  predicate RemovalsSpareBuilders(d: Daemon, xs: seq<Input>) {
    forall k :: 0 <= k < |xs| && xs[k].Remove? ==>
      !(xs[k].name in After(d, xs[..k]).building && After(d, xs[..k]).queue != [])
  }

  /** Every reachable state of the daemon satisfies the invariant, and keeps its
      slots busy unless a builder was removed from under a waiting instance. */
  lemma {:induction false} RunKeepsInvariant(names: set<Name>, maxConcurrent: nat, xs: seq<Input>)
    ensures Inv(After(New(names, maxConcurrent), xs))
    ensures RemovalsSpareBuilders(New(names, maxConcurrent), xs) ==>
              WorkConserving(After(New(names, maxConcurrent), xs))
    decreases |xs|
  {
    var d0 := New(names, maxConcurrent);
    NewKeeps(names, maxConcurrent);
    if xs != [] {
      var front, x := xs[..|xs| - 1], xs[|xs| - 1];
      RunKeepsInvariant(names, maxConcurrent, front);
      assert forall k :: 0 <= k < |front| ==> front[..k] == xs[..k];
      match x
      case Observe(n, e) => StepKeeps(After(d0, front), n, e);
      case Add(n) => AddedKeeps(After(d0, front), n);
      case Remove(n) => RemovedKeeps(After(d0, front), n);
    }
  }

  lemma {:induction false} DispatchKeepsSlots(d: Daemon)
    ensures Dispatch(d).0.maxConcurrent == d.maxConcurrent
    decreases |d.queue|
  {
    if SlotFree(d) && HeadDispatchable(d) { DispatchKeepsSlots(Dispatched(d).0); }
  }

  lemma StepKeepsSlots(d: Daemon, n: Name, e: Event)
    ensures Step(d, n, e).0.maxConcurrent == d.maxConcurrent
  {
    if n in d.instances {
      var d1 := Install(d, n, LocalStep(d.instances[n], n, e, d.nextGen));
      hide LocalStep, Dispatch;
      DispatchKeepsSlots(d1);
    }
  }

  /** So in every run the number of builds at a time is bounded by the number asked
      for, one if none was; and that many run whenever an instance waits, unless a
      builder was removed from under a waiting instance. */
  lemma {:induction false} RunFillsSlots(names: set<Name>, maxConcurrent: nat, xs: seq<Input>)
    ensures
      var d := After(New(names, maxConcurrent), xs);
      var slots := if maxConcurrent == 0 then 1 else maxConcurrent;
      && d.maxConcurrent == slots && |d.building| <= slots
      && (RemovalsSpareBuilders(New(names, maxConcurrent), xs) && d.queue != [] ==> |d.building| == slots)
    decreases |xs|
  {
    hide Inv, Step;
    RunKeepsInvariant(names, maxConcurrent, xs);
    var d0 := New(names, maxConcurrent);
    if xs != [] {
      var front, x := xs[..|xs| - 1], xs[|xs| - 1];
      RunFillsSlots(names, maxConcurrent, front);
      if x.Observe? { StepKeepsSlots(After(d0, front), x.name, x.event); }
    }
    assert BuildingOk(After(d0, xs)) by { InvBuilds(After(d0, xs)); }
  }

  lemma InvBuilds(d: Daemon)
    requires Inv(d)
    ensures BuildingOk(d)
  {
  }
}
