/**
 * Who had a port when, over every run of the driver: a port is handed to a child
 * only after the child that had it before was told to stop.
 */
module AppFleetPorts {
  import opened Wrappers
  import opened AppModel
  import opened AppInvariant
  import opened PortRange
  import opened AppFleet
  import opened AppFleetRuns
  import opened AppFleetTheorems
  import opened AppFleetLedger

  predicate Spawns(effects: seq<Effect>, k: nat) { k < |effects| && effects[k].ChildSpawned? }

  /** Position `k` stops the very child that position `a` spawned. */
  predicate StopsIt(effects: seq<Effect>, k: nat, a: nat) {
    && Spawns(effects, a) && k < |effects| && effects[k].ChildStopped?
    && effects[k].name == effects[a].name && effects[k].gen == effects[a].gen && effects[k].token == effects[a].token
  }

  /** Between two children on one port the first is told to stop. */
  ghost predicate InTurn(effects: seq<Effect>, a: nat, b: nat) {
    Spawns(effects, a) && Spawns(effects, b) && effects[a].port == effects[b].port ==>
      exists k: nat :: a < k < b && StopsIt(effects, k, a)
  }

  predicate SameChild(effects: seq<Effect>, a: nat, b: nat) {
    Spawns(effects, a) && Spawns(effects, b) && effects[a].name == effects[b].name && effects[a].gen == effects[b].gen
  }

  ghost predicate FollowsSpawn(effects: seq<Effect>, k: nat) {
    k < |effects| && effects[k].ChildStopped? ==> exists a: nat :: a < k && StopsIt(effects, k, a)
  }

  ghost predicate InOrder(effects: seq<Effect>) {
    && (forall a: nat, b: nat :: a < b < |effects| ==> InTurn(effects, a, b))
    && (forall a: nat, b: nat :: a < b < |effects| ==> !SameChild(effects, a, b))
    && (forall k: nat :: k < |effects| ==> FollowsSpawn(effects, k))
  }

  // ------------------------------------------------------------ one effect

  lemma Earlier(effects: seq<Effect>, ef: Effect, a: nat, b: nat)
    requires a <= b < |effects|
    ensures InTurn(effects, a, b) ==> InTurn(effects + [ef], a, b)
    ensures SameChild(effects + [ef], a, b) <==> SameChild(effects, a, b)
    ensures FollowsSpawn(effects, b) ==> FollowsSpawn(effects + [ef], b)
  {
    assert forall k: nat, c: nat :: k < |effects| && StopsIt(effects, k, c) ==> StopsIt(effects + [ef], k, c);
  }

  lemma OneMore(effects: seq<Effect>, ef: Effect)
    requires InOrder(effects)
    requires FollowsSpawn(effects + [ef], |effects|)
    requires forall a: nat :: a < |effects| ==>
               InTurn(effects + [ef], a, |effects|) && !SameChild(effects + [ef], a, |effects|)
    ensures InOrder(effects + [ef])
  {
    hide InTurn, SameChild, FollowsSpawn;
    var more := effects + [ef];
    forall b: nat | b < |more| ensures FollowsSpawn(more, b) {
      if b < |effects| { Earlier(effects, ef, b, b); }
    }
    forall a: nat, b: nat | a < b < |more| ensures InTurn(more, a, b) && !SameChild(more, a, b) {
      if b < |effects| { Earlier(effects, ef, a, b); }
    }
  }

  lemma QuietOrder(effects: seq<Effect>, ef: Effect)
    requires InOrder(effects) && !ef.ChildSpawned? && !ef.ChildStopped?
    ensures InOrder(effects + [ef])
  {
    hide InOrder;
    OneMore(effects, ef);
  }

  lemma SpawnedWhere(effects: seq<Effect>, n: Name, g: Gen, c: Child) returns (a: nat)
    requires Spawned(effects, n, g, c)
    ensures a < |effects| && effects[a] == ChildSpawned(n, c.sha, g, c.port, c.token)
  {
    a :| 0 <= a < |effects| && effects[a] == ChildSpawned(n, c.sha, g, c.port, c.token);
  }

  lemma StopOrder(p: Plant, n: Name, g: Gen, drain: bool)
    requires Ledger(p) && InOrder(p.effects)
    ensures InOrder(StoppedChild(p, n, g, drain).effects)
  {
    hide InOrder, Returned;
    if Tracks(p, n, g) {
      var c := p.runtimes[n].children[g];
      var ef := ChildStopped(n, g, c.token, drain);
      assert TracksAs(p, n, g, c);
      var a := SpawnedWhere(p.effects, n, g, c);
      assert StopsIt(p.effects + [ef], |p.effects|, a);
      OneMore(p.effects, ef);
    }
  }

  lemma TrackedHolds(p: Plant, n: Name, g: Gen, c: Child)
    ensures TracksAs(p, n, g, c) ==> c.port in Held(p.runtimes)
  {
    HeldIs(p.runtimes, c.port);
    if TracksAs(p, n, g, c) { assert Holds(p.runtimes, n, g, c.port); }
  }

  lemma SpawnedOnce(effects: seq<Effect>, a: nat, b: nat)
    requires InOrder(effects) && a < |effects| && b < |effects|
    ensures SameChild(effects, a, b) ==> a == b
  {
    hide InTurn, FollowsSpawn;
    assert SameChild(effects, a, b) <==> SameChild(effects, b, a);
  }

  /** Whoever had the port that is handed out now was told to stop. */
  lemma FreedByStop(p: Plant, start: Port, q: Port, a: nat)
    requires Ledger(p) && InOrder(p.effects) && q !in Held(p.runtimes)
    requires Spawns(p.effects, a) && p.effects[a].port == q
    ensures exists k: nat :: a < k < |p.effects| && StopsIt(p.effects, k, a)
  {
    hide ProbeBegan, InTurn;
    var s := p.effects[a];
    var c := Child(s.port, s.token, s.sha);
    assert Spawned(p.effects, s.name, s.gen, c);
    TrackedHolds(p, s.name, s.gen, c);
    var drain :| Stopped(p.effects, s.name, s.gen, c.token, drain);
    var k: nat :| k < |p.effects| && p.effects[k] == ChildStopped(s.name, s.gen, c.token, drain);
    assert FollowsSpawn(p.effects, k);
    var b: nat :| b < k && StopsIt(p.effects, k, b);
    SpawnedOnce(p.effects, a, b);
    assert StopsIt(p.effects, k, a);
  }

  lemma SpawnOrder(p: Plant, start: Port, n: Name, sha: Sha, g: Gen, boots: Boots)
    requires Ledger(p) && InOrder(p.effects) && PortsOk(p, start) && !ProbeBegan(p.effects, n, g)
    ensures InOrder(SpawnedAndProbed(p, n, sha, g, boots).effects)
  {
    if Starts(p, n, g, boots) {
      AllocSoundIff(p.ports, start, Held(p.runtimes));
      var port := Allocated(p.ports).1.value;
      hide Allocated, Returned, InOrder, Partition, OnePortEach;
      var e1, e2 := ChildSpawned(n, sha, g, port, boots(g).value), ProbeStarted(n, g, port);
      StartOrder(p, start, n, g, e1);
      QuietOrder(p.effects + [e1], e2);
      assert (p.effects + [e1]) + [e2] == p.effects + [e1, e2];
    } else {
      hide Allocated, Returned, InOrder;
      var q := SpawnedAndProbed(p, n, sha, g, boots);
      if q.effects != p.effects {
        assert q.effects == p.effects + [q.effects[|p.effects|]];
        QuietOrder(p.effects, q.effects[|p.effects|]);
      }
    }
  }

  lemma StartOrder(p: Plant, start: Port, n: Name, g: Gen, ef: Effect)
    requires Ledger(p) && InOrder(p.effects) && !ProbeBegan(p.effects, n, g)
    requires ef.ChildSpawned? && ef.name == n && ef.gen == g && ef.port !in Held(p.runtimes)
    ensures InOrder(p.effects + [ef])
  {
    var more := p.effects + [ef];
    forall a: nat | a < |p.effects| ensures InTurn(more, a, |p.effects|) && !SameChild(more, a, |p.effects|) {
      hide Ledger, InOrder;
      if Spawns(p.effects, a) {
        if p.effects[a].port == ef.port {
          FreedByStop(p, start, ef.port, a);
          var k: nat :| a < k < |p.effects| && StopsIt(p.effects, k, a);
          assert StopsIt(more, k, a);
        }
        StartedBefore(p, a);
      }
    }
    hide InOrder, Ledger;
    OneMore(p.effects, ef);
  }

  lemma StartedBefore(p: Plant, a: nat)
    requires Ledger(p) && Spawns(p.effects, a)
    ensures ProbeBegan(p.effects, p.effects[a].name, p.effects[a].gen)
  {
    hide ProbeBegan;
    var s := p.effects[a];
    assert Spawned(p.effects, s.name, s.gen, Child(s.port, s.token, s.sha));
  }

  // ------------------------------------------------------------ one action

  ghost predicate Kept(p: Plant, start: Port) {
    Ledger(p) && PortsOk(p, start) && InOrder(p.effects)
  }

  lemma TrackedBegan(p: Plant, n: Name, g: Gen)
    requires Ledger(p)
    ensures Tracks(p, n, g) ==> ProbeBegan(p.effects, n, g)
  {
    hide ProbeBegan;
    if Tracks(p, n, g) { assert TracksAs(p, n, g, p.runtimes[n].children[g]); }
  }

  lemma ExecutedKeeps(p: Plant, start: Port, a: Action, boots: Boots)
    requires Kept(p, start) && (IsSpawn(a) ==> !ProbeBegan(p.effects, a.name, a.gen))
    ensures Kept(Executed(p, a, boots), start)
  {
    hide Ledger, ProbeBegan, PortsOk, InOrder, SpawnedAndProbed, StoppedChild;
    ExecutedKeepsLedger(p, a, boots);
    match a
    case StartBuild(n, sha, g) =>
      if n in p.runtimes {
        QuietOrder(p.effects, BuildStarted(n, sha, g));
        EffectsAside(p, start, BuildStarted(n, sha, g));
      }
    case SpawnAndProbe(n, sha, g) =>
      TrackedBegan(p, n, g);
      SpawnKeepsPorts(p, start, n, sha, g, boots);
      SpawnOrder(p, start, n, sha, g, boots);
    case Respawn(n, sha, g) =>
      TrackedBegan(p, n, g);
      SpawnKeepsPorts(p, start, n, sha, g, boots);
      SpawnOrder(p, start, n, sha, g, boots);
    case Promote(n, _, g) => if Tracks(p, n, g) { PromoteKeepsPorts(p, start, n, g); }
    case StartDrain(n, g) => StopKeepsPorts(p, start, n, g, true); StopOrder(p, n, g, true);
    case KillStandby(n, g) => StopKeepsPorts(p, start, n, g, false); StopOrder(p, n, g, false);
    case RecordRed(_, _, _) =>
  }

  lemma EffectsAside(p: Plant, start: Port, ef: Effect)
    requires PortsOk(p, start)
    ensures PortsOk(p.(effects := p.effects + [ef]), start)
  {
  }

  lemma {:induction false} AllKept(p: Plant, start: Port, acts: seq<Action>, boots: Boots)
    requires Kept(p, start) && SpawnsOnce(p, acts)
    ensures Kept(ExecutedAll(p, acts, boots), start)
    decreases |acts|
  {
    hide Kept, ProbeBegan, Executed;
    if acts != [] {
      var front, a := acts[..|acts| - 1], acts[|acts| - 1];
      AllKept(p, start, front, boots);
      if IsSpawn(a) {
        forall b | b in front ensures !IsSpawn(b) {
          var k :| 0 <= k < |front| && front[k] == b;
          assert acts[k] == b;
        }
        NothingBegins(p, front, boots);
      }
      ExecutedKeeps(ExecutedAll(p, front, boots), start, a, boots);
    }
  }

  // ------------------------------------------------------------ every run

  lemma DrivenKeepsOrder(f: Fleet, start: Port, n: Name, e: Event, boots: Boots)
    requires FleetOk(f, start) && Kept(f.plant, start)
    ensures InOrder(Driven(f, n, e, boots).plant.effects)
  {
    hide FleetOk, Kept, LocalStep, Dispatch, ExecutedAll, SpawnsOnce, InOrder;
    if n !in f.daemon.instances {
      NothingToDo(f.plant, boots);
    } else {
      var l := LocalStep(f.daemon.instances[n], n, e, f.daemon.nextGen);
      NewToLauncher(f, start, n, e);
      if l.dispatch {
        DispatchStarts(Install(f.daemon, n, l));
        StartsSpawnNothing(l.acts, Dispatch(Install(f.daemon, n, l)).1, f.plant);
      }
      AllKept(f.plant, start, Step(f.daemon, n, e).1, boots);
    }
    KeptInOrder(Driven(f, n, e, boots).plant, start);
    KeptInOrder(f.plant, start);
  }

  lemma KeptInOrder(p: Plant, start: Port)
    ensures Kept(p, start) ==> InOrder(p.effects)
  {
  }

  lemma {:induction false} AllStoppedKeepsOrder(p: Plant, n: Name)
    requires Ledger(p) && InOrder(p.effects)
    ensures InOrder(AllStopped(p, n).effects)
    decreases if n in p.runtimes then |p.runtimes[n].children| else 0
  {
    hide Ledger, InOrder;
    if n in p.runtimes && p.runtimes[n].children.Keys != {} {
      var g := First(p.runtimes[n].children.Keys);
      var p1 := StoppedChild(p, n, g, false);
      assert p1.runtimes[n].children.Keys == p.runtimes[n].children.Keys - {g};
      StopKeepsLedger(p, n, g, false);
      StopOrder(p, n, g, false);
      AllStoppedKeepsOrder(p1, n);
      assert AllStopped(p, n) == AllStopped(p1, n);
    }
  }

  lemma TurnKeepsOrder(f: Fleet, start: Port, t: Turn)
    requires FleetOk(f, start) && Ledger(f.plant) && InOrder(f.plant.effects)
    ensures InOrder(Turned(f, t).plant.effects)
  {
    assert PortsOk(f.plant, start);
    hide FleetOk, Ledger, Driven, AllStopped, InOrder, PortsOk;
    match t
    case Drive(n, e, boots) => DrivenKeepsOrder(f, start, n, e, boots);
    case Reclaim(n, g) =>
    case Join(n) =>
    case Leave(n) => AllStoppedKeepsOrder(f.plant, n);
  }

  /** Over every run, in positions of the effects: of two children on one port the
      first was told to stop, with its own token, after it was spawned and before the
      second was; no generation is spawned twice; and nothing is stopped that was not
      spawned before. */
  lemma {:induction false} PortsGoInTurn(
      names: set<Name>, maxConcurrent: nat, start: Port, end: Port, ts: seq<Turn>)
    requires start <= end + 1 && end < U16_MAX
    requires AllAllowed(NewFleet(names, maxConcurrent, start, end), ts)
    ensures InOrder(AfterTurns(NewFleet(names, maxConcurrent, start, end), ts).plant.effects)
    decreases |ts|
  {
    hide FleetOk, Ledger, Turned, Allowed, NewFleet, InOrder;
    var f0 := NewFleet(names, maxConcurrent, start, end);
    if ts == [] {
      NewInOrder(names, maxConcurrent, start, end);
    } else {
      var front := ts[..|ts| - 1];
      assert forall k :: 0 <= k < |front| ==> front[..k] == ts[..k] && front[k] == ts[k];
      PortsGoInTurn(names, maxConcurrent, start, end, front);
      LedgerHolds(names, maxConcurrent, start, end, front);
      NewFleetOk(names, maxConcurrent, start, end);
      TurnsKeepFleet(f0, start, front);
      TurnKeepsOrder(AfterTurns(f0, front), start, ts[|ts| - 1]);
    }
  }

  lemma NewInOrder(names: set<Name>, maxConcurrent: nat, start: Port, end: Port)
    ensures InOrder(NewFleet(names, maxConcurrent, start, end).plant.effects)
  {
  }
}
