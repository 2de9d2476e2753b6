/**
 * What the launcher was told, over every run of the driver: each child it started
 * is tracked with the token it returned, or was stopped with exactly that token.
 */
module AppFleetLedger {
  import opened Wrappers
  import opened AppModel
  import opened AppInvariant
  import opened PortRange
  import opened AppFleet
  import opened AppFleetRuns
  import opened AppFleetTheorems

  ghost predicate Spawned(effects: seq<Effect>, n: Name, g: Gen, c: Child) {
    ChildSpawned(n, c.sha, g, c.port, c.token) in effects
  }

  ghost predicate Stopped(effects: seq<Effect>, n: Name, g: Gen, token: nat, drain: bool) {
    ChildStopped(n, g, token, drain) in effects
  }

  predicate TracksAs(p: Plant, n: Name, g: Gen, c: Child) {
    Tracks(p, n, g) && p.runtimes[n].children[g] == c
  }

  /** A tracked child is one the launcher started, and one that was started is still
      tracked as it was started or was stopped with its own token; what was killed is
      no longer tracked; nothing else was stopped; a generation is started once; and
      a start and its probe go together. */
  ghost predicate Ledger(p: Plant) {
    && (forall n, g: Gen, c :: TracksAs(p, n, g, c) ==> Spawned(p.effects, n, g, c))
    && (forall n, g: Gen, c :: Spawned(p.effects, n, g, c) ==>
          TracksAs(p, n, g, c) || Stopped(p.effects, n, g, c.token, false) || Stopped(p.effects, n, g, c.token, true))
    && (forall n, g: Gen, token :: Stopped(p.effects, n, g, token, false) ==> !Tracks(p, n, g))
    && (forall n, g: Gen, token, drain :: Stopped(p.effects, n, g, token, drain) ==>
          exists c :: Spawned(p.effects, n, g, c) && c.token == token)
    && (forall n, g: Gen, c, d :: Spawned(p.effects, n, g, c) && Spawned(p.effects, n, g, d) ==> c == d)
    && (forall n, g: Gen, c :: Spawned(p.effects, n, g, c) ==> ProbeStarted(n, g, c.port) in p.effects)
    && (forall n, g: Gen, c :: Spawned(p.effects, n, g, c) ==> ProbeBegan(p.effects, n, g))
  }

  lemma MoreEffects(effects: seq<Effect>, more: seq<Effect>)
    ensures forall x :: x in effects + more <==> x in effects || x in more
  {
  }

  // ------------------------------------------------------------ one action

  lemma SpawnKeepsLedger(p: Plant, n: Name, sha: Sha, g: Gen, boots: Boots)
    requires Ledger(p) && !ProbeBegan(p.effects, n, g)
    ensures Ledger(SpawnedAndProbed(p, n, sha, g, boots))
  {
    hide Allocated, Returned;
    var q := SpawnedAndProbed(p, n, sha, g, boots);
    if Starts(p, n, g, boots) {
      var c := Child(Allocated(p.ports).1.value, boots(g).value, sha);
      StartKeepsLedger(p, q, n, g, c);
    } else if n in p.runtimes {
      var ef := q.effects[|p.effects|];
      assert q.effects == p.effects + [ef] && ef.Posted?;
      QuietEffect(p, q, ef);
    }
  }

  /** An effect that starts and stops nothing. */
  lemma QuietEffect(p: Plant, q: Plant, ef: Effect)
    requires Ledger(p) && q.runtimes == p.runtimes && q.effects == p.effects + [ef]
    requires !ef.ChildSpawned? && !ef.ChildStopped? && !ef.ProbeStarted?
    ensures Ledger(q)
  {
    MoreEffects(p.effects, [ef]);
    LoggedEffect(p.effects, ef);
    hide ProbeBegan;
    assert forall n, g: Gen, c :: Spawned(q.effects, n, g, c) <==> Spawned(p.effects, n, g, c);
    assert forall n, g: Gen, t, d :: Stopped(q.effects, n, g, t, d) <==> Stopped(p.effects, n, g, t, d);
    assert forall n, g: Gen, c :: TracksAs(q, n, g, c) <==> TracksAs(p, n, g, c);
  }

  lemma StartKeepsLedger(p: Plant, q: Plant, n: Name, g: Gen, c: Child)
    requires Ledger(p) && n in p.runtimes && !ProbeBegan(p.effects, n, g)
    requires q.runtimes == p.runtimes[n := Track(p.runtimes[n], g, c)]
    requires q.effects == p.effects + [ChildSpawned(n, c.sha, g, c.port, c.token), ProbeStarted(n, g, c.port)]
    ensures Ledger(q)
  {
    MoreEffects(p.effects, [ChildSpawned(n, c.sha, g, c.port, c.token), ProbeStarted(n, g, c.port)]);
    SpawnLogged(p.effects, n, c.sha, g, c.port, c.token);
    hide ProbeBegan;
    assert forall m, h: Gen, d :: Spawned(q.effects, m, h, d) <==>
             Spawned(p.effects, m, h, d) || (m == n && h == g && d == c);
    assert forall m, h: Gen, t, d :: Stopped(q.effects, m, h, t, d) <==> Stopped(p.effects, m, h, t, d);
    assert forall m, h: Gen, d :: TracksAs(q, m, h, d) <==>
             if m == n && h == g then d == c else TracksAs(p, m, h, d);
  }

  lemma StopKeepsLedger(p: Plant, n: Name, g: Gen, drain: bool)
    requires Ledger(p)
    ensures Ledger(StoppedChild(p, n, g, drain))
  {
    hide Returned;
    if Tracks(p, n, g) {
      var c := p.runtimes[n].children[g];
      var q := StoppedChild(p, n, g, drain);
      assert TracksAs(p, n, g, c);
      MoreEffects(p.effects, [ChildStopped(n, g, c.token, drain)]);
      LoggedEffect(p.effects, ChildStopped(n, g, c.token, drain));
      hide ProbeBegan;
      assert forall m, h: Gen, d :: Spawned(q.effects, m, h, d) <==> Spawned(p.effects, m, h, d);
      assert forall m, h: Gen, t, d :: Stopped(q.effects, m, h, t, d) <==>
               Stopped(p.effects, m, h, t, d) || (m == n && h == g && t == c.token && d == drain);
      assert forall m, h: Gen, d :: TracksAs(q, m, h, d) <==>
               TracksAs(p, m, h, d) && (drain || m != n || h != g);
    }
  }

  lemma PromoteKeepsLedger(p: Plant, n: Name, g: Gen)
    requires Ledger(p)
    ensures Ledger(Promoted(p, n, g))
  {
    assert forall m, h: Gen, d :: TracksAs(Promoted(p, n, g), m, h, d) <==> TracksAs(p, m, h, d);
    hide ProbeBegan;
  }

  lemma ExecutedKeepsLedger(p: Plant, a: Action, boots: Boots)
    requires Ledger(p) && (a.SpawnAndProbe? || a.Respawn? ==> !ProbeBegan(p.effects, a.name, a.gen))
    ensures Ledger(Executed(p, a, boots))
  {
    hide Ledger, ProbeBegan, SpawnedAndProbed, StoppedChild, Promoted;
    match a
    case StartBuild(n, sha, g) =>
      if n in p.runtimes { QuietEffect(p, Executed(p, a, boots), BuildStarted(n, sha, g)); }
    case SpawnAndProbe(n, sha, g) => SpawnKeepsLedger(p, n, sha, g, boots);
    case Respawn(n, sha, g) => SpawnKeepsLedger(p, n, sha, g, boots);
    case Promote(n, _, g) => PromoteKeepsLedger(p, n, g);
    case StartDrain(n, g) => StopKeepsLedger(p, n, g, true);
    case KillStandby(n, g) => StopKeepsLedger(p, n, g, false);
    case RecordRed(_, _, _) =>
  }

  // ------------------------------------------------------------ one event

  predicate IsSpawn(a: Action) { a.SpawnAndProbe? || a.Respawn? }

  /** At most one of these spawns, and what it spawns is new to the launcher. */
  ghost predicate SpawnsOnce(p: Plant, acts: seq<Action>) {
    && (forall k :: 0 <= k < |acts| && IsSpawn(acts[k]) ==> !ProbeBegan(p.effects, acts[k].name, acts[k].gen))
    && (forall j, k :: 0 <= j < k < |acts| && IsSpawn(acts[j]) ==> !IsSpawn(acts[k]))
  }

  lemma ExecutedBegins(p: Plant, a: Action, boots: Boots)
    requires !IsSpawn(a)
    ensures forall n, g: Gen :: ProbeBegan(Executed(p, a, boots).effects, n, g) <==> ProbeBegan(p.effects, n, g)
  {
    hide ProbeBegan, Drained, Returned;
    var q := Executed(p, a, boots);
    if q.effects != p.effects {
      var ef := q.effects[|p.effects|];
      assert q.effects == p.effects + [ef];
      LoggedEffect(p.effects, ef);
    }
  }

  lemma {:induction false} NothingBegins(p: Plant, acts: seq<Action>, boots: Boots)
    requires forall a :: a in acts ==> !IsSpawn(a)
    ensures forall n, g: Gen :: ProbeBegan(ExecutedAll(p, acts, boots).effects, n, g) <==> ProbeBegan(p.effects, n, g)
    decreases |acts|
  {
    hide ProbeBegan, Executed;
    if acts != [] {
      var front := acts[..|acts| - 1];
      NothingBegins(p, front, boots);
      ExecutedBegins(ExecutedAll(p, front, boots), acts[|acts| - 1], boots);
    }
  }

  lemma {:induction false} AllKeepLedger(p: Plant, acts: seq<Action>, boots: Boots)
    requires Ledger(p) && SpawnsOnce(p, acts)
    ensures Ledger(ExecutedAll(p, acts, boots))
    decreases |acts|
  {
    hide Ledger, ProbeBegan, Executed;
    if acts != [] {
      var front, a := acts[..|acts| - 1], acts[|acts| - 1];
      AllKeepLedger(p, front, boots);
      if IsSpawn(a) {
        forall b | b in front ensures !IsSpawn(b) {
          var k :| 0 <= k < |front| && front[k] == b;
          assert acts[k] == b;
        }
        NothingBegins(p, front, boots);
      }
      ExecutedKeepsLedger(ExecutedAll(p, front, boots), a, boots);
    }
  }

  lemma DecideSpawns(i: Instance, n: Name, e: Event)
    ensures
      var m := Decide(i, n, e);
      (exists k :: 0 <= k < |m.acts| && IsSpawn(m.acts[k])) ==>
        m.Stay? && |m.acts| == 1 && m.acts[0].name == n && BuildAccepted(i, m.acts[0].gen)
  {
    hide DiskFull, IndeterminateTwice, ProbeRed, RespawnRed, Requested;
  }

  /** The lifecycle spawns at most once an event: what it was building, or a fresh
      generation. */
  lemma SpawnsAre(i: Instance, n: Name, e: Event, gen: Gen)
    ensures
      var acts := LocalStep(i, n, e, gen).acts;
      && (forall k :: 0 <= k < |acts| && IsSpawn(acts[k]) ==>
            acts[k].name == n && (acts[k].gen == gen || BuildAccepted(i, acts[k].gen)))
      && (forall j, k :: 0 <= j < k < |acts| && IsSpawn(acts[j]) ==> !IsSpawn(acts[k]))
  {
    hide Decide, Requested;
    DecideSpawns(i, n, e);
    var m, acts := Decide(i, n, e), LocalStep(i, n, e, gen).acts;
    assert forall k :: 0 <= k < |m.acts| ==> acts[k] == m.acts[k];
  }

  lemma StartsSpawnNothing(acts: seq<Action>, starts: seq<Action>, p: Plant)
    requires SpawnsOnce(p, acts) && forall a :: a in starts ==> a.StartBuild?
    ensures SpawnsOnce(p, acts + starts)
  {
    var all := acts + starts;
    assert forall k :: 0 <= k < |acts| ==> all[k] == acts[k];
    assert forall k :: |acts| <= k < |all| ==> all[k] == starts[k - |acts|] && all[k] in starts;
    hide ProbeBegan;
  }

  lemma NewToLauncher(f: Fleet, start: Port, n: Name, e: Event)
    requires FleetOk(f, start) && n in f.daemon.instances
    ensures SpawnsOnce(f.plant, LocalStep(f.daemon.instances[n], n, e, f.daemon.nextGen).acts)
  {
    hide Inv, PortsOk, LocalStep, ProbeBegan, Drained;
    SpawnsAre(f.daemon.instances[n], n, e, f.daemon.nextGen);
  }

  lemma DrivenKeepsLedger(f: Fleet, start: Port, n: Name, e: Event, boots: Boots)
    requires FleetOk(f, start) && Ledger(f.plant)
    ensures Ledger(Driven(f, n, e, boots).plant)
  {
    hide FleetOk, Ledger, LocalStep, Dispatch, ExecutedAll, SpawnsOnce;
    if n !in f.daemon.instances {
      NothingToDo(f.plant, boots);
    } else {
      var l := LocalStep(f.daemon.instances[n], n, e, f.daemon.nextGen);
      NewToLauncher(f, start, n, e);
      if l.dispatch {
        DispatchStarts(Install(f.daemon, n, l));
        StartsSpawnNothing(l.acts, Dispatch(Install(f.daemon, n, l)).1, f.plant);
      }
      AllKeepLedger(f.plant, Step(f.daemon, n, e).1, boots);
    }
  }

  // ------------------------------------------------------------ every run

  lemma ReclaimKeepsLedger(p: Plant, n: Name, g: Gen)
    requires Ledger(p) && Drained(p.effects, n, g)
    ensures Ledger(Reclaimed(p, n, g))
  {
    hide Returned;
    if Tracks(p, n, g) {
      var c, q := p.runtimes[n].children[g], Reclaimed(p, n, g);
      assert TracksAs(p, n, g, c);
      var token :| ChildStopped(n, g, token, true) in p.effects;
      assert Stopped(p.effects, n, g, token, true);
      var d :| Spawned(p.effects, n, g, d) && d.token == token;
      assert d == c;
      assert forall m, h: Gen, x :: TracksAs(q, m, h, x) <==> TracksAs(p, m, h, x) && (m != n || h != g);
    }
  }

  lemma JoinKeepsLedger(p: Plant, n: Name)
    requires Ledger(p) && n !in p.runtimes
    ensures Ledger(p.(runtimes := p.runtimes[n := Empty]))
  {
    var q := p.(runtimes := p.runtimes[n := Empty]);
    assert forall m, h: Gen, x :: TracksAs(q, m, h, x) <==> TracksAs(p, m, h, x);
    hide ProbeBegan;
  }

  lemma {:induction false} AllStoppedKeepsLedger(p: Plant, n: Name)
    requires Ledger(p)
    ensures
      var q := AllStopped(p, n);
      Ledger(q) && (n in q.runtimes ==> q.runtimes[n].children == map[])
    decreases if n in p.runtimes then |p.runtimes[n].children| else 0
  {
    hide Ledger;
    if n in p.runtimes && p.runtimes[n].children.Keys != {} {
      var g := First(p.runtimes[n].children.Keys);
      var p1 := StoppedChild(p, n, g, false);
      assert p1.runtimes[n].children.Keys == p.runtimes[n].children.Keys - {g};
      StopKeepsLedger(p, n, g, false);
      AllStoppedKeepsLedger(p1, n);
      assert AllStopped(p, n) == AllStopped(p1, n);
    } else {
      assert n in p.runtimes ==> p.runtimes[n].children == map[];
    }
  }

  lemma LeaveKeepsLedger(f: Fleet, n: Name)
    requires Ledger(f.plant)
    ensures Ledger(Left(f, n).plant)
  {
    hide AllStopped;
    AllStoppedKeepsLedger(f.plant, n);
    var q := AllStopped(f.plant, n);
    assert forall m, h: Gen, x :: TracksAs(Left(f, n).plant, m, h, x) <==> TracksAs(q, m, h, x);
    hide ProbeBegan;
  }

  lemma TurnKeepsLedger(f: Fleet, start: Port, t: Turn)
    requires FleetOk(f, start) && Ledger(f.plant) && Allowed(f, t)
    ensures Ledger(Turned(f, t).plant)
  {
    hide FleetOk, Ledger, Driven, Left, Drained, Honest, Reclaimed;
    match t
    case Drive(n, e, boots) => DrivenKeepsLedger(f, start, n, e, boots);
    case Reclaim(n, g) => ReclaimKeepsLedger(f.plant, n, g);
    case Join(n) => JoinKeepsLedger(f.plant, n);
    case Leave(n) => LeaveKeepsLedger(f, n);
  }

  lemma NewLedger(names: set<Name>, maxConcurrent: nat, start: Port, end: Port)
    ensures Ledger(NewFleet(names, maxConcurrent, start, end).plant)
  {
  }

  /** Over every run the launcher's book is in order: no child it started is ever
      untracked without having been stopped with the token its start returned. */
  lemma {:induction false} LedgerHolds(names: set<Name>, maxConcurrent: nat, start: Port, end: Port, ts: seq<Turn>)
    requires start <= end + 1 && end < U16_MAX
    requires AllAllowed(NewFleet(names, maxConcurrent, start, end), ts)
    ensures Ledger(AfterTurns(NewFleet(names, maxConcurrent, start, end), ts).plant)
    decreases |ts|
  {
    hide FleetOk, Ledger, Turned, Allowed, NewFleet;
    var f0 := NewFleet(names, maxConcurrent, start, end);
    if ts == [] {
      NewLedger(names, maxConcurrent, start, end);
    } else {
      var front := ts[..|ts| - 1];
      assert forall k :: 0 <= k < |front| ==> front[..k] == ts[..k] && front[k] == ts[k];
      LedgerHolds(names, maxConcurrent, start, end, front);
      NewFleetOk(names, maxConcurrent, start, end);
      TurnsKeepFleet(f0, start, front);
      TurnKeepsLedger(AfterTurns(f0, front), start, ts[|ts| - 1]);
    }
  }

  // ------------------------------------------------------------ whoever goes was told to

  lemma UntrackedOnce(p: Plant, a: Action, boots: Boots, n: Name, g: Gen, c: Child)
    requires TracksAs(p, n, g, c) && !(IsSpawn(a) && a.name == n && a.gen == g)
    ensures
      var q := Executed(p, a, boots);
      TracksAs(q, n, g, c) || (!Tracks(q, n, g) && Stopped(q.effects, n, g, c.token, false))
    ensures forall x :: x in p.effects ==> x in Executed(p, a, boots).effects
  {
    hide Allocated, Returned;
  }

  lemma {:induction false} UntrackedAll(p: Plant, acts: seq<Action>, boots: Boots, n: Name, g: Gen, c: Child)
    requires TracksAs(p, n, g, c) && forall a :: a in acts ==> !Spawns(a, n, g)
    ensures
      var q := ExecutedAll(p, acts, boots);
      TracksAs(q, n, g, c) || (!Tracks(q, n, g) && Stopped(q.effects, n, g, c.token, false))
    decreases |acts|
  {
    hide Executed;
    if acts != [] {
      var front, a := acts[..|acts| - 1], acts[|acts| - 1];
      UntrackedAll(p, front, boots, n, g, c);
      var q := ExecutedAll(p, front, boots);
      assert a in acts;
      if TracksAs(q, n, g, c) {
        UntrackedOnce(q, a, boots, n, g, c);
      } else {
        UnspawnedStaysOutOnce(q, a, boots, n, g);
        EffectsGrow(q, a, boots);
      }
    }
  }

  lemma EffectsGrow(p: Plant, a: Action, boots: Boots)
    ensures forall x :: x in p.effects ==> x in Executed(p, a, boots).effects
  {
    hide Allocated, Returned;
  }

  lemma {:induction false} AllStoppedTells(p: Plant, n: Name, m: Name, g: Gen, c: Child)
    requires TracksAs(p, m, g, c)
    ensures
      var q := AllStopped(p, n);
      && (if m == n then !Tracks(q, m, g) && Stopped(q.effects, m, g, c.token, false) else TracksAs(q, m, g, c))
    decreases if n in p.runtimes then |p.runtimes[n].children| else 0
  {
    hide Returned;
    if n in p.runtimes && p.runtimes[n].children.Keys != {} {
      var h := First(p.runtimes[n].children.Keys);
      var p1 := StoppedChild(p, n, h, false);
      assert p1.runtimes[n].children.Keys == p.runtimes[n].children.Keys - {h};
      assert AllStopped(p, n) == AllStopped(p1, n);
      if m == n && g == h {
        assert Stopped(p1.effects, m, g, c.token, false);
        AllStoppedRemembers(p1, n, ChildStopped(m, g, c.token, false));
      } else {
        AllStoppedTells(p1, n, m, g, c);
      }
    }
  }

  lemma {:induction false} AllStoppedRemembers(p: Plant, n: Name, x: Effect)
    requires x in p.effects
    ensures x in AllStopped(p, n).effects
    ensures forall g: Gen :: !Tracks(AllStopped(p, n), n, g)
    decreases if n in p.runtimes then |p.runtimes[n].children| else 0
  {
    hide Returned;
    if n in p.runtimes && p.runtimes[n].children.Keys != {} {
      var h := First(p.runtimes[n].children.Keys);
      var p1 := StoppedChild(p, n, h, false);
      assert p1.runtimes[n].children.Keys == p.runtimes[n].children.Keys - {h};
      assert AllStopped(p, n) == AllStopped(p1, n);
      AllStoppedRemembers(p1, n, x);
    } else {
      assert forall g: Gen :: !Tracks(p, n, g);
    }
  }

  lemma DrivenTells(f: Fleet, start: Port, m: Name, e: Event, boots: Boots, n: Name, g: Gen, c: Child)
    requires FleetOk(f, start) && TracksAs(f.plant, n, g, c)
    ensures
      var q := Driven(f, m, e, boots).plant;
      TracksAs(q, n, g, c) || (!Tracks(q, n, g) && Stopped(q.effects, n, g, c.token, false))
  {
    hide LocalStep, Inv, Dispatch, PortsOk, ExecutedAll, EffectsOk;
    if m !in f.daemon.instances {
      NothingToDo(f.plant, boots);
    } else {
      var i, gen := f.daemon.instances[m], f.daemon.nextGen;
      var l := LocalStep(i, m, e, gen);
      ReadyIn(f.daemon, m);
      LocalStepKeeps(i, m, e, gen);
      if m == n { SpawnsOnlyNew(i, n, e, gen, g); }
      DispatchStarts(Install(f.daemon, m, l));
      UntrackedAll(f.plant, Step(f.daemon, m, e).1, boots, n, g, c);
    }
  }

  /** Every turn but the reclaim of a drained child leaves a tracked child as it is, or
      has told the launcher to kill it, with its own token, before its port is free. */
  lemma UntrackedMeansKilled(f: Fleet, start: Port, t: Turn, n: Name, g: Gen, c: Child)
    requires FleetOk(f, start) && Allowed(f, t) && TracksAs(f.plant, n, g, c) && t != Reclaim(n, g)
    ensures
      var q := Turned(f, t).plant;
      TracksAs(q, n, g, c) || (!Tracks(q, n, g) && Stopped(q.effects, n, g, c.token, false))
  {
    hide FleetOk, Driven, AllStopped, Drained, Honest;
    match t
    case Drive(m, e, boots) => DrivenTells(f, start, m, e, boots, n, g, c);
    case Reclaim(m, h) =>
    case Join(m) =>
    case Leave(m) => AllStoppedTells(f.plant, m, n, g, c);
  }

  // ------------------------------------------------------------ nothing is left waiting

  /** The boot of a generation has a child, of that very sha, or its failure has been
      posted back. */
  ghost predicate BootAnswered(p: Plant, n: Name, sha: Sha, g: Gen) {
    || (Tracks(p, n, g) && p.runtimes[n].children[g].sha == sha)
    || exists reason :: Posted(n, ProbeFailed(g, reason)) in p.effects
  }

  /** Whatever the pipeline of an instance waits for has been asked for. */
  ghost predicate Asked(p: Plant, n: Name, i: Instance) {
    && (i.pipeline.Building? ==> BuildStarted(n, i.pipeline.sha, i.pipeline.gen) in p.effects)
    && (i.pipeline.Probing? ==> BootAnswered(p, n, i.pipeline.sha, i.pipeline.gen))
  }

  lemma SpawnAnswers(p: Plant, a: Action, boots: Boots)
    requires IsSpawn(a) && a.name in p.runtimes
    ensures BootAnswered(Executed(p, a, boots), a.name, a.sha, a.gen)
  {
    hide Allocated, Returned;
    var q := Executed(p, a, boots);
    if !Tracks(q, a.name, a.gen) {
      assert q.effects[|q.effects| - 1].Posted?;
    }
  }

  lemma {:induction false} EffectsGrowAll(p: Plant, acts: seq<Action>, boots: Boots)
    ensures forall x :: x in p.effects ==> x in ExecutedAll(p, acts, boots).effects
    ensures ExecutedAll(p, acts, boots).runtimes.Keys == p.runtimes.Keys
    decreases |acts|
  {
    hide Executed;
    if acts != [] {
      var front := acts[..|acts| - 1];
      EffectsGrowAll(p, front, boots);
      EffectsGrow(ExecutedAll(p, front, boots), acts[|acts| - 1], boots);
    }
    KeysKept(p, acts, boots);
  }

  lemma RequestsBoot(i: Instance, sha: Sha)
    requires !i.pipeline.Probing?
    ensures !Requested(i, sha).pipeline.Probing?
  {
  }

  lemma DecideBoots(i: Instance, n: Name, e: Event)
    ensures
      var m := Decide(i, n, e);
      m.inst.pipeline.Probing? ==>
        && m.Stay?
        && ((m.inst.pipeline == i.pipeline && m.acts == [])
            || m.acts == [SpawnAndProbe(n, m.inst.pipeline.sha, m.inst.pipeline.gen)])
  {
    hide DiskFull, IndeterminateTwice, ProbeRed, RespawnRed, Requested;
    if e.BuildFinished? && BuildAccepted(i, e.gen) { RetryIdles(i, n, e); }
    if e.HeadAdvanced? && !i.pipeline.Probing? { RequestsBoot(i, e.sha); }
  }

  lemma RetryIdles(i: Instance, n: Name, e: Event)
    requires e.BuildFinished? && BuildAccepted(i, e.gen)
    ensures Decide(i, n, e).inst.pipeline.Probing? ==> e.outcome.Green?
  {
    hide DiskFull, IndeterminateTwice;
  }

  /** A boot that goes on is left alone by its event, and a new one is the last thing
      its event asks for. */
  lemma BootsAsked(i: Instance, n: Name, e: Event, gen: Gen)
    requires Ready(i, gen)
    ensures
      var l := LocalStep(i, n, e, gen);
      l.inst.pipeline.Probing? ==>
        || (l.inst.pipeline == i.pipeline && l.acts == [])
        || (&& l.acts != []
            && var a := l.acts[|l.acts| - 1];
               IsSpawn(a) && a.name == n && a.sha == l.inst.pipeline.sha && a.gen == l.inst.pipeline.gen)
  {
    hide Decide, Requested;
    var m := Decide(i, n, e);
    DecideBoots(i, n, e);
    DecideKeeps(i, n, e);
    if m.Settle? && m.inst.pending.Some? { RequestsBoot(m.inst.(pending := None), m.inst.pending.value); }
  }

  lemma LocalAsks(p: Plant, n: Name, i: Instance, e: Event, boots: Boots, gen: Gen)
    requires n in p.runtimes && Ready(i, gen) && Asked(p, n, i)
    ensures var l := LocalStep(i, n, e, gen); Asked(ExecutedAll(p, l.acts, boots), n, l.inst)
  {
    hide LocalStep, BootAnswered, Executed;
    var l := LocalStep(i, n, e, gen);
    LocalStepKeeps(i, n, e, gen);
    BootsAsked(i, n, e, gen);
    EffectsGrowAll(p, l.acts, boots);
    if l.inst.pipeline.Probing? && l.acts != [] {
      var front := l.acts[..|l.acts| - 1];
      EffectsGrowAll(p, front, boots);
      SpawnAnswers(ExecutedAll(p, front, boots), l.acts[|l.acts| - 1], boots);
    }
  }

  /** A started build is logged. */
  lemma {:induction false} StartsLogged(p: Plant, acts: seq<Action>, boots: Boots)
    requires forall a :: a in acts ==> a.StartBuild?
    ensures
      var q := ExecutedAll(p, acts, boots);
      && q.runtimes == p.runtimes
      && (forall x :: x in p.effects ==> x in q.effects)
      && forall a :: a in acts && a.name in p.runtimes ==> BuildStarted(a.name, a.sha, a.gen) in q.effects
    decreases |acts|
  {
    if acts != [] {
      var front, last := acts[..|acts| - 1], acts[|acts| - 1];
      assert acts == front + [last];
      StartsLogged(p, front, boots);
    }
  }

  lemma {:induction false} DispatchAsks(d: Daemon)
    ensures
      var (d1, acts) := Dispatch(d);
      forall n :: n in d.instances && n in d1.instances && d1.instances[n] != d.instances[n] ==>
        && d1.instances[n].pipeline.Building? && d1.instances[n].draining == d.instances[n].draining
        && StartBuild(n, d1.instances[n].pipeline.sha, d1.instances[n].pipeline.gen) in acts
    decreases |d.queue|
  {
    if SlotFree(d) && HeadDispatchable(d) {
      DispatchAsks(Dispatched(d).0);
      DispatchStarts(Dispatched(d).0);
    }
  }

  /** In a fleet in order, a draining child that is tracked was told to drain with its
      own token. */
  lemma DrainTold(f: Fleet, start: Port, n: Name, g: Gen)
    requires FleetOk(f, start) && Ledger(f.plant) && n in f.daemon.instances
    requires g in f.daemon.instances[n].draining && Tracks(f.plant, n, g)
    ensures Stopped(f.plant.effects, n, g, f.plant.runtimes[n].children[g].token, true)
  {
    hide Inv, PortsOk, EffectsOk, ProbeBegan;
    var token :| ChildStopped(n, g, token, true) in f.plant.effects;
    assert Stopped(f.plant.effects, n, g, token, true);
    assert TracksAs(f.plant, n, g, f.plant.runtimes[n].children[g]);
  }

  lemma StillAsked(p: Plant, q: Plant, n: Name, i: Instance)
    requires Asked(p, n, i) && n in p.runtimes && n in q.runtimes && q.runtimes[n] == p.runtimes[n]
    requires forall x :: x in p.effects ==> x in q.effects
    ensures Asked(q, n, i)
  {
    if i.pipeline.Probing? && !Tracks(p, n, i.pipeline.gen) {
      var r :| Posted(n, ProbeFailed(i.pipeline.gen, r)) in p.effects;
      assert Posted(n, ProbeFailed(i.pipeline.gen, r)) in q.effects;
    }
  }

  ghost predicate AllAsked(f: Fleet) {
    forall n :: n in f.daemon.instances ==> n in f.plant.runtimes && Asked(f.plant, n, f.daemon.instances[n])
  }

  lemma DispatchAsksAll(f: Fleet, boots: Boots)
    requires AllAsked(f)
    ensures
      var (d, acts) := Dispatch(f.daemon);
      AllAsked(Fleet(d, ExecutedAll(f.plant, acts, boots)))
  {
    hide Asked, Dispatch;
    var (d, acts) := Dispatch(f.daemon);
    var q := ExecutedAll(f.plant, acts, boots);
    DispatchStarts(f.daemon);
    DispatchAsks(f.daemon);
    StartsLogged(f.plant, acts, boots);
    forall n | n in d.instances ensures n in q.runtimes && Asked(q, n, d.instances[n]) {
      if d.instances[n] == f.daemon.instances[n] {
        StillAsked(f.plant, q, n, d.instances[n]);
      } else {
        var a := StartBuild(n, d.instances[n].pipeline.sha, d.instances[n].pipeline.gen);
        assert a in acts && a.name in f.plant.runtimes;
        BuildingAsked(q, n, d.instances[n]);
      }
    }
  }

  lemma BuildingAsked(p: Plant, n: Name, i: Instance)
    requires i.pipeline.Building? && BuildStarted(n, i.pipeline.sha, i.pipeline.gen) in p.effects
    ensures Asked(p, n, i)
  {
  }

  lemma DrivenAsks(f: Fleet, start: Port, n: Name, e: Event, boots: Boots)
    requires FleetOk(f, start) && AllAsked(f)
    ensures AllAsked(Driven(f, n, e, boots))
  {
    hide LocalStep, Dispatch, ExecutedAll, Asked, Inv, PortsOk, EffectsOk, RuntimeOk;
    if n !in f.daemon.instances {
      NothingToDo(f.plant, boots);
    } else {
      var i, gen := f.daemon.instances[n], f.daemon.nextGen;
      var l := LocalStep(i, n, e, gen);
      var f1 := Fleet(Install(f.daemon, n, l), ExecutedAll(f.plant, l.acts, boots));
      ReadyIn(f.daemon, n);
      LocalStepKeeps(i, n, e, gen);
      LocalAsks(f.plant, n, i, e, boots, gen);
      EffectsGrowAll(f.plant, l.acts, boots);
      forall m | m in f1.daemon.instances ensures m in f1.plant.runtimes && Asked(f1.plant, m, f1.daemon.instances[m]) {
        if m != n {
          OthersSpared(f.plant, l.acts, boots, m);
          StillAsked(f.plant, f1.plant, m, f.daemon.instances[m]);
        }
      }
      if l.dispatch {
        DispatchAsksAll(f1, boots);
        ExecutedInTurn(f.plant, l.acts, Dispatch(f1.daemon).1, boots);
      }
    }
  }

  lemma IdleAsked(p: Plant, n: Name)
    ensures Asked(p, n, Fresh)
  {
  }

  /** A reclaimed child was drained, and a drained one is not in flight. */
  lemma ReclaimAsks(f: Fleet, start: Port, m: Name, g: Gen)
    requires FleetOk(f, start) && AllAsked(f) && Drained(f.plant.effects, m, g)
    ensures AllAsked(f.(plant := Reclaimed(f.plant, m, g)))
  {
    hide Inv, PortsOk, EffectsOk, Drained, Returned;
    forall n | n in f.daemon.instances
      ensures n in Reclaimed(f.plant, m, g).runtimes && Asked(Reclaimed(f.plant, m, g), n, f.daemon.instances[n])
    {
      if n == m { assert !InFlight(f.daemon.instances[n], g); }
    }
  }

  lemma {:induction false} AllStoppedGrows(p: Plant, n: Name)
    ensures forall x :: x in p.effects ==> x in AllStopped(p, n).effects
    decreases if n in p.runtimes then |p.runtimes[n].children| else 0
  {
    hide Returned;
    if n in p.runtimes && p.runtimes[n].children.Keys != {} {
      var h := First(p.runtimes[n].children.Keys);
      var p1 := StoppedChild(p, n, h, false);
      assert p1.runtimes[n].children.Keys == p.runtimes[n].children.Keys - {h};
      assert AllStopped(p, n) == AllStopped(p1, n);
      AllStoppedGrows(p1, n);
    }
  }

  lemma LeaveAsks(f: Fleet, start: Port, m: Name)
    requires FleetOk(f, start) && AllAsked(f)
    ensures AllAsked(Left(f, m))
  {
    hide Inv, EffectsOk, RuntimeOk, Partition, AllStopped, Asked;
    var q := AllStopped(f.plant, m);
    AllStoppedKeeps(f.plant, m, start);
    AllStoppedGrows(f.plant, m);
    var g := Left(f, m);
    forall n | n in g.daemon.instances ensures n in g.plant.runtimes && Asked(g.plant, n, g.daemon.instances[n]) {
      assert n != m && SameFor(f.plant, q, n);
      StillAsked(f.plant, g.plant, n, f.daemon.instances[n]);
    }
  }

  lemma TurnAsks(f: Fleet, start: Port, t: Turn)
    requires FleetOk(f, start) && AllAsked(f) && Allowed(f, t)
    ensures AllAsked(Turned(f, t))
  {
    hide FleetOk, Driven, Left, Drained, Honest, Reclaimed, Asked;
    match t
    case Drive(n, e, boots) => DrivenAsks(f, start, n, e, boots);
    case Reclaim(n, g) => ReclaimAsks(f, start, n, g);
    case Join(n) => JoinAsks(f, n);
    case Leave(n) => LeaveAsks(f, start, n);
  }

  lemma JoinAsks(f: Fleet, m: Name)
    requires AllAsked(f) && m !in f.plant.runtimes
    ensures AllAsked(Joined(f, m))
  {
    hide Asked;
    var g := Joined(f, m);
    forall n | n in g.daemon.instances ensures n in g.plant.runtimes && Asked(g.plant, n, g.daemon.instances[n]) {
      if n == m { IdleAsked(g.plant, n); } else { StillAsked(f.plant, g.plant, n, f.daemon.instances[n]); }
    }
  }

  /** Over every run nothing waits for what was never asked: a building instance's
      build was started, a probing one has its child, of its very sha, or the failure
      of its boot posted back, and a draining child that is tracked was told to drain. */
  lemma {:induction false} NothingWaitsUnasked(
      names: set<Name>, maxConcurrent: nat, start: Port, end: Port, ts: seq<Turn>)
    requires start <= end + 1 && end < U16_MAX
    requires AllAllowed(NewFleet(names, maxConcurrent, start, end), ts)
    ensures
      var f := AfterTurns(NewFleet(names, maxConcurrent, start, end), ts);
      && AllAsked(f)
      && forall n, g :: n in f.daemon.instances && g in f.daemon.instances[n].draining && Tracks(f.plant, n, g) ==>
           Stopped(f.plant.effects, n, g, f.plant.runtimes[n].children[g].token, true)
    decreases |ts|
  {
    hide FleetOk, Ledger, Turned, Allowed, NewFleet, AllAsked;
    var f0 := NewFleet(names, maxConcurrent, start, end);
    NewFleetOk(names, maxConcurrent, start, end);
    TurnsKeepFleet(f0, start, ts);
    LedgerHolds(names, maxConcurrent, start, end, ts);
    var f := AfterTurns(f0, ts);
    forall n, g | n in f.daemon.instances && g in f.daemon.instances[n].draining && Tracks(f.plant, n, g)
      ensures Stopped(f.plant.effects, n, g, f.plant.runtimes[n].children[g].token, true)
    {
      DrainTold(f, start, n, g);
    }
    if ts == [] {
      NewAsks(names, maxConcurrent, start, end);
    } else {
      var front := ts[..|ts| - 1];
      assert forall k :: 0 <= k < |front| ==> front[..k] == ts[..k] && front[k] == ts[k];
      NothingWaitsUnasked(names, maxConcurrent, start, end, front);
      TurnsKeepFleet(f0, start, front);
      TurnAsks(AfterTurns(f0, front), start, ts[|ts| - 1]);
    }
  }

  lemma NewAsks(names: set<Name>, maxConcurrent: nat, start: Port, end: Port)
    ensures AllAsked(NewFleet(names, maxConcurrent, start, end))
  {
  }
}
