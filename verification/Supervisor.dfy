/**
 * The analyzer supervisor: its monitor thread, the owner that starts it and
 * shuts it down, and handles that suspend, resume and restart it, as steps that
 * interleave in any order with children dying on their own.
 */
module Supervisor {
  import opened Wrappers

  const MIN_BACKOFF: nat := 50
  const MAX_BACKOFF: nat := 2000

  /** A spawned process: running, dead but not waited for, or waited for. */
  datatype Status = Running | Dead | Reaped

  type Pid = nat

  /** Where the monitor thread stands. */
  datatype Monitor =
    | NotStarted
    | Top
    | Polling
    | Alive
    | OverCap(pid: Pid)
    | SawDeath
    | Reaping
    | Parked
    | BackingOff
    | Spawning
    | Hooking(pid: Pid)
    | Exiting
    | Exited

  /** Where the owner stands: bringing the first child up, serving, shutting down. */
  datatype Owner =
    | Starting
    | FirstHook(pid: Pid)
    | FailedToStart
    | Supervising
    | Joining
    | Returned

  datatype State = State(
    procs: seq<Status>,
    child: Option<Pid>,
    stored: nat,
    restarts: nat,
    backoff: nat,
    shutdown: bool,
    suspended: bool,
    monitor: Monitor,
    owner: Owner)

  const Init: State := State([], None, 0, 0, MIN_BACKOFF, false, false, NotStarted, Starting)

  datatype Step =
    | FirstSpawn(ok: bool)
    | FirstStored
    | CheckTop
    | Poll(unknown: bool)
    | Sleep
    | SampleMemory
    | ReapOverCap
    | CheckBeforeReap
    | ReapCorpse
    | LeavePark
    | WakeFromBackoff
    | Spawn(ok: bool)
    | Store
    | FinalCleanup
    | BeginShutdown
    | JoinAndClean
    | SetSuspended
    | KillSuspended
    | Resume
    | RestartNow
    | IsAlive
    | Dies(pid: Pid)

  function With(procs: seq<Status>, pid: Pid, st: Status): seq<Status> {
    if pid < |procs| then procs[pid := st] else procs
  }

  /** A signal: it kills a running child and does nothing to any other. */
  function Killed(procs: seq<Status>, child: Option<Pid>): seq<Status> {
    if child.Some? && child.value < |procs| && procs[child.value].Running? then With(procs, child.value, Dead)
    else procs
  }

  /** A look at the child without waiting for it, which reaps a dead one. */
  function Looked(procs: seq<Status>, child: Option<Pid>): seq<Status> {
    if child.Some? && child.value < |procs| && procs[child.value].Dead? then With(procs, child.value, Reaped)
    else procs
  }

  /** Kill and wait. */
  function KilledAndWaited(procs: seq<Status>, child: Option<Pid>): seq<Status> {
    if child.Some? then With(procs, child.value, Reaped) else procs
  }

  function StatusOf(s: State): Status {
    if s.child.Some? && s.child.value < |s.procs| then s.procs[s.child.value] else Reaped
  }

  /** One step; a step that is not enabled changes nothing. */
  function Apply(s: State, x: Step): State {
    match x
    case FirstSpawn(ok) =>
      if !s.owner.Starting? then s
      else if ok then s.(procs := s.procs + [Running], owner := FirstHook(|s.procs|))
      else s.(owner := FailedToStart)
    case FirstStored =>
      if s.owner.FirstHook? then
        s.(child := Some(s.owner.pid), stored := s.stored + 1, owner := Supervising, monitor := Top)
      else s
    case CheckTop =>
      if s.monitor.Top? then s.(monitor := if s.shutdown then Exiting else Polling) else s
    case Poll(unknown) =>
      if !s.monitor.Polling? then s
      else if s.child.Some? && StatusOf(s).Running? && !unknown then s.(monitor := Alive)
      else if StatusOf(s).Dead? && !unknown then s.(monitor := SawDeath, procs := KilledAndWaited(s.procs, s.child))
      else s.(monitor := SawDeath)
    case Sleep => if s.monitor.Alive? then s.(monitor := Top) else s
    case SampleMemory =>
      if !s.monitor.Alive? then s
      else if s.child.Some? && StatusOf(s).Running? then s.(monitor := OverCap(s.child.value))
      else s.(procs := Looked(s.procs, s.child))
    case ReapOverCap =>
      if s.monitor.OverCap? then
        s.(monitor := Top, procs := if s.child == Some(s.monitor.pid) then Killed(s.procs, s.child) else s.procs)
      else s
    case CheckBeforeReap =>
      if s.monitor.SawDeath? then s.(monitor := if s.shutdown then Exiting else Reaping) else s
    case ReapCorpse =>
      if s.monitor.Reaping? && !StatusOf(s).Running? then
        s.(monitor := Parked, child := None, procs := KilledAndWaited(s.procs, s.child))
      else s
    case LeavePark => if s.monitor.Parked? && (!s.suspended || s.shutdown) then s.(monitor := BackingOff) else s
    case WakeFromBackoff =>
      if s.monitor.BackingOff? then s.(monitor := if s.shutdown then Exiting else Spawning) else s
    case Spawn(ok) =>
      if !s.monitor.Spawning? then s
      else if ok then s.(monitor := Hooking(|s.procs|), procs := s.procs + [Running])
      else s.(monitor := Top, backoff := if s.backoff * 2 < MAX_BACKOFF then s.backoff * 2 else MAX_BACKOFF)
    case Store =>
      if s.monitor.Hooking? then
        s.(monitor := Top, child := Some(s.monitor.pid), stored := s.stored + 1, restarts := s.restarts + 1,
           backoff := MIN_BACKOFF)
      else s
    case FinalCleanup =>
      if s.monitor.Exiting? then s.(monitor := Exited, child := None, procs := KilledAndWaited(s.procs, s.child)) else s
    case BeginShutdown => if s.owner.Supervising? then s.(owner := Joining, shutdown := true) else s
    case JoinAndClean =>
      if s.owner.Joining? && s.monitor.Exited? then
        s.(owner := Returned, child := None, procs := KilledAndWaited(s.procs, s.child))
      else s
    case SetSuspended => if s.owner.Starting? || s.owner.FirstHook? then s else s.(suspended := true)
    case KillSuspended => if s.owner.Starting? || s.owner.FirstHook? then s else s.(procs := Killed(s.procs, s.child))
    case Resume => s.(suspended := false)
    case RestartNow => if s.owner.Supervising? then s.(procs := Killed(s.procs, s.child)) else s
    case IsAlive => s.(procs := Looked(s.procs, s.child))
    case Dies(pid) => if pid < |s.procs| && s.procs[pid].Running? then s.(procs := With(s.procs, pid, Dead)) else s
  }

  function Run(xs: seq<Step>): State {
    if xs == [] then Init else Apply(Run(xs[..|xs| - 1]), xs[|xs| - 1])
  }

  function RunFrom(s: State, xs: seq<Step>): State
    decreases |xs|
  {
    if xs == [] then s else RunFrom(Apply(s, xs[0]), xs[1..])
  }

  // ------------------------------------------------------------ the invariant

  /** The child that is up but not yet handed over. */
  function InHand(s: State): Option<Pid> {
    if s.monitor.Hooking? then Some(s.monitor.pid)
    else if s.owner.FirstHook? then Some(s.owner.pid)
    else None
  }

  /** Between reaping one child and storing the next there is none to signal. */
  predicate Handless(m: Monitor) {
    m.NotStarted? || m.Parked? || m.BackingOff? || m.Spawning? || m.Hooking? || m.Exited?
  }

  ghost predicate Inv(s: State) {
    && (forall p :: 0 <= p < |s.procs| && s.procs[p] != Reaped ==> s.child == Some(p) || InHand(s) == Some(p))
    && (s.child.Some? ==> s.child.value < |s.procs| && !Handless(s.monitor))
    && (InHand(s).Some? ==> InHand(s).value < |s.procs|)
    && (s.monitor.NotStarted? <==> !(s.owner.Supervising? || s.owner.Joining? || s.owner.Returned?))
    && (s.owner.Supervising? || s.owner.Joining? || s.owner.Returned? ==> s.stored == s.restarts + 1)
    && (s.monitor.NotStarted? ==> s.stored == 0 && s.restarts == 0)
    && MIN_BACKOFF <= s.backoff <= MAX_BACKOFF
    && (s.shutdown <==> s.owner.Joining? || s.owner.Returned?)
    && (s.monitor.Exiting? || s.monitor.Exited? ==> s.shutdown)
    && (s.owner.Returned? ==> s.monitor.Exited?)
    && (s.owner.FailedToStart? ==> s.procs == [])
    && (s.owner.Starting? ==> s.procs == [])
    && (s.monitor.OverCap? ==> s.child == Some(s.monitor.pid))
  }

  /** The steps of the monitor thread. */
  predicate ByMonitor(x: Step) {
    x.CheckTop? || x.Poll? || x.Sleep? || x.SampleMemory? || x.ReapOverCap? || x.CheckBeforeReap? || x.ReapCorpse?
    || x.LeavePark? || x.WakeFromBackoff? || x.Spawn? || x.Store? || x.FinalCleanup?
  }

  /** The steps that end or wait for the stored child. */
  predicate Ends(x: Step) {
    x.Poll? || x.ReapOverCap? || x.ReapCorpse? || x.FinalCleanup?
  }

  lemma EndingKeeps(s: State, x: Step)
    requires Inv(s) && Ends(x)
    ensures Inv(Apply(s, x))
  {
  }

  lemma StartingKeeps(s: State, x: Step)
    requires Inv(s) && (x.Spawn? || x.Store?)
    ensures Inv(Apply(s, x))
  {
  }

  lemma MovingKeeps(s: State, x: Step)
    requires Inv(s) && ByMonitor(x) && !Ends(x) && !x.Spawn? && !x.Store?
    ensures Inv(Apply(s, x))
  {
  }

  lemma OthersKeep(s: State, x: Step)
    requires Inv(s) && !ByMonitor(x)
    ensures Inv(Apply(s, x))
  {
  }

  lemma StepKeeps(s: State, x: Step)
    requires Inv(s)
    ensures Inv(Apply(s, x))
  {
    hide Inv, Apply;
    if Ends(x) {
      EndingKeeps(s, x);
    } else if x.Spawn? || x.Store? {
      StartingKeeps(s, x);
    } else if ByMonitor(x) {
      MovingKeeps(s, x);
    } else {
      OthersKeep(s, x);
    }
  }

  lemma {:induction false} RunKeeps(xs: seq<Step>)
    ensures Inv(Run(xs))
    decreases |xs|
  {
    hide Apply;
    if xs != [] {
      RunKeeps(xs[..|xs| - 1]);
      StepKeeps(Run(xs[..|xs| - 1]), xs[|xs| - 1]);
    }
  }

  // ------------------------------------------------------------ what it promises

  predicate Unreaped(s: State, p: Pid) {
    p < |s.procs| && s.procs[p] != Reaped
  }

  /** In every interleaving: at most one spawned child is not yet waited for, the
      restart count is the number of stored children less the first, the backoff
      stays within its bounds, and once shutdown has returned every child ever
      spawned is dead and waited for. */
  lemma SupervisorIsSafe(xs: seq<Step>)
    ensures
      var s := Run(xs);
      && (forall p, q :: Unreaped(s, p) && Unreaped(s, q) ==> p == q)
      && (s.owner.Supervising? || s.owner.Joining? || s.owner.Returned? ==> s.restarts == s.stored - 1)
      && MIN_BACKOFF <= s.backoff <= MAX_BACKOFF
      && (s.owner.Returned? ==> forall p :: 0 <= p < |s.procs| ==> s.procs[p] == Reaped)
  {
    RunKeeps(xs);
  }

  /** A parked monitor means an evicted analyzer: no child runs or lingers. */
  lemma ParkedMeansEvicted(xs: seq<Step>)
    requires Run(xs).monitor.Parked?
    ensures forall p :: 0 <= p < |Run(xs).procs| ==> Run(xs).procs[p] == Reaped
  {
    RunKeeps(xs);
  }

  // ------------------------------------------------------------ a death is made good

  /** The monitor between seeing a death and storing the next child, with nothing
      in the way: neither suspended nor shutting down. */
  ghost predicate Restarting(s: State) {
    && Inv(s) && s.owner.Supervising? && !s.suspended
    && (s.child.Some? ==> (s.monitor.SawDeath? || s.monitor.Reaping?) && !StatusOf(s).Running?)
    && Distance(s.monitor) > 0
  }

  /** How many moves of the monitor the next stored child is away, if its spawn
      succeeds. */
  function Distance(m: Monitor): nat {
    match m
    case Top => 8
    case Polling => 7
    case SawDeath => 6
    case Reaping => 5
    case Parked => 4
    case BackingOff => 3
    case Spawning => 2
    case Hooking(_) => 1
    case _ => 0
  }

  /** The moves the monitor makes, whatever else happens in between. */
  function Moves(s: State, ys: seq<Step>): nat
    decreases |ys|
  {
    if ys == [] then 0
    else (if Apply(s, ys[0]).monitor != s.monitor then 1 else 0) + Moves(Apply(s, ys[0]), ys[1..])
  }

  /** The spawns that fail. */
  function Failures(s: State, ys: seq<Step>): nat
    decreases |ys|
  {
    if ys == [] then 0
    else (if s.monitor.Spawning? && ys[0] == Spawn(false) then 1 else 0) + Failures(Apply(s, ys[0]), ys[1..])
  }

  /** What the monitor does next while it restarts. */
  function NextMove(m: Monitor): Step {
    match m
    case Top => CheckTop
    case Polling => Poll(false)
    case SawDeath => CheckBeforeReap
    case Reaping => ReapCorpse
    case Parked => LeavePark
    case BackingOff => WakeFromBackoff
    case Spawning => Spawn(true)
    case _ => Store
  }

  predicate Disturbs(x: Step) { x.SetSuspended? || x.BeginShutdown? }

  lemma RestartMoves(s: State, x: Step)
    requires Restarting(s) && !Disturbs(x)
    ensures
      var t := Apply(s, x);
      if t.stored > s.stored then
        s.monitor.Hooking? && x.Store? && t.child == Some(s.monitor.pid) && t.stored == s.stored + 1
        && t.restarts == s.restarts + 1 && t.backoff == MIN_BACKOFF
      else
        && Restarting(t) && t.stored == s.stored && t.restarts == s.restarts
        && Distance(t.monitor) == (if t.monitor == s.monitor then Distance(s.monitor)
                                   else if s.monitor.Spawning? && x == Spawn(false) then Distance(s.monitor) + 6
                                   else Distance(s.monitor) - 1)
  {
    hide Inv;
    StepKeeps(s, x);
    RestartMovesOn(s, x);
  }

  lemma RestartMovesOn(s: State, x: Step)
    requires Restarting(s) && !Disturbs(x) && Inv(Apply(s, x))
    ensures
      var t := Apply(s, x);
      if t.stored > s.stored then
        s.monitor.Hooking? && x.Store? && t.child == Some(s.monitor.pid) && t.stored == s.stored + 1
        && t.restarts == s.restarts + 1 && t.backoff == MIN_BACKOFF
      else
        && Restarting(t) && t.stored == s.stored && t.restarts == s.restarts
        && Distance(t.monitor) == (if t.monitor == s.monitor then Distance(s.monitor)
                                   else if s.monitor.Spawning? && x == Spawn(false) then Distance(s.monitor) + 6
                                   else Distance(s.monitor) - 1)
  {
  }

  lemma {:induction false} StoredNeverFalls(s: State, ys: seq<Step>)
    ensures RunFrom(s, ys).stored >= s.stored && RunFrom(s, ys).restarts >= s.restarts
    decreases |ys|
  {
    if ys != [] { StoredNeverFalls(Apply(s, ys[0]), ys[1..]); }
  }

  /** A child that exits is replaced, whatever the other threads do short of a
      suspend or a shutdown: until a new child is stored the monitor can always
      move, each move brings it one nearer, and only a failed spawn sends it
      round again; so once it has made as many moves as that allows there is a
      new child, counted as a restart. */
  lemma {:induction false} DeathLeadsToRestart(s: State, ys: seq<Step>)
    requires Restarting(s) && forall k :: 0 <= k < |ys| ==> !Disturbs(ys[k])
    ensures
      var t := RunFrom(s, ys);
      || (t.stored > s.stored && t.restarts > s.restarts)
      || (&& Restarting(t) && t.restarts == s.restarts
          && Distance(t.monitor) + Moves(s, ys) == Distance(s.monitor) + 7 * Failures(s, ys)
          && Apply(t, NextMove(t.monitor)).monitor != t.monitor)
    ensures Moves(s, ys) >= Distance(s.monitor) + 7 * Failures(s, ys) ==> RunFrom(s, ys).stored > s.stored
    decreases |ys|
  {
    hide Inv, Apply;
    if ys == [] {
      NextMoves(s);
    } else {
      RestartMoves(s, ys[0]);
      var s1 := Apply(s, ys[0]);
      if s1.stored > s.stored {
        StoredNeverFalls(s1, ys[1..]);
      } else {
        if s.monitor.Spawning? && ys[0] == Spawn(false) { SpawnFails(s, ys[0]); }
        DeathLeadsToRestart(s1, ys[1..]);
      }
    }
  }

  lemma NextMoves(s: State)
    requires Restarting(s)
    ensures Apply(s, NextMove(s.monitor)).monitor != s.monitor
  {
  }

  lemma SpawnFails(s: State, x: Step)
    requires s.monitor.Spawning? && x == Spawn(false)
    ensures Apply(s, x).monitor.Top?
  {
  }

  /** A polled death begins a restart. */
  lemma PolledDeathRestarts(s: State)
    requires Inv(s) && s.owner.Supervising? && !s.suspended && s.monitor.Polling? && !StatusOf(s).Running?
    ensures Restarting(Apply(s, Poll(false))) && Distance(Apply(s, Poll(false)).monitor) == 6
  {
    StepKeeps(s, Poll(false));
  }

  /** A restart request kills the child it finds, and nothing but its death follows. */
  lemma RestartNowKills(s: State)
    requires Inv(s) && s.owner.Supervising?
    ensures
      var t := Apply(s, RestartNow);
      && !StatusOf(t).Running? && t.child == s.child && t.monitor == s.monitor
      && (StatusOf(s).Running? ==> StatusOf(t).Dead?)
      && forall p :: 0 <= p < |s.procs| && s.child != Some(p) ==> t.procs[p] == s.procs[p]
  {
  }

  /** Respawns that failed since a child was last stored. */
  function Misses(xs: seq<Step>): nat {
    if xs == [] then 0
    else
      var front, x := xs[..|xs| - 1], xs[|xs| - 1];
      if Run(front).monitor.Spawning? && x == Spawn(false) then Misses(front) + 1
      else if Run(front).monitor.Hooking? && x.Store? then 0
      else Misses(front)
  }

  /** Doubled that many times, up to the limit. */
  function Doubled(k: nat): (r: nat)
    ensures MIN_BACKOFF <= r <= MAX_BACKOFF
  {
    if k == 0 then MIN_BACKOFF
    else if Doubled(k - 1) * 2 < MAX_BACKOFF then Doubled(k - 1) * 2 else MAX_BACKOFF
  }

  lemma BackoffMoves(s: State, x: Step)
    ensures
      var t := Apply(s, x);
      t.backoff == (if s.monitor.Spawning? && x == Spawn(false)
                    then if s.backoff * 2 < MAX_BACKOFF then s.backoff * 2 else MAX_BACKOFF
                    else if s.monitor.Hooking? && x.Store? then MIN_BACKOFF else s.backoff)
  {
  }

  /** The backoff doubles with every respawn that fails and starts over with every
      child that is stored. */
  lemma {:induction false} BackoffDoubles(xs: seq<Step>)
    ensures Run(xs).backoff == Doubled(Misses(xs))
    decreases |xs|
  {
    hide Apply;
    if xs != [] {
      BackoffDoubles(xs[..|xs| - 1]);
      BackoffMoves(Run(xs[..|xs| - 1]), xs[|xs| - 1]);
    }
  }

  /** A dead child is reaped by whoever asks whether it lives, and a running one is
      left alone. */
  lemma IsAliveReaps(s: State)
    requires Inv(s)
    ensures
      var t := Apply(s, IsAlive);
      && !StatusOf(t).Dead? && (StatusOf(t).Running? <==> StatusOf(s).Running?)
      && t == s.(procs := t.procs) && |t.procs| == |s.procs|
      && forall p :: 0 <= p < |s.procs| && s.child != Some(p) ==> t.procs[p] == s.procs[p]
  {
  }

  /** A resume lets a parked monitor go on to the next child. */
  lemma ResumeRestarts(s: State)
    requires Inv(s) && s.owner.Supervising? && s.monitor.Parked?
    ensures Restarting(Apply(s, Resume)) && Distance(Apply(s, Resume).monitor) == 4
  {
    StepKeeps(s, Resume);
  }

  lemma OverCapOnce(s: State, x: Step)
    requires Inv(s) && s.monitor.OverCap?
    ensures
      var t := Apply(s, x);
      t.monitor == s.monitor || (t.monitor.Top? && t.procs[s.monitor.pid] != Running)
  {
  }

  lemma DeadOnce(s: State, p: Pid, x: Step)
    requires p < |s.procs| && s.procs[p] != Running
    ensures p < |Apply(s, x).procs| && Apply(s, x).procs[p] != Running
  {
  }

  /** A child measured over the cap is no longer running once the monitor has moved
      on, whatever the other threads do in between, and never runs again. */
  lemma {:induction false} OverCapIsKilled(s: State, ys: seq<Step>, p: Pid)
    requires Inv(s) && p < |s.procs| && (s.monitor == OverCap(p) || s.procs[p] != Running)
    ensures
      var t := RunFrom(s, ys);
      p < |t.procs| && (t.monitor == OverCap(p) || t.procs[p] != Running)
    decreases |ys|
  {
    hide Inv, Apply;
    if ys != [] {
      StepKeeps(s, ys[0]);
      if s.procs[p] != Running { DeadOnce(s, p, ys[0]); } else { OverCapGrows(s, p, ys[0]); }
      OverCapIsKilled(Apply(s, ys[0]), ys[1..], p);
    }
  }

  lemma OverCapGrows(s: State, p: Pid, x: Step)
    requires Inv(s) && p < |s.procs| && s.monitor == OverCap(p)
    ensures
      var t := Apply(s, x);
      p < |t.procs| && (t.monitor == OverCap(p) || t.procs[p] != Running)
  {
    OverCapOnce(s, x);
  }

  /** A first spawn that fails leaves nothing behind, and nothing follows it. */
  lemma {:induction false} FailedStartStays(ys: seq<Step>)
    ensures
      var t := RunFrom(Apply(Init, FirstSpawn(false)), ys);
      t.owner.FailedToStart? && t.procs == [] && t.child.None? && t.monitor.NotStarted?
  {
    FailedStaysFrom(Apply(Init, FirstSpawn(false)), ys);
  }

  lemma {:induction false} FailedStaysFrom(s: State, ys: seq<Step>)
    requires s.owner.FailedToStart? && s.procs == [] && s.child.None? && s.monitor.NotStarted?
    ensures
      var t := RunFrom(s, ys);
      t.owner.FailedToStart? && t.procs == [] && t.child.None? && t.monitor.NotStarted?
    decreases |ys|
  {
    if ys != [] { FailedStaysFrom(Apply(s, ys[0]), ys[1..]); }
  }

  // ------------------------------------------------------------ shutdown

  /** How many moves a monitor that is told to shut down may still make. */
  function ToExit(m: Monitor): nat {
    match m
    case Polling => 5
    case Alive => 4
    case Reaping => 4
    case Spawning => 4
    case OverCap(_) => 3
    case Parked => 3
    case Hooking(_) => 3
    case Top => 2
    case SawDeath => 2
    case BackingOff => 2
    case Exiting => 1
    case _ => 0
  }

  /** What a monitor that is told to shut down does next; only a reap that waits for
      a child still running depends on somebody else, on that child. */
  function ExitMove(s: State): Step {
    match s.monitor
    case Top => CheckTop
    case Polling => Poll(false)
    case Alive => Sleep
    case OverCap(_) => ReapOverCap
    case SawDeath => CheckBeforeReap
    case Reaping => ReapCorpse
    case Parked => LeavePark
    case BackingOff => WakeFromBackoff
    case Spawning => Spawn(true)
    case Hooking(_) => Store
    case _ => FinalCleanup
  }

  ghost predicate ShuttingDown(s: State) {
    Inv(s) && (s.owner.Joining? || s.owner.Returned?)
  }

  predicate WaitsForChild(s: State) { s.monitor.Reaping? && StatusOf(s).Running? }

  lemma ShutdownMoves(s: State, x: Step)
    requires ShuttingDown(s)
    ensures ShuttingDown(Apply(s, x))
    ensures Apply(s, x).monitor != s.monitor ==> ToExit(Apply(s, x).monitor) < ToExit(s.monitor)
  {
    hide Inv;
    StepKeeps(s, x);
    ShutdownMovesOn(s, x);
  }

  lemma ShutdownMovesOn(s: State, x: Step)
    requires ShuttingDown(s) && Inv(Apply(s, x))
    ensures ShuttingDown(Apply(s, x))
    ensures Apply(s, x).monitor != s.monitor ==> ToExit(Apply(s, x).monitor) < ToExit(s.monitor)
  {
  }

  lemma ShutdownCanMove(s: State)
    requires ShuttingDown(s) && s.owner.Joining?
    ensures
      if s.monitor.Exited? then Apply(s, JoinAndClean).owner.Returned?
      else if WaitsForChild(s) then s.child.Some? && !WaitsForChild(Apply(s, Dies(s.child.value)))
      else Apply(s, ExitMove(s)).monitor != s.monitor
  {
  }

  lemma {:induction false} ShutdownCounts(s: State, ys: seq<Step>)
    requires ShuttingDown(s)
    ensures ShuttingDown(RunFrom(s, ys)) && ToExit(RunFrom(s, ys).monitor) + Moves(s, ys) <= ToExit(s.monitor)
    decreases |ys|
  {
    hide ShuttingDown, Apply, ToExit;
    if ys != [] {
      ShutdownMoves(s, ys[0]);
      ShutdownCounts(Apply(s, ys[0]), ys[1..]);
    }
  }

  /** A shutdown ends: from wherever it finds the monitor, whatever the handles do
      and whether spawns succeed or not, the monitor moves at most five times more;
      until it has exited it can always move, unless it waits for a child that is
      still to die; and once it has exited the shutdown can return, which it does
      with every child waited for. */
  lemma ShutdownEnds(s: State, ys: seq<Step>)
    requires Inv(s) && s.owner.Supervising?
    ensures
      var s1 := Apply(s, BeginShutdown);
      var t := RunFrom(s1, ys);
      && ToExit(t.monitor) + Moves(s1, ys) <= ToExit(s.monitor) <= 5
      && (t.owner.Returned? || t.owner.Joining?)
      && (t.owner.Returned? ==> t.monitor.Exited? && forall p :: 0 <= p < |t.procs| ==> t.procs[p] == Reaped)
      && (t.owner.Joining? ==>
            if t.monitor.Exited? then Apply(t, JoinAndClean).owner.Returned?
            else if WaitsForChild(t) then t.child.Some? && !WaitsForChild(Apply(t, Dies(t.child.value)))
            else Apply(t, ExitMove(t)).monitor != t.monitor)
  {
    hide Apply;
    StepKeeps(s, BeginShutdown);
    ShutdownBegins(s);
    ShutdownCounts(Apply(s, BeginShutdown), ys);
    var t := RunFrom(Apply(s, BeginShutdown), ys);
    if t.owner.Joining? { ShutdownCanMove(t); }
  }

  lemma ShutdownBegins(s: State)
    requires s.owner.Supervising?
    ensures Apply(s, BeginShutdown) == s.(owner := Joining, shutdown := true)
  {
  }

  // ------------------------------------------------------------ suspension

  /** Nobody resumes and nobody shuts down. */
  predicate Undisturbed(ys: seq<Step>) {
    forall k :: 0 <= k < |ys| ==> !ys[k].Resume? && !ys[k].BeginShutdown?
  }

  predicate AnyRunning(s: State) {
    exists p :: 0 <= p < |s.procs| && s.procs[p].Running?
  }

  /** Past the park loop: the monitor no longer looks at the suspend flag before
      the next child is stored. */
  predicate PastParking(s: State) {
    s.monitor.BackingOff? || s.monitor.Spawning?
    || (s.monitor.Hooking? && s.monitor.pid < |s.procs| && s.procs[s.monitor.pid].Running?)
  }

  ghost predicate Silenced(s: State) {
    Inv(s) && s.owner.Supervising? && s.suspended && !AnyRunning(s) && !PastParking(s)
  }

  lemma SilencedStays(s: State, x: Step)
    requires Silenced(s) && !x.Resume? && !x.BeginShutdown?
    ensures Silenced(Apply(s, x))
  {
    hide Inv;
    StepKeeps(s, x);
    SilencedStaysOn(s, x);
  }

  lemma SilencedStaysOn(s: State, x: Step)
    requires Silenced(s) && !x.Resume? && !x.BeginShutdown? && Inv(Apply(s, x))
    ensures Silenced(Apply(s, x))
  {
  }

  lemma {:induction false} SilencedThroughout(s: State, ys: seq<Step>)
    requires Silenced(s) && Undisturbed(ys)
    ensures Silenced(RunFrom(s, ys))
    decreases |ys|
  {
    hide Silenced, Apply;
    if ys != [] {
      SilencedStays(s, ys[0]);
      SilencedThroughout(Apply(s, ys[0]), ys[1..]);
    }
  }

  /** What the monitor does after the kill has found nothing. */
  function Onward(m: Monitor): seq<Step> {
    match m
    case BackingOff => [WakeFromBackoff, Spawn(true)]
    case Spawning => [Spawn(true)]
    case _ => []
  }

  lemma RunsOnce(s: State, x: Step)
    ensures RunFrom(s, [x]) == Apply(s, x)
  {
    hide Apply;
    assert [x][1..] == [];
  }

  lemma SpawnRuns(s: State)
    requires s.monitor.Spawning?
    ensures AnyRunning(Apply(s, Spawn(true)))
  {
    assert Apply(s, Spawn(true)).procs[|s.procs|].Running?;
  }

  lemma PastParkingRuns(s: State)
    requires Inv(s) && s.owner.Supervising? && PastParking(s)
    ensures AnyRunning(RunFrom(Apply(s, KillSuspended), Onward(s.monitor)))
  {
    hide AnyRunning;
    var t := Apply(s, KillSuspended);
    RunsOnce(t, Spawn(true));
    if s.monitor.Hooking? {
      assert AnyRunning(t) by { HookedRuns(t, s.monitor.pid); }
    } else if s.monitor.Spawning? {
      SpawnRuns(t);
    } else {
      var t1 := Apply(t, WakeFromBackoff);
      RunsOnce(t1, Spawn(true));
      SpawnRuns(t1);
      assert [WakeFromBackoff, Spawn(true)][1..] == [Spawn(true)];
    }
  }

  lemma HookedRuns(s: State, pid: Pid)
    requires pid < |s.procs| && s.procs[pid].Running?
    ensures AnyRunning(s)
  {
  }

  lemma KillSilences(s: State)
    requires Inv(s) && s.owner.Supervising? && s.suspended && !PastParking(s)
    ensures Silenced(Apply(s, KillSuspended))
  {
    StepKeeps(s, KillSuspended);
  }

  /** A suspend silences the analyzer for good, that is until it is resumed or
      shut down, exactly when it does not land between the monitor's park loop
      and the storing of the next child. */
  lemma SuspendSilencesIff(xs: seq<Step>)
    requires Run(xs).owner.Supervising? && Run(xs).suspended
    ensures
      var s := Run(xs);
      (forall ys :: Undisturbed(ys) ==> !AnyRunning(RunFrom(Apply(s, KillSuspended), ys))) <==> !PastParking(s)
  {
    hide Inv, Apply, AnyRunning, PastParking, RunFrom;
    var s := Run(xs);
    RunKeeps(xs);
    if PastParking(s) {
      PastParkingRuns(s);
      assert Undisturbed(Onward(s.monitor));
    } else {
      KillSilences(s);
      forall ys | Undisturbed(ys) ensures !AnyRunning(RunFrom(Apply(s, KillSuspended), ys)) {
        SilencedThroughout(Apply(s, KillSuspended), ys);
      }
    }
  }

  /** While suspended a parked monitor stays parked, and every child stays waited
      for, whatever else happens short of a resume or a shutdown. */
  lemma {:induction false} ParkedStaysWhileSuspended(s: State, ys: seq<Step>)
    requires Inv(s) && s.monitor.Parked? && s.suspended && !s.shutdown && Undisturbed(ys)
    ensures
      var t := RunFrom(s, ys);
      t.monitor.Parked? && t.suspended && forall p :: 0 <= p < |t.procs| ==> t.procs[p] == Reaped
    decreases |ys|
  {
    hide Apply;
    if ys != [] {
      var s1 := Apply(s, ys[0]);
      StepKeeps(s, ys[0]);
      ParkedStaysOnce(s, ys[0]);
      ParkedStaysWhileSuspended(s1, ys[1..]);
    }
  }

  lemma ParkedStaysOnce(s: State, x: Step)
    requires Inv(s) && s.monitor.Parked? && s.suspended && !s.shutdown && !x.Resume? && !x.BeginShutdown?
    ensures Apply(s, x).monitor.Parked? && Apply(s, x).suspended && !Apply(s, x).shutdown
  {
  }

  lemma RunSnoc(xs: seq<Step>, x: Step)
    ensures Run(xs + [x]) == Apply(Run(xs), x)
  {
    assert (xs + [x])[..|xs|] == xs;
  }

  lemma {:induction false} RunInTurn(xs: seq<Step>, ys: seq<Step>)
    ensures Run(xs + ys) == RunFrom(Run(xs), ys)
    decreases |ys|
  {
    hide Apply;
    if ys == [] {
      assert xs + ys == xs;
    } else {
      RunSnoc(xs, ys[0]);
      assert xs + ys == (xs + [ys[0]]) + ys[1..];
      RunInTurn(xs + [ys[0]], ys[1..]);
    }
  }

  lemma FirstChildDies()
    ensures RunFrom(Init, [FirstSpawn(true), FirstStored, Dies(0), CheckTop, Poll(false)])
            == State([Reaped], Some(0), 1, 0, MIN_BACKOFF, false, false, SawDeath, Supervising)
  {
    var s1 := Apply(Apply(Init, FirstSpawn(true)), FirstStored);
    assert s1 == State([Running], Some(0), 1, 0, MIN_BACKOFF, false, false, Top, Supervising);
    var s2 := Apply(Apply(s1, Dies(0)), CheckTop);
    assert s2 == State([Dead], Some(0), 1, 0, MIN_BACKOFF, false, false, Polling, Supervising);
  }

  lemma CorpseIsReaped()
    ensures RunFrom(State([Reaped], Some(0), 1, 0, MIN_BACKOFF, false, false, SawDeath, Supervising),
                    [CheckBeforeReap, ReapCorpse, LeavePark])
            == State([Reaped], None, 1, 0, MIN_BACKOFF, false, false, BackingOff, Supervising)
  {
    var s1 := Apply(State([Reaped], Some(0), 1, 0, MIN_BACKOFF, false, false, SawDeath, Supervising), CheckBeforeReap);
    assert s1 == State([Reaped], Some(0), 1, 0, MIN_BACKOFF, false, false, Reaping, Supervising);
  }

  lemma SuspendFindsNothing()
    ensures RunFrom(State([Reaped], None, 1, 0, MIN_BACKOFF, false, false, BackingOff, Supervising),
                    [SetSuspended, KillSuspended, WakeFromBackoff])
            == State([Reaped], None, 1, 0, MIN_BACKOFF, false, true, Spawning, Supervising)
  {
    var s1 := Apply(State([Reaped], None, 1, 0, MIN_BACKOFF, false, false, BackingOff, Supervising), SetSuspended);
    assert s1 == State([Reaped], None, 1, 0, MIN_BACKOFF, false, true, BackingOff, Supervising);
  }

  lemma NextChildIsStored()
    ensures RunFrom(State([Reaped], None, 1, 0, MIN_BACKOFF, false, true, Spawning, Supervising), [Spawn(true), Store])
            == State([Reaped, Running], Some(1), 2, 1, MIN_BACKOFF, false, true, Top, Supervising)
  {
  }

  /** Suspension does not imply that no child lives: a suspend that lands after the
      park loop and before the new child is stored finds nothing to kill. */
  lemma SuspendCanMissTheChild()
    ensures
      var s := Run([FirstSpawn(true), FirstStored, Dies(0), CheckTop, Poll(false)]
                   + [CheckBeforeReap, ReapCorpse, LeavePark] + [SetSuspended, KillSuspended, WakeFromBackoff]
                   + [Spawn(true), Store]);
      s.suspended && s.child == Some(1) && s.procs == [Reaped, Running] && s.monitor.Top?
  {
    hide Apply, RunFrom;
    var x1 := [FirstSpawn(true), FirstStored, Dies(0), CheckTop, Poll(false)];
    var x2 := x1 + [CheckBeforeReap, ReapCorpse, LeavePark];
    var x3 := x2 + [SetSuspended, KillSuspended, WakeFromBackoff];
    RunInTurn([], x1);
    assert [] + x1 == x1 && Run([]) == Init;
    FirstChildDies();
    RunInTurn(x1, [CheckBeforeReap, ReapCorpse, LeavePark]);
    CorpseIsReaped();
    RunInTurn(x2, [SetSuspended, KillSuspended, WakeFromBackoff]);
    SuspendFindsNothing();
    RunInTurn(x3, [Spawn(true), Store]);
    NextChildIsStored();
  }
}
