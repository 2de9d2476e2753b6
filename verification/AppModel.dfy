/**
 * The app-serve lifecycle as functions on values: what one observed event does
 * to one instance (`LocalStep`), how that is installed in the daemon
 * (`Install`), and how free build slots are handed out (`Dispatch`).
 *
 * The queue and the building set are not edited here: `Install` derives them
 * from the instance's new pipeline.  Module `AppState` holds the code that edits
 * them in place and is proved against these functions.
 */
module AppModel {
  import opened Wrappers

  type Name = string
  type Sha = string
  type Gen = nat

  datatype Outcome =
    | Green
    | Failed(reason: string, enospc: bool, files: seq<string>)
    | Indeterminate(reason: string)

  datatype Serving = Serving(sha: Sha, gen: Gen)

  datatype Pipeline =
    | Idle
    | Queued(sha: Sha)
    | Building(sha: Sha, gen: Gen)
    | Probing(sha: Sha, gen: Gen, respawn: bool)

  datatype Instance = Instance(
    serving: Option<Serving>,
    pipeline: Pipeline,
    pending: Option<Sha>,
    lastRed: Option<(Sha, string)>,
    lastRedFiles: seq<string>,
    lastGreen: Option<Sha>,
    draining: seq<Gen>,
    needsRespawn: bool,
    indeterminateStreak: nat,
    enospcStreak: nat,
    respawnStreak: nat)

  const Fresh := Instance(None, Idle, None, None, [], None, [], false, 0, 0, 0)

  function DiskFull(reason: string): string { "disk full, self-relief exhausted (PVC likely too small): " + reason }
  function IndeterminateTwice(reason: string): string { "indeterminate twice in a row: " + reason }
  function ProbeRed(reason: string): string { "health probe failed: " + reason }
  function RespawnRed(reason: string): string { "respawn of previously-green bundle failed health probe: " + reason }

  const ENOSPC_RETRY_CAP: nat := 2
  const RESPAWN_RETRY_CAP: nat := 2

  datatype Event =
    | HeadAdvanced(sha: Sha)
    | BuildFinished(gen: Gen, outcome: Outcome)
    | ProbeSucceeded(gen: Gen)
    | ProbeFailed(gen: Gen, reason: string)
    | ServingExited(gen: Gen)
    | DrainComplete(gen: Gen)
    | RecoverFromPointer(sha: Sha)

  datatype Action =
    | StartBuild(name: Name, sha: Sha, gen: Gen)
    | SpawnAndProbe(name: Name, sha: Sha, gen: Gen)
    | Respawn(name: Name, sha: Sha, gen: Gen)
    | Promote(name: Name, sha: Sha, gen: Gen)
    | StartDrain(name: Name, gen: Gen)
    | KillStandby(name: Name, gen: Gen)
    | RecordRed(name: Name, sha: Sha, reason: string)

  datatype Daemon = Daemon(
    instances: map<Name, Instance>,
    queue: seq<Name>,
    building: set<Name>,
    maxConcurrent: nat,
    nextGen: Gen)

  // ---------------------------------------------------------------- one instance

  /** One instance after one event: its new state, the next unused generation,
      the actions emitted for it, and whether free slots are handed out next. */
  datatype Local = Local(inst: Instance, gen: Gen, acts: seq<Action>, dispatch: bool)

  function Without<T(==)>(s: seq<T>, x: T): seq<T> {
    if s == [] then []
    else (if s[0] == x then [] else [s[0]]) + Without(s[1..], x)
  }

  /** Ask for `sha` to be built: refused when it is already serving or is the
      recorded red, otherwise folded into the pipeline. */
  function Requested(i: Instance, sha: Sha): Instance {
    if i.serving.Some? && i.serving.value.sha == sha then i
    else if i.lastRed.Some? && i.lastRed.value.0 == sha then i
    else match i.pipeline
      case Idle => i.(pipeline := Queued(sha))
      case Queued(_) => i.(pipeline := Queued(sha))
      case Building(busy, _) => if busy != sha then i.(pending := Some(sha)) else i
      case Probing(busy, _, _) => if busy != sha then i.(pending := Some(sha)) else i
  }

  predicate RespawnDue(i: Instance) {
    i.pipeline.Idle? && i.serving.None? && i.needsRespawn && i.lastGreen.Some?
  }

  function Respawned(i: Instance, n: Name, gen: Gen): Local {
    if RespawnDue(i) then
      Local(i.(needsRespawn := false, pipeline := Probing(i.lastGreen.value, gen, true)),
            gen + 1, [Respawn(n, i.lastGreen.value, gen)], false)
    else Local(i, gen, [], false)
  }

  /** An idle pipeline: restore serving first, then queue the pending sha. */
  function Settled(i: Instance, n: Name, gen: Gen): Local {
    var r := Respawned(i, n, gen);
    if r.inst.pipeline.Idle? && r.inst.pending.Some? then
      r.(inst := Requested(r.inst.(pending := None), r.inst.pending.value))
    else r
  }

  function Reddened(i: Instance, sha: Sha, reason: string, files: seq<string>): Instance {
    i.(lastRed := Some((sha, reason)), lastRedFiles := files)
  }

  /** The retry arms: rebuild the pending sha if there is one, else this one. */
  function Retried(i: Instance, sha: Sha): Instance {
    Requested(i.(pending := None), if i.pending.Some? then i.pending.value else sha)
  }

  predicate BuildAccepted(i: Instance, g: Gen) {
    i.pipeline.Building? && i.pipeline.gen == g
  }

  predicate ProbeAccepted(i: Instance, g: Gen) {
    i.pipeline.Probing? && i.pipeline.gen == g
  }

  predicate IsServing(i: Instance, g: Gen) {
    i.serving.Some? && i.serving.value.gen == g
  }

  /** What an event decides for one instance before any respawn: the instance
      and the actions so far, and whether it now stays as it is, owes itself a
      respawn, or settles (respawn first, then its pending sha). */
  datatype Move =
    | Stay(inst: Instance, acts: seq<Action>, dispatch: bool)
    | Boot(inst: Instance, acts: seq<Action>)
    | Settle(inst: Instance, acts: seq<Action>)

  function Red(i: Instance, n: Name, sha: Sha, reason: string, files: seq<string>, before: seq<Action>): Move {
    Settle(Reddened(i, sha, reason, files), before + [RecordRed(n, sha, reason)])
  }

  function OnHead(i: Instance, sha: Sha): Move {
    match i.pipeline
    case Idle => Stay(Requested(i, sha), [], true)
    case Queued(_) => Stay(i.(pipeline := Queued(sha)), [], false)
    case Building(busy, _) => Stay(if busy != sha then i.(pending := Some(sha)) else i, [], false)
    case Probing(busy, _, _) => Stay(if busy != sha then i.(pending := Some(sha)) else i, [], false)
  }

  /** A failed step: retried while the disk was full and patience lasts, else latched. */
  function OnRedBuild(i: Instance, n: Name, sha: Sha, reason: string, enospc: bool, files: seq<string>): Move {
    var idle := i.(pipeline := Idle, indeterminateStreak := 0);
    if enospc && i.enospcStreak < ENOSPC_RETRY_CAP then
      Stay(Retried(idle.(enospcStreak := i.enospcStreak + 1), sha), [], true)
    else
      Red(idle.(enospcStreak := 0), n, sha,
          if enospc then DiskFull(reason) else reason, if enospc then [] else files, [])
  }

  /** An untrusted build: retried once, red on the second in a row. */
  function OnUntrusted(i: Instance, n: Name, sha: Sha, reason: string): Move {
    var idle := i.(pipeline := Idle);
    if i.indeterminateStreak >= 1 then
      Red(idle.(indeterminateStreak := 0), n, sha, IndeterminateTwice(reason), [], [])
    else
      Stay(Retried(idle.(indeterminateStreak := i.indeterminateStreak + 1), sha), [], true)
  }

  /** The verdict on an accepted build of `sha`. */
  function OnBuilt(i: Instance, n: Name, sha: Sha, g: Gen, outcome: Outcome): Move {
    match outcome
    case Green =>
      Stay(i.(indeterminateStreak := 0, enospcStreak := 0, pipeline := Probing(sha, g, false)),
           [SpawnAndProbe(n, sha, g)], true)
    case Failed(reason, enospc, files) => OnRedBuild(i, n, sha, reason, enospc, files)
    case Indeterminate(reason) => OnUntrusted(i, n, sha, reason)
  }

  /** The instance right after the promotion of its probing child. */
  function AfterPromote(i: Instance, g: Gen): Instance
    requires ProbeAccepted(i, g)
  {
    i.(serving := Some(Serving(i.pipeline.sha, g)),
       draining := if i.serving.Some? then i.draining + [i.serving.value.gen] else i.draining,
       lastGreen := Some(i.pipeline.sha), needsRespawn := false, respawnStreak := 0, pipeline := Idle)
  }

  function OnProbed(i: Instance, n: Name, g: Gen): Move
    requires ProbeAccepted(i, g)
  {
    Settle(AfterPromote(i, g),
           [Promote(n, i.pipeline.sha, g)]
           + (if i.serving.Some? then [StartDrain(n, i.serving.value.gen)] else []))
  }

  /** A failed boot: a recovery boot is tried again while patience lasts, any
      other failure is latched. */
  function OnProbeFailure(i: Instance, n: Name, g: Gen, reason: string): Move
    requires ProbeAccepted(i, g)
  {
    var idle := i.(pipeline := Idle);
    if i.pipeline.respawn && i.respawnStreak < RESPAWN_RETRY_CAP then
      Settle(idle.(respawnStreak := i.respawnStreak + 1, needsRespawn := true), [KillStandby(n, g)])
    else
      Red(idle.(respawnStreak := if i.pipeline.respawn then 0 else i.respawnStreak), n, i.pipeline.sha,
          if i.pipeline.respawn then RespawnRed(reason) else ProbeRed(reason), [], [KillStandby(n, g)])
  }

  function OnExited(i: Instance): Move {
    var j := i.(serving := None, needsRespawn := i.lastGreen.Some?);
    match i.pipeline
    case Idle => Boot(j, [])
    case Queued(sha) =>
      if i.lastGreen.Some? then Boot(j.(pending := Some(sha), pipeline := Idle), []) else Stay(j, [], false)
    case _ => Stay(j, [], false)
  }

  /** Stale generations and out-of-phase events change nothing. */
  function Decide(i: Instance, n: Name, e: Event): Move {
    match e
    case HeadAdvanced(sha) => OnHead(i, sha)
    case BuildFinished(g, outcome) =>
      if BuildAccepted(i, g) then OnBuilt(i, n, i.pipeline.sha, g, outcome) else Stay(i, [], false)
    case ProbeSucceeded(g) =>
      if ProbeAccepted(i, g) then OnProbed(i, n, g) else Stay(i, [], false)
    case ProbeFailed(g, reason) =>
      if ProbeAccepted(i, g) then OnProbeFailure(i, n, g, reason) else Stay(i, [], false)
    case ServingExited(g) =>
      if IsServing(i, g) then OnExited(i) else Stay(i, [], false)
    case DrainComplete(g) => Stay(i.(draining := Without(i.draining, g)), [], false)
    case RecoverFromPointer(sha) =>
      if i.pipeline.Idle? && i.serving.None? then Boot(i.(lastGreen := Some(sha), needsRespawn := true), [])
      else Stay(i, [], false)
  }

  /** Carry a move out: allocate the respawn it owes, requeue what was pending. */
  function Perform(m: Move, n: Name, gen: Gen): Local {
    match m
    case Stay(j, acts, dispatch) => Local(j, gen, acts, dispatch)
    case Boot(j, acts) => var r := Respawned(j, n, gen); r.(acts := acts + r.acts)
    case Settle(j, acts) => var s := Settled(j, n, gen); s.(acts := acts + s.acts, dispatch := true)
  }

  function LocalStep(i: Instance, n: Name, e: Event, gen: Gen): Local {
    Perform(Decide(i, n, e), n, gen)
  }

  // ---------------------------------------------------------------- the daemon

  function New(names: set<Name>, maxConcurrent: nat): Daemon {
    Daemon(map n | n in names :: Fresh, [], {}, if maxConcurrent < 1 then 1 else maxConcurrent, 1)
  }

  /** Put one instance's new state in place; its queue entry and building mark
      follow from its pipeline. */
  function Install(d: Daemon, n: Name, l: Local): Daemon {
    d.(instances := d.instances[n := l.inst],
       queue := if !l.inst.pipeline.Queued? then Without(d.queue, n)
                else if n in d.queue then d.queue else d.queue + [n],
       building := if l.inst.pipeline.Building? then d.building else d.building - {n},
       nextGen := l.gen)
  }

  /** What dispatch may rely on: whoever is at the head of the queue is Queued. */
  predicate HeadDispatchable(d: Daemon) {
    d.queue != [] && d.queue[0] in d.instances && d.instances[d.queue[0]].pipeline.Queued?
  }

  predicate SlotFree(d: Daemon) {
    |d.building| < d.maxConcurrent && d.queue != []
  }

  /** Move the head of the queue into a build slot. */
  function Dispatched(d: Daemon): (r: (Daemon, Action))
    requires HeadDispatchable(d)
  {
    var n := d.queue[0];
    var sha := d.instances[n].pipeline.sha;
    (d.(instances := d.instances[n := d.instances[n].(pipeline := Building(sha, d.nextGen))],
        queue := d.queue[1..],
        building := d.building + {n},
        nextGen := d.nextGen + 1),
     StartBuild(n, sha, d.nextGen))
  }

  /** Hand out slots while one is free and someone waits.  A queue head that is
      not Queued is the source's `unreachable!`; it stops here, and module
      AppInvariant proves it never happens. */
  function Dispatch(d: Daemon): (Daemon, seq<Action>)
    decreases |d.queue|
  {
    if SlotFree(d) && HeadDispatchable(d) then
      var (d1, a) := Dispatched(d);
      var (d2, rest) := Dispatch(d1);
      (d2, [a] + rest)
    else (d, [])
  }

  function Step(d: Daemon, n: Name, e: Event): (Daemon, seq<Action>) {
    if n !in d.instances then (d, [])
    else
      var l := LocalStep(d.instances[n], n, e, d.nextGen);
      var d1 := Install(d, n, l);
      if l.dispatch then
        var (d2, starts) := Dispatch(d1);
        (d2, l.acts + starts)
      else (d1, l.acts)
  }

  function Added(d: Daemon, n: Name): Daemon {
    if n in d.instances then d else d.(instances := d.instances[n := Fresh])
  }

  function Removed(d: Daemon, n: Name): Daemon {
    d.(instances := d.instances - {n}, queue := Without(d.queue, n), building := d.building - {n})
  }
}
