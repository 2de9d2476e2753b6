/**
 * Whole runs of the lifecycle: the log of inputs and actions, what the log says
 * about one instance since it was last removed (`Digest`), and how the state of
 * every instance is backed by it.
 */
module AppHistory {
  import opened Wrappers
  import opened AppModel
  import opened AppInvariant

  datatype Entry = In(input: Input) | Out(action: Action)

  /** What the log says about one instance in its current lifetime. */
  datatype Facts = Facts(
    present: bool,
    newest: Option<Sha>,           // the last HEAD observed
    mentioned: set<Sha>,           // named by a HEAD or a recovery
    reported: set<(Sha, Gen)>,     // StartBuild, then its result, Green
    built: set<(Sha, Gen)>,        // ... then SpawnAndProbe
    respawned: set<(Sha, Gen)>,    // Respawn of a sha promoted or recovered before
    promoted: set<Sha>,
    recovered: set<Sha>,
    reds: set<Sha>,
    unretried: set<Sha>,           // RecordRed with no HEAD of that sha since
    openBuild: Option<(Sha, Gen)>, // StartBuild with no result yet
    undecided: nat,                // results since the last SpawnAndProbe or RecordRed
    openBoot: Option<Gen>,         // Respawn with no probe result yet
    failedBoots: nat)              // failed recovery boots since the last Promote or RecordRed

  const Blank := Facts(false, None, {}, {}, {}, {}, {}, {}, {}, {}, None, 0, None, 0)

  function Heard(f: Facts, e: Event): Facts {
    match e
    case HeadAdvanced(sha) =>
      f.(newest := Some(sha), mentioned := f.mentioned + {sha}, unretried := f.unretried - {sha})
    case BuildFinished(g, outcome) =>
      if f.openBuild.Some? && f.openBuild.value.1 == g then
        f.(reported := if outcome.Green? then f.reported + {f.openBuild.value} else f.reported,
           openBuild := None, undecided := f.undecided + 1)
      else f
    case ProbeFailed(g, _) =>
      f.(openBoot := if f.openBoot == Some(g) then None else f.openBoot,
         failedBoots := if f.openBoot == Some(g) then f.failedBoots + 1 else f.failedBoots)
    case RecoverFromPointer(sha) =>
      f.(mentioned := f.mentioned + {sha}, recovered := f.recovered + {sha})
    case _ => f
  }

  function Ordered(f: Facts, a: Action): Facts {
    match a
    case StartBuild(_, sha, g) => f.(openBuild := Some((sha, g)))
    case SpawnAndProbe(_, sha, g) =>
      f.(built := if (sha, g) in f.reported then f.built + {(sha, g)} else f.built, undecided := 0)
    case Respawn(_, sha, g) =>
      f.(respawned := if sha in f.promoted || sha in f.recovered then f.respawned + {(sha, g)} else f.respawned,
         openBoot := Some(g))
    case Promote(_, sha, _) =>
      f.(promoted := f.promoted + {sha}, openBoot := None, failedBoots := 0)
    case RecordRed(_, sha, _) =>
      f.(reds := f.reds + {sha}, unretried := f.unretried + {sha}, undecided := 0, failedBoots := 0)
    case StartDrain(_, _) => f
    case KillStandby(_, _) => f
  }

  function Noted(f: Facts, e: Entry, n: Name): Facts {
    match e
    case In(Add(m)) => if m == n && !f.present then Blank.(present := true) else f
    case In(Remove(m)) => if m == n then Blank else f
    case In(Observe(m, ev)) => if m == n && f.present then Heard(f, ev) else f
    case Out(a) => if a.name == n && f.present then Ordered(f, a) else f
  }

  /** The facts about `n` after the log, in a daemon started with `names`. */
  function Digest(names: set<Name>, log: seq<Entry>, n: Name): Facts {
    if log == [] then Blank.(present := n in names)
    else Noted(Digest(names, log[..|log| - 1], n), log[|log| - 1], n)
  }

  lemma DigestSnoc(names: set<Name>, log: seq<Entry>, e: Entry, n: Name)
    ensures Digest(names, log + [e], n) == Noted(Digest(names, log, n), e, n)
  {
    assert (log + [e])[..|log|] == log;
  }

  // ------------------------------------------------------------ backing

  /** Where everything an instance holds came from. */
  predicate Backed(i: Instance, f: Facts) {
    && f.present
    && (i.pipeline.Probing? && !i.pipeline.respawn ==> (i.pipeline.sha, i.pipeline.gen) in f.built)
    && (i.pipeline.Probing? && i.pipeline.respawn ==> (i.pipeline.sha, i.pipeline.gen) in f.respawned)
    && (i.serving.Some? ==> i.serving.value.sha in f.promoted)
    && (i.lastGreen.Some? ==> i.lastGreen.value in f.promoted || i.lastGreen.value in f.recovered)
    && (i.lastRed.Some? ==> i.lastRed.value.0 in f.reds)
  }

  /** The build in the pipeline is the one the log has open. */
  predicate Open(i: Instance, f: Facts) {
    f.openBuild == if i.pipeline.Building? then Some((i.pipeline.sha, i.pipeline.gen)) else None
  }

  /** Every sha an instance holds, promoted or recorded red was named by a HEAD
      or a recovery. */
  predicate Named(i: Instance, f: Facts) {
    && f.promoted <= f.mentioned && f.reds <= f.mentioned
    && (!i.pipeline.Idle? ==> i.pipeline.sha in f.mentioned)
    && (i.pending.Some? ==> i.pending.value in f.mentioned)
    && (i.lastGreen.Some? ==> i.lastGreen.value in f.mentioned)
  }

  /** A red with no HEAD since is neither queued, building, pending nor probing
      as a new build. */
  predicate Abstains(i: Instance, f: Facts) {
    && (i.pipeline.Queued? || i.pipeline.Building? ==> i.pipeline.sha !in f.unretried)
    && (i.pipeline.Probing? && !i.pipeline.respawn ==> i.pipeline.sha !in f.unretried)
    && (i.pending.Some? ==> i.pending.value !in f.unretried)
    && ((i.pipeline.Building? || (i.pipeline.Probing? && !i.pipeline.respawn)) ==> i.pending != Some(i.pipeline.sha))
  }

  /** How many more inconclusive results an instance can take. */
  function Patience(i: Instance): int {
    2 * (ENOSPC_RETRY_CAP - i.enospcStreak) + (1 - i.indeterminateStreak)
  }

  /** Verdicts and failed recovery boots are counted by the streaks. */
  predicate Counted(i: Instance, f: Facts) {
    && Open(i, f)
    && f.undecided + Patience(i) <= 5
    && (i.pipeline.Probing? && i.pipeline.respawn ==> f.openBoot == Some(i.pipeline.gen))
    && (f.openBoot.Some? ==> i.pipeline.Probing? && i.pipeline.respawn)
    && f.failedBoots <= i.respawnStreak
  }

  /** The newest HEAD is what the instance is working towards. */
  predicate Tracks(i: Instance, f: Facts) {
    && (i.pipeline.Queued? ==> f.newest == Some(i.pipeline.sha))
    && (i.pending.Some? ==> f.newest == i.pending)
    && ((i.pipeline.Building? || (i.pipeline.Probing? && !i.pipeline.respawn)) && i.pending.None? ==>
          f.newest == Some(i.pipeline.sha))
    && (f.newest.Some? ==> Located(i, f.newest.value) || Decided(f, f.newest.value))
  }

  /** In the pipeline or waiting behind it. */
  predicate Located(i: Instance, sha: Sha) {
    (!i.pipeline.Idle? && i.pipeline.sha == sha) || i.pending == Some(sha)
  }

  /** Settled by an emitted Promote or RecordRed. */
  predicate Decided(f: Facts, sha: Sha) {
    sha in f.promoted || sha in f.reds
  }

  // ------------------------------------------------------------ folding actions

  function OrderedAll(f: Facts, acts: seq<Action>): Facts
    decreases |acts|
  {
    if acts == [] then f else OrderedAll(Ordered(f, acts[0]), acts[1..])
  }

  lemma {:induction false} OrderedConcat(f: Facts, a: seq<Action>, b: seq<Action>)
    ensures OrderedAll(f, a + b) == OrderedAll(OrderedAll(f, a), b)
    decreases |a|
  {
    if a == [] {
      assert a + b == b;
    } else {
      assert (a + b)[1..] == a[1..] + b;
      OrderedConcat(Ordered(f, a[0]), a[1..], b);
    }
  }

  lemma ShortFold(f: Facts, acts: seq<Action>)
    ensures |acts| == 0 ==> OrderedAll(f, acts) == f
    ensures |acts| == 1 ==> OrderedAll(f, acts) == Ordered(f, acts[0])
    ensures |acts| == 2 ==> OrderedAll(f, acts) == Ordered(Ordered(f, acts[0]), acts[1])
  {
    if |acts| == 2 {
      var rest := acts[1..];
      assert rest[1..] == [] && OrderedAll(Ordered(f, acts[0]), rest) == Ordered(Ordered(f, acts[0]), rest[0]);
    }
  }

  /** The facts after an event and the actions decided for it, before a respawn. */
  function AfterDecision(f: Facts, n: Name, i: Instance, e: Event): Facts {
    OrderedAll(Heard(f, e), Decide(i, n, e).acts)
  }

  /** The facts after the respawn a move owes, if it owes one. */
  function Booted(m: Move, n: Name, gen: Gen, f: Facts): Facts {
    if !m.Stay? && RespawnDue(m.inst) then Ordered(f, Respawn(n, m.inst.lastGreen.value, gen)) else f
  }

  lemma TakenFold(i: Instance, n: Name, e: Event, gen: Gen, f: Facts)
    ensures OrderedAll(Heard(f, e), LocalStep(i, n, e, gen).acts)
         == Booted(Decide(i, n, e), n, gen, AfterDecision(f, n, i, e))
  {
    var m := Decide(i, n, e);
    if !m.Stay? {
      var rest := Respawned(m.inst, n, gen).acts;
      OrderedConcat(Heard(f, e), m.acts, rest);
      ShortFold(OrderedAll(Heard(f, e), m.acts), rest);
    }
  }

  // ------------------------------------------------------------ Backed

  lemma RedBacked(i: Instance, n: Name, sha: Sha, reason: string, files: seq<string>, before: seq<Action>, f: Facts)
    requires Backed(i, f) && i.pipeline.Idle?
    requires before == [] || (|before| == 1 && before[0].KillStandby?)
    ensures
      var m := Red(i, n, sha, reason, files, before);
      Backed(m.inst, OrderedAll(f, m.acts))
  {
    ShortFold(f, Red(i, n, sha, reason, files, before).acts);
  }

  lemma RetriedBacked(i: Instance, sha: Sha, f: Facts)
    requires Backed(i, f) && i.pipeline.Idle?
    ensures Backed(Retried(i, sha), f)
  {
  }

  lemma RedBuildBacked(i: Instance, n: Name, reason: string, enospc: bool, files: seq<string>, f: Facts)
    requires Backed(i, f) && i.pipeline.Building?
    ensures
      var m := OnRedBuild(i, n, i.pipeline.sha, reason, enospc, files);
      Backed(m.inst, OrderedAll(f, m.acts))
  {
    ShortFold(f, OnRedBuild(i, n, i.pipeline.sha, reason, enospc, files).acts);
  }

  lemma UntrustedBacked(i: Instance, n: Name, reason: string, f: Facts)
    requires Backed(i, f) && i.pipeline.Building?
    ensures
      var m := OnUntrusted(i, n, i.pipeline.sha, reason);
      Backed(m.inst, OrderedAll(f, m.acts))
  {
    var sha := i.pipeline.sha;
    var idle := i.(pipeline := Idle);
    if i.indeterminateStreak >= 1 {
      RedBacked(idle.(indeterminateStreak := 0), n, sha, IndeterminateTwice(reason), [], [], f);
    } else {
      RetriedBacked(idle.(indeterminateStreak := i.indeterminateStreak + 1), sha, f);
    }
  }

  lemma BuiltBacked(i: Instance, n: Name, g: Gen, outcome: Outcome, f: Facts)
    requires Backed(i, f) && Open(i, f) && BuildAccepted(i, g)
    ensures
      var m := OnBuilt(i, n, i.pipeline.sha, g, outcome);
      Backed(m.inst, OrderedAll(Heard(f, BuildFinished(g, outcome)), m.acts))
  {
    var h := Heard(f, BuildFinished(g, outcome));
    match outcome
    case Green => ShortFold(h, OnBuilt(i, n, i.pipeline.sha, g, outcome).acts);
    case Failed(reason, enospc, files) => RedBuildBacked(i, n, reason, enospc, files, h);
    case Indeterminate(reason) => UntrustedBacked(i, n, reason, h);
  }

  lemma ProbedBacked(i: Instance, n: Name, g: Gen, f: Facts)
    requires Backed(i, f) && ProbeAccepted(i, g)
    ensures Backed(OnProbed(i, n, g).inst, OrderedAll(f, OnProbed(i, n, g).acts))
  {
    ShortFold(f, OnProbed(i, n, g).acts);
  }

  lemma ProbeFailureBacked(i: Instance, n: Name, g: Gen, reason: string, f: Facts)
    requires Backed(i, f) && ProbeAccepted(i, g)
    ensures
      var m := OnProbeFailure(i, n, g, reason);
      Backed(m.inst, OrderedAll(f, m.acts))
  {
    ShortFold(f, OnProbeFailure(i, n, g, reason).acts);
  }

  lemma ExitedBacked(i: Instance, n: Name, f: Facts)
    requires Backed(i, f)
    ensures Backed(OnExited(i).inst, f) && OnExited(i).acts == []
  {
  }

  lemma HeadBacked(i: Instance, sha: Sha, f: Facts)
    requires Backed(i, f)
    ensures Backed(OnHead(i, sha).inst, Heard(f, HeadAdvanced(sha))) && OnHead(i, sha).acts == []
  {
  }

  lemma DecideBacked(i: Instance, n: Name, e: Event, f: Facts)
    requires Backed(i, f) && Open(i, f)
    ensures Backed(Decide(i, n, e).inst, AfterDecision(f, n, i, e))
  {
    match e
    case HeadAdvanced(sha) => HeadBacked(i, sha, f);
    case BuildFinished(g, outcome) =>
      if BuildAccepted(i, g) { BuiltBacked(i, n, g, outcome, f); }
    case ProbeSucceeded(g) =>
      if ProbeAccepted(i, g) { ProbedBacked(i, n, g, f); }
    case ProbeFailed(g, reason) =>
      if ProbeAccepted(i, g) { ProbeFailureBacked(i, n, g, reason, Heard(f, e)); }
    case ServingExited(g) => ExitedBacked(i, n, f);
    case _ =>
  }

  lemma PerformBacked(m: Move, n: Name, gen: Gen, f: Facts)
    requires Backed(m.inst, f)
    ensures Backed(Perform(m, n, gen).inst, Booted(m, n, gen, f))
  {
  }

  lemma LocalBacked(i: Instance, n: Name, e: Event, gen: Gen, f: Facts)
    requires Backed(i, f) && Open(i, f)
    ensures
      var l := LocalStep(i, n, e, gen);
      Backed(l.inst, OrderedAll(Heard(f, e), l.acts))
  {
    TakenFold(i, n, e, gen, f);
    DecideBacked(i, n, e, f);
    PerformBacked(Decide(i, n, e), n, gen, AfterDecision(f, n, i, e));
  }

  // ------------------------------------------------------------ Named

  lemma RedNamed(i: Instance, n: Name, sha: Sha, reason: string, files: seq<string>, before: seq<Action>, f: Facts)
    requires Named(i, f) && i.pipeline.Idle? && sha in f.mentioned
    requires before == [] || (|before| == 1 && before[0].KillStandby?)
    ensures
      var m := Red(i, n, sha, reason, files, before);
      Named(m.inst, OrderedAll(f, m.acts))
  {
    ShortFold(f, Red(i, n, sha, reason, files, before).acts);
  }

  lemma RetriedNamed(i: Instance, sha: Sha, f: Facts)
    requires Named(i, f) && i.pipeline.Idle? && sha in f.mentioned
    ensures Named(Retried(i, sha), f)
  {
  }

  lemma RedBuildNamed(i: Instance, n: Name, reason: string, enospc: bool, files: seq<string>, f: Facts)
    requires Named(i, f) && i.pipeline.Building?
    ensures
      var m := OnRedBuild(i, n, i.pipeline.sha, reason, enospc, files);
      Named(m.inst, OrderedAll(f, m.acts))
  {
    var sha := i.pipeline.sha;
    var idle := i.(pipeline := Idle, indeterminateStreak := 0);
    if enospc && i.enospcStreak < ENOSPC_RETRY_CAP {
      RetriedNamed(idle.(enospcStreak := i.enospcStreak + 1), sha, f);
    } else {
      RedNamed(idle.(enospcStreak := 0), n, sha,
             if enospc then DiskFull(reason) else reason, if enospc then [] else files, [], f);
    }
  }

  lemma UntrustedNamed(i: Instance, n: Name, reason: string, f: Facts)
    requires Named(i, f) && i.pipeline.Building?
    ensures
      var m := OnUntrusted(i, n, i.pipeline.sha, reason);
      Named(m.inst, OrderedAll(f, m.acts))
  {
    var sha := i.pipeline.sha;
    var idle := i.(pipeline := Idle);
    if i.indeterminateStreak >= 1 {
      RedNamed(idle.(indeterminateStreak := 0), n, sha, IndeterminateTwice(reason), [], [], f);
    } else {
      RetriedNamed(idle.(indeterminateStreak := i.indeterminateStreak + 1), sha, f);
    }
  }

  lemma BuiltNamed(i: Instance, n: Name, g: Gen, outcome: Outcome, f: Facts)
    requires Named(i, f) && BuildAccepted(i, g)
    ensures
      var m := OnBuilt(i, n, i.pipeline.sha, g, outcome);
      Named(m.inst, OrderedAll(Heard(f, BuildFinished(g, outcome)), m.acts))
  {
    var h := Heard(f, BuildFinished(g, outcome));
    match outcome
    case Green => ShortFold(h, OnBuilt(i, n, i.pipeline.sha, g, outcome).acts);
    case Failed(reason, enospc, files) => RedBuildNamed(i, n, reason, enospc, files, h);
    case Indeterminate(reason) => UntrustedNamed(i, n, reason, h);
  }

  lemma ProbedNamed(i: Instance, n: Name, g: Gen, f: Facts)
    requires Named(i, f) && ProbeAccepted(i, g)
    ensures Named(OnProbed(i, n, g).inst, OrderedAll(f, OnProbed(i, n, g).acts))
  {
    ShortFold(f, OnProbed(i, n, g).acts);
  }

  lemma ProbeFailureNamed(i: Instance, n: Name, g: Gen, reason: string, f: Facts)
    requires Named(i, f) && ProbeAccepted(i, g)
    ensures
      var m := OnProbeFailure(i, n, g, reason);
      Named(m.inst, OrderedAll(f, m.acts))
  {
    ShortFold(f, OnProbeFailure(i, n, g, reason).acts);
  }

  lemma ExitedNamed(i: Instance, n: Name, f: Facts)
    requires Named(i, f)
    ensures Named(OnExited(i).inst, f) && OnExited(i).acts == []
  {
  }

  lemma DecideNamed(i: Instance, n: Name, e: Event, f: Facts)
    requires Named(i, f)
    ensures Named(Decide(i, n, e).inst, AfterDecision(f, n, i, e))
  {
    match e
    case BuildFinished(g, outcome) =>
      if BuildAccepted(i, g) { BuiltNamed(i, n, g, outcome, f); }
    case ProbeSucceeded(g) =>
      if ProbeAccepted(i, g) { ProbedNamed(i, n, g, f); }
    case ProbeFailed(g, reason) =>
      if ProbeAccepted(i, g) { ProbeFailureNamed(i, n, g, reason, Heard(f, e)); }
    case ServingExited(g) => ExitedNamed(i, n, f);
    case _ =>
  }

  lemma PerformNamed(m: Move, n: Name, gen: Gen, f: Facts)
    requires Named(m.inst, f)
    ensures Named(Perform(m, n, gen).inst, Booted(m, n, gen, f))
  {
  }

  lemma LocalNamed(i: Instance, n: Name, e: Event, gen: Gen, f: Facts)
    requires Named(i, f)
    ensures
      var l := LocalStep(i, n, e, gen);
      Named(l.inst, OrderedAll(Heard(f, e), l.acts))
  {
    TakenFold(i, n, e, gen, f);
    DecideNamed(i, n, e, f);
    PerformNamed(Decide(i, n, e), n, gen, AfterDecision(f, n, i, e));
  }

  // ------------------------------------------------------------ Abstains

  lemma RedBuildAbstains(i: Instance, n: Name, reason: string, enospc: bool, files: seq<string>, f: Facts, h: Facts)
    requires InstanceOk(i) && Abstains(i, f) && i.pipeline.Building?
    requires h == Heard(f, BuildFinished(i.pipeline.gen, Failed(reason, enospc, files)))
    ensures
      var m := OnRedBuild(i, n, i.pipeline.sha, reason, enospc, files);
      if m.Stay? then Abstains(m.inst, OrderedAll(h, m.acts)) else AbstainsOnce(m.inst, OrderedAll(h, m.acts))
  {
    hide DiskFull;
    ShortFold(h, OnRedBuild(i, n, i.pipeline.sha, reason, enospc, files).acts);
  }

  lemma UntrustedAbstains(i: Instance, n: Name, reason: string, f: Facts, h: Facts)
    requires InstanceOk(i) && Abstains(i, f) && i.pipeline.Building?
    requires h == Heard(f, BuildFinished(i.pipeline.gen, Indeterminate(reason)))
    ensures
      var m := OnUntrusted(i, n, i.pipeline.sha, reason);
      if m.Stay? then Abstains(m.inst, OrderedAll(h, m.acts)) else AbstainsOnce(m.inst, OrderedAll(h, m.acts))
  {
    ShortFold(h, OnUntrusted(i, n, i.pipeline.sha, reason).acts);
  }

  lemma BuiltAbstains(i: Instance, n: Name, g: Gen, outcome: Outcome, f: Facts)
    requires InstanceOk(i) && Abstains(i, f) && BuildAccepted(i, g)
    ensures
      var m := OnBuilt(i, n, i.pipeline.sha, g, outcome);
      var h := Heard(f, BuildFinished(g, outcome));
      if m.Stay? then Abstains(m.inst, OrderedAll(h, m.acts)) else AbstainsOnce(m.inst, OrderedAll(h, m.acts))
  {
    var h := Heard(f, BuildFinished(g, outcome));
    match outcome
    case Green => ShortFold(h, OnBuilt(i, n, i.pipeline.sha, g, outcome).acts);
    case Failed(reason, enospc, files) => RedBuildAbstains(i, n, reason, enospc, files, f, h);
    case Indeterminate(reason) => UntrustedAbstains(i, n, reason, f, h);
  }

  lemma ProbeFailureAbstains(i: Instance, n: Name, g: Gen, reason: string, f: Facts)
    requires InstanceOk(i) && Abstains(i, f) && ProbeAccepted(i, g)
    ensures
      var m := OnProbeFailure(i, n, g, reason);
      var h := Heard(f, ProbeFailed(g, reason));
      if m.Stay? then Abstains(m.inst, OrderedAll(h, m.acts)) else AbstainsOnce(m.inst, OrderedAll(h, m.acts))
  {
    ShortFold(Heard(f, ProbeFailed(g, reason)), OnProbeFailure(i, n, g, reason).acts);
  }

  /** Idle, with a pending sha that is either fit to be queued or about to be refused. */
  predicate AbstainsOnce(i: Instance, f: Facts) {
    && i.pipeline.Idle?
    && (i.pending.Some? && i.pending.value in f.unretried ==>
          !RespawnDue(i) && i.lastRed.Some? && i.lastRed.value.0 == i.pending.value)
  }

  lemma HeadAbstains(i: Instance, sha: Sha, f: Facts)
    requires InstanceOk(i) && Abstains(i, f)
    ensures Abstains(OnHead(i, sha).inst, Heard(f, HeadAdvanced(sha))) && OnHead(i, sha).acts == []
  {
  }

  lemma ProbedAbstains(i: Instance, n: Name, g: Gen, f: Facts)
    requires InstanceOk(i) && Abstains(i, f) && ProbeAccepted(i, g)
    ensures AbstainsOnce(OnProbed(i, n, g).inst, OrderedAll(f, OnProbed(i, n, g).acts))
  {
    ShortFold(f, OnProbed(i, n, g).acts);
  }

  lemma DecideAbstains(i: Instance, n: Name, e: Event, f: Facts)
    requires InstanceOk(i) && Abstains(i, f)
    ensures
      var m := Decide(i, n, e);
      var f1 := AfterDecision(f, n, i, e);
      if m.Stay? then Abstains(m.inst, f1) else AbstainsOnce(m.inst, f1) && (m.Boot? ==> Abstains(m.inst, f1))
  {
    match e
    case HeadAdvanced(sha) => HeadAbstains(i, sha, f);
    case BuildFinished(g, outcome) =>
      if BuildAccepted(i, g) { BuiltAbstains(i, n, g, outcome, f); }
    case ProbeSucceeded(g) =>
      if ProbeAccepted(i, g) { ProbedAbstains(i, n, g, f); }
    case ProbeFailed(g, reason) =>
      if ProbeAccepted(i, g) { ProbeFailureAbstains(i, n, g, reason, f); }
    case _ =>
  }

  lemma LocalAbstains(i: Instance, n: Name, e: Event, gen: Gen, f: Facts)
    requires InstanceOk(i) && Abstains(i, f)
    ensures
      var l := LocalStep(i, n, e, gen);
      Abstains(l.inst, OrderedAll(Heard(f, e), l.acts))
  {
    hide Decide, OrderedAll, Heard, AfterDecision;
    TakenFold(i, n, e, gen, f);
    DecideAbstains(i, n, e, f);
  }

  // ------------------------------------------------------------ Counted

  lemma RedBuildCounted(i: Instance, n: Name, reason: string, enospc: bool, files: seq<string>, f: Facts, h: Facts)
    requires InstanceOk(i) && Counted(i, f) && i.pipeline.Building?
    requires h == Heard(f, BuildFinished(i.pipeline.gen, Failed(reason, enospc, files)))
    ensures
      var m := OnRedBuild(i, n, i.pipeline.sha, reason, enospc, files);
      Counted(m.inst, OrderedAll(h, m.acts))
  {
    hide DiskFull;
    ShortFold(h, OnRedBuild(i, n, i.pipeline.sha, reason, enospc, files).acts);
  }

  lemma UntrustedCounted(i: Instance, n: Name, reason: string, f: Facts, h: Facts)
    requires InstanceOk(i) && Counted(i, f) && i.pipeline.Building?
    requires h == Heard(f, BuildFinished(i.pipeline.gen, Indeterminate(reason)))
    ensures
      var m := OnUntrusted(i, n, i.pipeline.sha, reason);
      Counted(m.inst, OrderedAll(h, m.acts))
  {
    ShortFold(h, OnUntrusted(i, n, i.pipeline.sha, reason).acts);
  }

  lemma BuiltCounted(i: Instance, n: Name, g: Gen, outcome: Outcome, f: Facts)
    requires InstanceOk(i) && Counted(i, f) && BuildAccepted(i, g)
    ensures
      var m := OnBuilt(i, n, i.pipeline.sha, g, outcome);
      var h := Heard(f, BuildFinished(g, outcome));
      Counted(m.inst, OrderedAll(h, m.acts))
  {
    var h := Heard(f, BuildFinished(g, outcome));
    match outcome
    case Green => ShortFold(h, OnBuilt(i, n, i.pipeline.sha, g, outcome).acts);
    case Failed(reason, enospc, files) => RedBuildCounted(i, n, reason, enospc, files, f, h);
    case Indeterminate(reason) => UntrustedCounted(i, n, reason, f, h);
  }

  lemma ProbeFailureCounted(i: Instance, n: Name, g: Gen, reason: string, f: Facts)
    requires InstanceOk(i) && Counted(i, f) && ProbeAccepted(i, g)
    ensures
      var m := OnProbeFailure(i, n, g, reason);
      var h := Heard(f, ProbeFailed(g, reason));
      Counted(m.inst, OrderedAll(h, m.acts))
  {
    ShortFold(Heard(f, ProbeFailed(g, reason)), OnProbeFailure(i, n, g, reason).acts);
  }

  lemma DecideCounted(i: Instance, n: Name, e: Event, f: Facts)
    requires InstanceOk(i) && Counted(i, f)
    ensures Counted(Decide(i, n, e).inst, AfterDecision(f, n, i, e))
  {
    ShortFold(Heard(f, e), Decide(i, n, e).acts);
    match e
    case BuildFinished(g, outcome) =>
      if BuildAccepted(i, g) { BuiltCounted(i, n, g, outcome, f); }
    case ProbeFailed(g, reason) =>
      if ProbeAccepted(i, g) { ProbeFailureCounted(i, n, g, reason, f); }
    case _ =>
  }

  lemma LocalCounted(i: Instance, n: Name, e: Event, gen: Gen, f: Facts)
    requires InstanceOk(i) && Counted(i, f)
    ensures
      var l := LocalStep(i, n, e, gen);
      Counted(l.inst, OrderedAll(Heard(f, e), l.acts))
  {
    hide Decide, OrderedAll, Heard, AfterDecision;
    TakenFold(i, n, e, gen, f);
    DecideCounted(i, n, e, f);
  }

  // ------------------------------------------------------------ Tracks

  /** The HEAD came back to the busy sha while an older one is still pending:
      the one arrival that leaves the newest HEAD behind an older one. */
  predicate Returns(i: Instance, sha: Sha) {
    (i.pipeline.Building? || i.pipeline.Probing?) && i.pipeline.sha == sha && i.pending.Some?
  }

  /** `Tracks`, now or once the respawn the move owes is booting. */
  predicate TracksBy(m: Move, f: Facts) {
    Tracks(m.inst, f) || (RespawnDue(m.inst) && !m.Stay? && Tracks(Respawned(m.inst, "", 0).inst, f))
  }

  lemma RetriedTracks(i: Instance, j: Instance, f: Facts)
    requires InstanceOk(i) && Backed(i, f) && Tracks(i, f) && i.pipeline.Building?
    requires j == i.(pipeline := Idle, indeterminateStreak := j.indeterminateStreak, enospcStreak := j.enospcStreak)
    ensures Tracks(Retried(j, i.pipeline.sha), f)
  {
  }

  lemma RedTracks(i: Instance, j: Instance, n: Name, reason: string, files: seq<string>, f: Facts)
    requires InstanceOk(i) && Backed(i, f) && Tracks(i, f) && i.pipeline.Building?
    requires j == i.(pipeline := Idle, indeterminateStreak := j.indeterminateStreak, enospcStreak := j.enospcStreak)
    ensures
      var m := Red(j, n, i.pipeline.sha, reason, files, []);
      Tracks(m.inst, OrderedAll(f, m.acts))
  {
    ShortFold(f, Red(j, n, i.pipeline.sha, reason, files, []).acts);
  }

  lemma RedBuildTracks(i: Instance, n: Name, reason: string, enospc: bool, files: seq<string>, f: Facts)
    requires InstanceOk(i) && Backed(i, f) && Tracks(i, f) && i.pipeline.Building?
    ensures
      var m := OnRedBuild(i, n, i.pipeline.sha, reason, enospc, files);
      Tracks(m.inst, OrderedAll(f, m.acts))
  {
    hide DiskFull;
    var idle := i.(pipeline := Idle, indeterminateStreak := 0);
    if enospc && i.enospcStreak < ENOSPC_RETRY_CAP {
      RetriedTracks(i, idle.(enospcStreak := i.enospcStreak + 1), f);
    } else {
      RedTracks(i, idle.(enospcStreak := 0), n,
                if enospc then DiskFull(reason) else reason, if enospc then [] else files, f);
    }
  }

  lemma UntrustedTracks(i: Instance, n: Name, reason: string, f: Facts)
    requires InstanceOk(i) && Backed(i, f) && Tracks(i, f) && i.pipeline.Building?
    ensures
      var m := OnUntrusted(i, n, i.pipeline.sha, reason);
      Tracks(m.inst, OrderedAll(f, m.acts))
  {
    var idle := i.(pipeline := Idle);
    if i.indeterminateStreak >= 1 {
      RedTracks(i, idle.(indeterminateStreak := 0), n, IndeterminateTwice(reason), [], f);
    } else {
      RetriedTracks(i, idle.(indeterminateStreak := i.indeterminateStreak + 1), f);
    }
  }

  lemma BuiltTracks(i: Instance, n: Name, g: Gen, outcome: Outcome, f: Facts)
    requires InstanceOk(i) && Backed(i, f) && Tracks(i, f) && BuildAccepted(i, g)
    ensures
      var m := OnBuilt(i, n, i.pipeline.sha, g, outcome);
      var h := Heard(f, BuildFinished(g, outcome));
      TracksBy(m, OrderedAll(h, m.acts))
  {
    var h := Heard(f, BuildFinished(g, outcome));
    match outcome
    case Green => ShortFold(h, OnBuilt(i, n, i.pipeline.sha, g, outcome).acts);
    case Failed(reason, enospc, files) => RedBuildTracks(i, n, reason, enospc, files, h);
    case Indeterminate(reason) => UntrustedTracks(i, n, reason, h);
  }

  lemma ProbeFailureTracks(i: Instance, n: Name, g: Gen, reason: string, f: Facts)
    requires InstanceOk(i) && Backed(i, f) && Tracks(i, f) && ProbeAccepted(i, g)
    ensures
      var m := OnProbeFailure(i, n, g, reason);
      var h := Heard(f, ProbeFailed(g, reason));
      TracksBy(m, OrderedAll(h, m.acts))
  {
    hide ProbeRed, RespawnRed;
    ShortFold(Heard(f, ProbeFailed(g, reason)), OnProbeFailure(i, n, g, reason).acts);
  }

  lemma HeadTracks(i: Instance, n: Name, sha: Sha, f: Facts)
    requires InstanceOk(i) && Backed(i, f) && Tracks(i, f) && !Returns(i, sha)
    ensures
      var m := OnHead(i, sha);
      m.Stay? && m.acts == [] && Tracks(m.inst, Heard(f, HeadAdvanced(sha)))
  {
  }

  lemma ProbedTracks(i: Instance, n: Name, g: Gen, f: Facts)
    requires InstanceOk(i) && Backed(i, f) && Tracks(i, f) && ProbeAccepted(i, g)
    ensures TracksBy(OnProbed(i, n, g), OrderedAll(f, OnProbed(i, n, g).acts))
  {
    ShortFold(f, OnProbed(i, n, g).acts);
  }

  lemma DecideTracks(i: Instance, n: Name, e: Event, f: Facts)
    requires InstanceOk(i) && Backed(i, f) && Tracks(i, f)
    requires e.HeadAdvanced? ==> !Returns(i, e.sha)
    ensures
      var m := Decide(i, n, e);
      var f1 := AfterDecision(f, n, i, e);
      TracksBy(m, f1)
  {
    match e
    case HeadAdvanced(sha) => HeadTracks(i, n, sha, f);
    case BuildFinished(g, outcome) =>
      if BuildAccepted(i, g) { BuiltTracks(i, n, g, outcome, f); }
    case ProbeSucceeded(g) =>
      if ProbeAccepted(i, g) { ProbedTracks(i, n, g, f); }
    case ProbeFailed(g, reason) =>
      if ProbeAccepted(i, g) { ProbeFailureTracks(i, n, g, reason, f); }
    case _ =>
  }

  lemma LocalTracks(i: Instance, n: Name, e: Event, gen: Gen, f: Facts)
    requires InstanceOk(i) && Backed(i, f) && Open(i, f) && Tracks(i, f)
    requires e.HeadAdvanced? ==> !Returns(i, e.sha)
    ensures
      var l := LocalStep(i, n, e, gen);
      Tracks(l.inst, OrderedAll(Heard(f, e), l.acts))
  {
    hide Decide, OrderedAll, Heard, AfterDecision;
    TakenFold(i, n, e, gen, f);
    DecideTracks(i, n, e, f);
    DecideBacked(i, n, e, f);
  }
}
