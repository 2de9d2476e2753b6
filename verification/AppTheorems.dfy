/**
 * The promises of the lifecycle in the words of the log: positions of entries,
 * not digests of them.
 */
module AppTheorems {
  import opened Wrappers
  import opened AppModel
  import opened AppInvariant
  import opened AppHistory
  import opened AppRuns

  // ------------------------------------------------------------ reading the digest back

  /** The instance was not removed from position `j` on. */
  predicate Spared(log: seq<Entry>, j: nat, n: Name) {
    forall k :: j <= k < |log| ==> log[k] != In(Remove(n))
  }

  predicate IsPromote(e: Entry, n: Name, sha: Sha) {
    e.Out? && e.action.Promote? && e.action.name == n && e.action.sha == sha
  }

  predicate IsRed(e: Entry, n: Name, sha: Sha) {
    e.Out? && e.action.RecordRed? && e.action.name == n && e.action.sha == sha
  }

  predicate IsHead(e: Entry, n: Name, sha: Sha) {
    e == In(Observe(n, HeadAdvanced(sha)))
  }

  predicate IsRecovery(e: Entry, n: Name, sha: Sha) {
    e == In(Observe(n, RecoverFromPointer(sha)))
  }

  lemma {:induction false} PromotedMeans(names: set<Name>, log: seq<Entry>, n: Name, sha: Sha) returns (j: nat)
    requires sha in Digest(names, log, n).promoted
    ensures j < |log| && IsPromote(log[j], n, sha) && Spared(log, j, n)
    decreases |log|
  {
    var front := log[..|log| - 1];
    if sha in Digest(names, front, n).promoted { j := PromotedMeans(names, front, n, sha); } else { j := |log| - 1; }
  }

  lemma {:induction false} RecoveredMeans(names: set<Name>, log: seq<Entry>, n: Name, sha: Sha) returns (j: nat)
    requires sha in Digest(names, log, n).recovered
    ensures j < |log| && IsRecovery(log[j], n, sha) && Spared(log, j, n)
    decreases |log|
  {
    var front := log[..|log| - 1];
    if sha in Digest(names, front, n).recovered { j := RecoveredMeans(names, front, n, sha); } else { j := |log| - 1; }
  }

  lemma {:induction false} RedMeans(names: set<Name>, log: seq<Entry>, n: Name, sha: Sha) returns (j: nat)
    requires sha in Digest(names, log, n).reds
    ensures j < |log| && IsRed(log[j], n, sha) && Spared(log, j, n)
    decreases |log|
  {
    var front := log[..|log| - 1];
    if sha in Digest(names, front, n).reds { j := RedMeans(names, front, n, sha); } else { j := |log| - 1; }
  }

  lemma {:induction false} MentionedMeans(names: set<Name>, log: seq<Entry>, n: Name, sha: Sha) returns (j: nat)
    requires sha in Digest(names, log, n).mentioned
    ensures j < |log| && (IsHead(log[j], n, sha) || IsRecovery(log[j], n, sha)) && Spared(log, j, n)
    decreases |log|
  {
    var front := log[..|log| - 1];
    if sha in Digest(names, front, n).mentioned { j := MentionedMeans(names, front, n, sha); } else { j := |log| - 1; }
  }

  predicate IsStart(e: Entry, n: Name) {
    e.Out? && e.action.StartBuild? && e.action.name == n
  }

  /** A result for the build of this generation. */
  predicate IsResult(e: Entry, n: Name, g: Gen) {
    e.In? && e.input.Observe? && e.input.name == n && e.input.event.BuildFinished? && e.input.event.gen == g
  }

  /** Nothing is on record for an instance that is not configured. */
  lemma {:induction false} AbsentIsBlank(names: set<Name>, log: seq<Entry>, n: Name)
    ensures Digest(names, log, n).present || Digest(names, log, n) == Blank
    decreases |log|
  {
    if log != [] { AbsentIsBlank(names, log[..|log| - 1], n); }
  }

  /** How one entry leaves a build open. */
  lemma OpenBuildStep(f: Facts, e: Entry, n: Name, sha: Sha, g: Gen)
    requires (f.present || f == Blank) && Noted(f, e, n).openBuild == Some((sha, g))
    ensures e == Out(StartBuild(n, sha, g))
            || (f.openBuild == Some((sha, g)) && !IsStart(e, n) && !IsResult(e, n, g) && e != In(Remove(n)))
  {
  }

  lemma {:induction false} OpenBuildMeans(names: set<Name>, log: seq<Entry>, n: Name, sha: Sha, g: Gen)
    returns (j: nat)
    requires Digest(names, log, n).openBuild == Some((sha, g))
    ensures j < |log| && log[j] == Out(StartBuild(n, sha, g)) && Spared(log, j, n)
    ensures forall k :: j < k < |log| ==> !IsStart(log[k], n) && !IsResult(log[k], n, g)
    decreases |log|
  {
    hide Noted, IsStart, IsResult;
    assert log != [];
    var front, last := log[..|log| - 1], |log| - 1;
    AbsentIsBlank(names, front, n);
    OpenBuildStep(Digest(names, front, n), log[last], n, sha, g);
    if log[last] == Out(StartBuild(n, sha, g)) {
      j := last;
    } else {
      j := OpenBuildMeans(names, front, n, sha, g);
      assert forall k :: j <= k < last ==> log[k] == front[k];
    }
  }

  lemma {:induction false} ReportedMeans(names: set<Name>, log: seq<Entry>, n: Name, sha: Sha, g: Gen)
    returns (a: nat, b: nat)
    requires (sha, g) in Digest(names, log, n).reported
    ensures a < b < |log| && Spared(log, a, n)
    ensures log[a] == Out(StartBuild(n, sha, g)) && log[b] == In(Observe(n, BuildFinished(g, Green)))
    ensures forall k :: a < k < b ==> !IsResult(log[k], n, g)
    decreases |log|
  {
    var front := log[..|log| - 1];
    if (sha, g) in Digest(names, front, n).reported {
      a, b := ReportedMeans(names, front, n, sha, g);
    } else {
      a := OpenBuildMeans(names, front, n, sha, g);
      b := |log| - 1;
    }
  }

  lemma {:induction false} BuiltMeans(names: set<Name>, log: seq<Entry>, n: Name, sha: Sha, g: Gen)
    returns (a: nat, b: nat, c: nat)
    requires (sha, g) in Digest(names, log, n).built
    ensures a < b < c < |log| && Spared(log, a, n)
    ensures log[a] == Out(StartBuild(n, sha, g)) && log[b] == In(Observe(n, BuildFinished(g, Green)))
    ensures log[c] == Out(SpawnAndProbe(n, sha, g))
    ensures forall k :: a < k < b ==> !IsResult(log[k], n, g)
    decreases |log|
  {
    var front := log[..|log| - 1];
    if (sha, g) in Digest(names, front, n).built {
      a, b, c := BuiltMeans(names, front, n, sha, g);
    } else {
      a, b := ReportedMeans(names, front, n, sha, g);
      c := |log| - 1;
    }
  }

  lemma {:induction false} RespawnedMeans(names: set<Name>, log: seq<Entry>, n: Name, sha: Sha, g: Gen)
    returns (a: nat, b: nat)
    requires (sha, g) in Digest(names, log, n).respawned
    ensures a < b < |log| && Spared(log, a, n)
    ensures log[b] == Out(Respawn(n, sha, g)) && (IsPromote(log[a], n, sha) || IsRecovery(log[a], n, sha))
    decreases |log|
  {
    var front := log[..|log| - 1];
    if (sha, g) in Digest(names, front, n).respawned {
      a, b := RespawnedMeans(names, front, n, sha, g);
    } else {
      b := |log| - 1;
      if sha in Digest(names, front, n).promoted {
        a := PromotedMeans(names, front, n, sha);
      } else {
        a := RecoveredMeans(names, front, n, sha);
      }
    }
  }

  /** A red stays unretried until a HEAD of its sha arrives. */
  lemma {:induction false} UnretriedMeans(names: set<Name>, log: seq<Entry>, n: Name, sha: Sha, j: nat)
    requires j < |log| && IsRed(log[j], n, sha) && Digest(names, log[..j], n).present && Spared(log, j, n)
    requires forall k :: j < k < |log| ==> !IsHead(log[k], n, sha)
    ensures sha in Digest(names, log, n).unretried && Digest(names, log, n).present
    decreases |log|
  {
    var front := log[..|log| - 1];
    if j < |log| - 1 {
      assert front[..j] == log[..j];
      UnretriedMeans(names, front, n, sha, j);
    }
  }

  // ------------------------------------------------------------ never serve red

  /** The promoted child was built: its build started, its first result was green,
      and it was spawned, all in this lifetime of the instance and in this order. */
  ghost predicate BuiltBefore(log: seq<Entry>, n: Name, sha: Sha, g: Gen, k: nat)
    requires k <= |log|
  {
    exists a, b, c ::
      && 0 <= a < b < c < k
      && log[a] == Out(StartBuild(n, sha, g))
      && log[b] == In(Observe(n, BuildFinished(g, Green)))
      && (forall m :: a < m < b ==> !IsResult(log[m], n, g))
      && log[c] == Out(SpawnAndProbe(n, sha, g))
      && Spared(log[..k], a, n)
  }

  /** The promoted child was respawned from a sha promoted before or named by
      the recovery pointer, in this lifetime of the instance. */
  ghost predicate RecoveredBefore(log: seq<Entry>, n: Name, sha: Sha, g: Gen, k: nat)
    requires k <= |log|
  {
    exists a, b ::
      && 0 <= a < b < k
      && (IsPromote(log[a], n, sha) || IsRecovery(log[a], n, sha))
      && log[b] == Out(Respawn(n, sha, g))
      && Spared(log[..k], a, n)
  }

  /** Never serve red: whatever the run, a promotion is the immediate answer to
      a successful probe of exactly its generation, and that generation is
      either a green build of exactly its sha or a recovery of a proven one. */
  lemma NeverServeRed(names: set<Name>, maxConcurrent: nat, xs: seq<Input>, k: nat)
    requires
      var log := Log(New(names, maxConcurrent), xs);
      k < |log| && log[k].Out? && log[k].action.Promote?
    ensures
      var log := Log(New(names, maxConcurrent), xs);
      var Promote(n, sha, g) := log[k].action;
      && k > 0 && log[k - 1] == In(Observe(n, ProbeSucceeded(g)))
      && (BuiltBefore(log, n, sha, g, k) || RecoveredBefore(log, n, sha, g, k))
  {
    var log := Log(New(names, maxConcurrent), xs);
    var Promote(n, sha, g) := log[k].action;
    RunIsSound(names, maxConcurrent, xs);
    assert EntrySound(names, log, k);
    if (sha, g) in Digest(names, log[..k], n).built {
      var a, b, c := BuiltMeans(names, log[..k], n, sha, g);
      assert forall m :: 0 <= m < k ==> log[..k][m] == log[m];
    } else {
      var a, b := RespawnedMeans(names, log[..k], n, sha, g);
      assert log[..k][a] == log[a] && log[..k][b] == log[b];
    }
  }

  lemma {:induction false} DispatchSpares(d: Daemon, n: Name)
    requires Inv(d) && n in d.instances
    ensures n in Dispatch(d).0.instances
    ensures
      var i, j := d.instances[n], Dispatch(d).0.instances[n];
      j == i.(pipeline := j.pipeline)
    ensures forall a :: a in Dispatch(d).1 ==> a.StartBuild?
    decreases |d.queue|
  {
    if SlotFree(d) && HeadDispatchable(d) {
      DispatchedKeeps(d);
      DispatchSpares(Dispatched(d).0, n);
    }
  }

  /** The running app is touched by nothing else: `serving` changes only by a
      promotion, or by its own exit, which clears it. */
  lemma ServingChangesOnly(d: Daemon, n: Name, e: Event, m: Name)
    requires Inv(d) && m in d.instances
    ensures
      var (d1, acts) := Step(d, n, e);
      && m in d1.instances
      && (d1.instances[m].serving == d.instances[m].serving
          || (m == n && e.ProbeSucceeded? && d1.instances[m].serving.Some?
              && d1.instances[m].serving.value.gen == e.gen
              && Promote(n, d1.instances[m].serving.value.sha, e.gen) in acts)
          || (m == n && e.ServingExited? && IsServing(d.instances[m], e.gen) && d1.instances[m].serving.None?))
  {
    if n in d.instances {
      var l := LocalStep(d.instances[n], n, e, d.nextGen);
      InstallKeeps(d, n, e);
      ServingLocal(d.instances[n], n, e, d.nextGen);
      if l.dispatch { DispatchSpares(Install(d, n, l), m); }
    }
  }

  lemma ServingLocal(i: Instance, n: Name, e: Event, gen: Gen)
    ensures
      var l := LocalStep(i, n, e, gen);
      || l.inst.serving == i.serving
      || (e.ProbeSucceeded? && l.inst.serving.Some? && l.inst.serving.value.gen == e.gen
          && Promote(n, l.inst.serving.value.sha, e.gen) in l.acts)
      || (e.ServingExited? && IsServing(i, e.gen) && l.inst.serving.None?)
  {
    hide DiskFull, IndeterminateTwice, ProbeRed, RespawnRed, OnBuilt;
    var m := Decide(i, n, e);
    if e.ProbeSucceeded? && ProbeAccepted(i, e.gen) {
      assert m.acts[0] == Promote(n, i.pipeline.sha, e.gen);
      assert LocalStep(i, n, e, gen).acts[0] == m.acts[0];
    } else if e.BuildFinished? && BuildAccepted(i, e.gen) {
      BuiltServing(i, n, e.gen, e.outcome);
    }
  }

  lemma BuiltServing(i: Instance, n: Name, g: Gen, outcome: Outcome)
    requires BuildAccepted(i, g)
    ensures OnBuilt(i, n, i.pipeline.sha, g, outcome).inst.serving == i.serving
  {
  }

  lemma LocalExit(i: Instance, n: Name, g: Gen, gen: Gen)
    requires InstanceOk(i) && IsServing(i, g)
    ensures
      var l := LocalStep(i, n, ServingExited(g), gen);
      && l.inst.serving.None? && l.inst.lastGreen == i.lastGreen == Some(i.serving.value.sha)
      && (if i.pipeline.Building? || i.pipeline.Probing? then
            l.acts == [] && l.inst.needsRespawn && l.inst.pipeline == i.pipeline && l.inst.pending == i.pending
          else
            && l.acts == [Respawn(n, i.serving.value.sha, gen)] && !l.inst.needsRespawn
            && l.inst.pipeline == Probing(i.serving.value.sha, gen, true)
            && l.inst.pending == if i.pipeline.Queued? then Some(i.pipeline.sha) else None)
      && !l.dispatch
  {
  }

  /** An app that exits is booted again at once, ahead of any build that is waiting
      for a slot, exactly when its pipeline is not busy; a build that was waiting then
      is pending behind the boot.  When it is busy the boot is owed. */
  lemma ExitRespawnsIff(d: Daemon, n: Name, g: Gen)
    requires Inv(d) && n in d.instances && IsServing(d.instances[n], g)
    ensures
      var (d1, acts) := Step(d, n, ServingExited(g));
      var i := d.instances[n];
      && n in d1.instances && d1.instances[n].serving.None?
      && (Respawn(n, i.serving.value.sha, d.nextGen) in acts <==> i.pipeline.Idle? || i.pipeline.Queued?)
      && (i.pipeline.Idle? || i.pipeline.Queued? ==>
            && d1.instances[n].pipeline == Probing(i.serving.value.sha, d.nextGen, true)
            && d1.instances[n].pending == (if i.pipeline.Queued? then Some(i.pipeline.sha) else None)
            && n !in d1.queue)
      && (i.pipeline.Building? || i.pipeline.Probing? ==>
            d1.instances[n].needsRespawn && d1.instances[n].pipeline == i.pipeline && acts == [])
  {
    hide LocalStep, GensOk, BuildingOk;
    var i := d.instances[n];
    LocalExit(i, n, g, d.nextGen);
    WithoutIs(d.queue, n);
  }

  // ------------------------------------------------------------ the books follow the actions

  /** The source files a red names: those of a failed build that was not about the
      disk, and none for any other red. */
  function RedFiles(e: Event): seq<string> {
    if e.BuildFinished? && e.outcome.Failed? && !e.outcome.enospc then e.outcome.files else []
  }

  /** What an instance keeps of its reds and drains agrees with what was asked for. */
  ghost predicate BooksKept(i: Instance, n: Name, e: Event, j: Instance, acts: seq<Action>) {
    && (forall sha, reason :: RecordRed(n, sha, reason) in acts ==>
          j.lastRed == Some((sha, reason)) && j.lastRedFiles == RedFiles(e))
    && ((forall sha, reason :: RecordRed(n, sha, reason) !in acts) ==>
          j.lastRed == i.lastRed && j.lastRedFiles == i.lastRedFiles)
    && (forall g :: StartDrain(n, g) in acts ==> IsServing(i, g) && j.draining == i.draining + [g])
    && ((forall g :: StartDrain(n, g) !in acts) && !e.DrainComplete? ==> j.draining == i.draining)
    && (e.DrainComplete? ==> forall g :: g in j.draining <==> g in i.draining && g != e.gen)
  }

  lemma LocalBooks(i: Instance, n: Name, e: Event, gen: Gen)
    ensures var l := LocalStep(i, n, e, gen); BooksKept(i, n, e, l.inst, l.acts)
  {
    hide DiskFull, IndeterminateTwice, ProbeRed, RespawnRed, Perform;
    var m := Decide(i, n, e);
    DecideBooks(i, n, e);
    PerformBooks(m, n, gen);
    var l := LocalStep(i, n, e, gen);
  }

  lemma PerformBooks(m: Move, n: Name, gen: Gen)
    ensures
      var l := Perform(m, n, gen);
      && l.inst.lastRed == m.inst.lastRed && l.inst.lastRedFiles == m.inst.lastRedFiles
      && l.inst.draining == m.inst.draining
      && m.acts <= l.acts && |l.acts| <= |m.acts| + 1
      && (|l.acts| > |m.acts| ==> l.acts[|m.acts|].Respawn?)
      && forall a: Action :: a.RecordRed? || a.StartDrain? ==> (a in l.acts <==> a in m.acts)
  {
    var l := Perform(m, n, gen);
    assert l.acts == m.acts || l.acts == m.acts + [l.acts[|m.acts|]];
  }

  /** Actions with no red and no drain among them. */
  predicate Plain(acts: seq<Action>) {
    forall a :: a in acts ==> !a.RecordRed? && !a.StartDrain?
  }

  lemma NothingBooked(i: Instance, n: Name, e: Event, j: Instance, acts: seq<Action>)
    requires Plain(acts) && !e.DrainComplete?
    requires j.lastRed == i.lastRed && j.lastRedFiles == i.lastRedFiles && j.draining == i.draining
    ensures BooksKept(i, n, e, j, acts)
  {
  }

  lemma RedBooked(i: Instance, n: Name, e: Event, j: Instance, before: seq<Action>, sha: Sha, reason: string)
    requires Plain(before) && !e.DrainComplete? && j.draining == i.draining
    requires j.lastRed == Some((sha, reason)) && j.lastRedFiles == RedFiles(e)
    ensures BooksKept(i, n, e, j, before + [RecordRed(n, sha, reason)])
  {
    var acts := before + [RecordRed(n, sha, reason)];
    assert acts[|before|] == RecordRed(n, sha, reason);
    assert forall a :: a in acts <==> a in before || a == RecordRed(n, sha, reason);
  }

  lemma RetriedBooks(i: Instance, sha: Sha)
    ensures
      var j := Retried(i, sha);
      j.lastRed == i.lastRed && j.lastRedFiles == i.lastRedFiles && j.draining == i.draining
  {
  }

  lemma BuiltBooks(i: Instance, n: Name, e: Event)
    requires e.BuildFinished? && BuildAccepted(i, e.gen)
    ensures var m := Decide(i, n, e); BooksKept(i, n, e, m.inst, m.acts)
  {
    hide DiskFull, IndeterminateTwice, BooksKept, Retried;
    var m, sha := Decide(i, n, e), i.pipeline.sha;
    if m.Stay? {
      RetriedBooks(i.(pipeline := Idle, indeterminateStreak := 0, enospcStreak := i.enospcStreak + 1), sha);
      RetriedBooks(i.(pipeline := Idle, indeterminateStreak := i.indeterminateStreak + 1), sha);
      NothingBooked(i, n, e, m.inst, m.acts);
    } else {
      var reason := m.inst.lastRed.value.1;
      RedBooked(i, n, e, m.inst, [], sha, reason);
      assert m.acts == [] + [RecordRed(n, sha, reason)];
    }
  }

  lemma ProbedBooks(i: Instance, n: Name, e: Event)
    requires e.ProbeSucceeded? && ProbeAccepted(i, e.gen)
    ensures var m := Decide(i, n, e); BooksKept(i, n, e, m.inst, m.acts)
  {
    var m := Decide(i, n, e);
    if |m.acts| == 2 { assert m.acts[1] == StartDrain(n, i.serving.value.gen); }
  }

  lemma ProbeFailedBooks(i: Instance, n: Name, e: Event)
    requires e.ProbeFailed? && ProbeAccepted(i, e.gen)
    ensures var m := Decide(i, n, e); BooksKept(i, n, e, m.inst, m.acts)
  {
    hide ProbeRed, RespawnRed, BooksKept;
    var m := Decide(i, n, e);
    if |m.acts| == 2 {
      RedBooked(i, n, e, m.inst, [KillStandby(n, e.gen)], i.pipeline.sha, m.inst.lastRed.value.1);
    } else {
      NothingBooked(i, n, e, m.inst, m.acts);
    }
  }

  lemma DecideBooks(i: Instance, n: Name, e: Event)
    ensures var m := Decide(i, n, e); BooksKept(i, n, e, m.inst, m.acts)
  {
    hide OnBuilt, OnProbed, OnProbeFailure, BooksKept;
    var m := Decide(i, n, e);
    if e.DrainComplete? {
      DrainBooks(i, n, e);
    } else if e.ProbeSucceeded? && ProbeAccepted(i, e.gen) {
      ProbedBooks(i, n, e);
    } else if e.ProbeFailed? && ProbeAccepted(i, e.gen) {
      ProbeFailedBooks(i, n, e);
    } else if e.BuildFinished? && BuildAccepted(i, e.gen) {
      BuiltBooks(i, n, e);
    } else {
      NothingBooked(i, n, e, m.inst, m.acts);
    }
  }

  lemma DrainBooks(i: Instance, n: Name, e: Event)
    requires e.DrainComplete?
    ensures var m := Decide(i, n, e); BooksKept(i, n, e, m.inst, m.acts)
  {
    WithoutIs(i.draining, e.gen);
  }

  /** Starting builds is not booked. */
  lemma StartsNotBooked(
      i: Instance, n: Name, e: Event, j: Instance, j1: Instance, acts: seq<Action>, starts: seq<Action>)
    requires BooksKept(i, n, e, j, acts) && j1 == j.(pipeline := j1.pipeline)
    requires forall a :: a in starts ==> a.StartBuild?
    ensures BooksKept(i, n, e, j1, acts + starts)
  {
    assert forall a: Action :: a.RecordRed? || a.StartDrain? ==> (a in acts + starts <==> a in acts);
  }

  /** A red, once recorded, is kept with the files of the build it blames until the
      next red; and the generations that drain are those that were told to when they
      were replaced, until each reports that it is done. */
  lemma BooksFollowActions(d: Daemon, n: Name, e: Event, m: Name)
    requires Inv(d) && m in d.instances
    ensures
      var (d1, acts) := Step(d, n, e);
      && m in d1.instances
      && (if m == n then BooksKept(d.instances[m], m, e, d1.instances[m], acts)
          else && d1.instances[m].lastRed == d.instances[m].lastRed
               && d1.instances[m].lastRedFiles == d.instances[m].lastRedFiles
               && d1.instances[m].draining == d.instances[m].draining)
  {
    if n in d.instances {
      hide LocalStep, Dispatch, Inv, BooksKept;
      var l := LocalStep(d.instances[n], n, e, d.nextGen);
      var d1 := Install(d, n, l);
      InstallKeeps(d, n, e);
      LocalBooks(d.instances[n], n, e, d.nextGen);
      if l.dispatch {
        DispatchSpares(d1, m);
        if m == n {
          StartsNotBooked(d.instances[n], n, e, l.inst, Dispatch(d1).0.instances[n], l.acts, Dispatch(d1).1);
        }
      }
    } else {
      NoEvent(d, n, e);
    }
  }

  lemma NoEvent(d: Daemon, n: Name, e: Event)
    requires n !in d.instances
    ensures Step(d, n, e) == (d, [])
  {
  }

  // ------------------------------------------------------------ reds stay red

  /** A recorded red is never retried by itself: if its sha is built again in
      the same lifetime, a HEAD of that sha arrived in between. */
  lemma RedIsNeverRetried(names: set<Name>, maxConcurrent: nat, xs: seq<Input>, j: nat, k: nat)
    requires
      var log := Log(New(names, maxConcurrent), xs);
      && j < k < |log| && log[k].Out? && log[k].action.StartBuild?
      && IsRed(log[j], log[k].action.name, log[k].action.sha)
      && Spared(log[..k], j, log[k].action.name)
    ensures
      var log := Log(New(names, maxConcurrent), xs);
      exists h :: j < h < k && IsHead(log[h], log[k].action.name, log[k].action.sha)
  {
    var log := Log(New(names, maxConcurrent), xs);
    var n, sha := log[k].action.name, log[k].action.sha;
    RunIsSound(names, maxConcurrent, xs);
    assert EntrySound(names, log, k) && EntrySound(names, log, j);
    if forall h :: j < h < k ==> !IsHead(log[h], n, sha) {
      assert log[..k][..j] == log[..j];
      UnretriedMeans(names, log[..k], n, sha, j);
      assert false;
    }
  }

  // ------------------------------------------------------------ verdicts converge

  /** An accepted build result spawns a probe, records red, or uses up patience. */
  lemma ResultDecidesOrTires(i: Instance, n: Name, g: Gen, outcome: Outcome, gen: Gen)
    requires InstanceOk(i) && BuildAccepted(i, g)
    ensures
      var l := LocalStep(i, n, BuildFinished(g, outcome), gen);
      || SpawnAndProbe(n, i.pipeline.sha, g) in l.acts
      || (exists r :: RecordRed(n, i.pipeline.sha, r) in l.acts)
      || 0 <= Patience(l.inst) < Patience(i)
  {
    var m := OnBuilt(i, n, i.pipeline.sha, g, outcome);
    if !m.Stay? {
      assert m.acts[0].RecordRed?;
      assert LocalStep(i, n, BuildFinished(g, outcome), gen).acts[0] == m.acts[0];
    } else if outcome.Green? {
      assert LocalStep(i, n, BuildFinished(g, outcome), gen).acts[0] == SpawnAndProbe(n, i.pipeline.sha, g);
    }
  }

  /** What ends the wait for a verdict on a build. */
  predicate IsVerdict(e: Entry, n: Name) {
    e.Out? && (e.action.SpawnAndProbe? || e.action.RecordRed?) && e.action.name == n
  }

  /** Entry `k` is an accepted result: the first for the build started last. */
  ghost predicate Answers(log: seq<Entry>, k: nat, n: Name)
    requires k < |log|
  {
    exists a :: 0 <= a < k && IsStart(log[a], n) && IsResult(log[k], n, log[a].action.gen) && Spared(log[..k], a, n)
                && forall m :: a < m < k ==> !IsStart(log[m], n) && !IsResult(log[m], n, log[a].action.gen)
  }

  predicate IsBoot(e: Entry, n: Name) {
    e.Out? && e.action.Respawn? && e.action.name == n
  }

  predicate IsFailedProbe(e: Entry, n: Name, g: Gen) {
    e.In? && e.input.Observe? && e.input.name == n && e.input.event.ProbeFailed? && e.input.event.gen == g
  }

  predicate Promotes(e: Entry, n: Name) {
    e.Out? && e.action.Promote? && e.action.name == n
  }

  /** What ends a series of recovery boots. */
  predicate EndsBoots(e: Entry, n: Name) {
    e.Out? && (e.action.Promote? || e.action.RecordRed?) && e.action.name == n
  }

  /** Entry `k` is the failure of the recovery boot started last. */
  ghost predicate FailsBoot(log: seq<Entry>, k: nat, n: Name)
    requires k < |log|
  {
    exists a :: 0 <= a < k && IsBoot(log[a], n) && IsFailedProbe(log[k], n, log[a].action.gen) && Spared(log[..k], a, n)
                && forall m :: a < m < k ==>
                     !IsBoot(log[m], n) && !Promotes(log[m], n) && !IsFailedProbe(log[m], n, log[a].action.gen)
  }

  predicate Increasing(ks: seq<nat>) {
    forall j, k :: 0 <= j < k < |ks| ==> ks[j] < ks[k]
  }

  /** A build started and not answered since is the open one. */
  lemma {:induction false} StartedIsOpen(names: set<Name>, log: seq<Entry>, n: Name, a: nat)
    requires a < |log| && IsStart(log[a], n) && Digest(names, log[..a], n).present && Spared(log, a, n)
    requires forall m :: a < m < |log| ==> !IsStart(log[m], n) && !IsResult(log[m], n, log[a].action.gen)
    ensures
      var f := Digest(names, log, n);
      f.present && f.openBuild == Some((log[a].action.sha, log[a].action.gen))
    decreases |log|
  {
    var front := log[..|log| - 1];
    if a < |log| - 1 {
      assert front[..a] == log[..a];
      StartedIsOpen(names, front, n, a);
    } else {
      assert front == log[..a];
    }
  }

  lemma {:induction false} BootedIsOpen(names: set<Name>, log: seq<Entry>, n: Name, a: nat)
    requires a < |log| && IsBoot(log[a], n) && Digest(names, log[..a], n).present && Spared(log, a, n)
    requires forall m :: a < m < |log| ==>
      !IsBoot(log[m], n) && !Promotes(log[m], n) && !IsFailedProbe(log[m], n, log[a].action.gen)
    ensures var f := Digest(names, log, n); f.present && f.openBoot == Some(log[a].action.gen)
    decreases |log|
  {
    var front := log[..|log| - 1];
    if a < |log| - 1 {
      assert front[..a] == log[..a];
      BootedIsOpen(names, front, n, a);
    } else {
      assert front == log[..a];
    }
  }

  /** How one entry moves the counters. */
  lemma CountersStep(f: Facts, e: Entry, n: Name)
    requires (f.present || f == Blank) && e != In(Remove(n))
    ensures !IsVerdict(e, n) ==> Noted(f, e, n).undecided >= f.undecided
    ensures f.present && f.openBuild.Some? && IsResult(e, n, f.openBuild.value.1) ==>
              Noted(f, e, n).undecided == f.undecided + 1
    ensures !EndsBoots(e, n) ==> Noted(f, e, n).failedBoots >= f.failedBoots
    ensures f.present && f.openBoot.Some? && IsFailedProbe(e, n, f.openBoot.value) ==>
              Noted(f, e, n).failedBoots == f.failedBoots + 1
  {
  }

  /** Positions that reach the last entry, and those that are left before it. */
  lemma AllButLast(ks: seq<nat>, last: nat)
    requires Increasing(ks) && ks != [] && forall k :: k in ks ==> k <= last
    ensures
      var rest := if ks[|ks| - 1] == last then ks[..|ks| - 1] else ks;
      Increasing(rest) && forall k :: k in rest ==> k in ks && k < last
  {
    var rest := if ks[|ks| - 1] == last then ks[..|ks| - 1] else ks;
    forall k | k in rest ensures k in ks && k < last {
      var i :| 0 <= i < |rest| && rest[i] == k;
      assert ks[i] == k && ks[|ks| - 1] in ks;
    }
  }

  /** Accepted results with no verdict since are what the digest counts. */
  lemma {:induction false} ResultsAreCounted(names: set<Name>, log: seq<Entry>, n: Name, j: nat, ks: seq<nat>)
    requires Sound(names, log) && Increasing(ks) && Spared(log, j, n)
    requires forall k :: k in ks ==> j <= k < |log| && Answers(log, k, n)
    requires forall m :: j <= m < |log| ==> !IsVerdict(log[m], n)
    ensures |ks| <= Digest(names, log, n).undecided
    decreases |log|
  {
    hide Answers, Noted, IsVerdict;
    if ks != [] {
      var top := ks[|ks| - 1];
      assert top in ks;
      var last, front := |log| - 1, log[..|log| - 1];
      FrontSound(names, log);
      AllButLast(ks, last);
      var rest := if top == last then ks[..|ks| - 1] else ks;
      forall k | k in rest ensures j <= k < |front| && Answers(front, k, n) { AnswersEarlier(log, k, n); }
      ResultsAreCounted(names, front, n, j, rest);
      AbsentIsBlank(names, front, n);
      CountersStep(Digest(names, front, n), log[last], n);
      if top == last { AnswerIsOpen(names, log, n); }
    }
  }

  lemma AnswerIsOpen(names: set<Name>, log: seq<Entry>, n: Name)
    requires Sound(names, log) && log != [] && Answers(log, |log| - 1, n)
    ensures
      var f := Digest(names, log[..|log| - 1], n);
      f.present && f.openBuild.Some? && IsResult(log[|log| - 1], n, f.openBuild.value.1)
  {
    var last, front := |log| - 1, log[..|log| - 1];
    var a :| 0 <= a < last && IsStart(log[a], n) && IsResult(log[last], n, log[a].action.gen) && Spared(front, a, n)
             && forall m :: a < m < last ==> !IsStart(log[m], n) && !IsResult(log[m], n, log[a].action.gen);
    assert EntrySound(names, log, a);
    assert front[..a] == log[..a];
    StartedIsOpen(names, front, n, a);
  }

  lemma FrontSound(names: set<Name>, log: seq<Entry>)
    requires Sound(names, log) && log != []
    ensures Sound(names, log[..|log| - 1])
  {
    var front := log[..|log| - 1];
    forall k: nat | k < |front| ensures EntrySound(names, front, k) {
      assert front[..k] == log[..k];
      assert EntrySound(names, log, k);
    }
  }

  lemma AnswersEarlier(log: seq<Entry>, k: nat, n: Name)
    requires k < |log| - 1
    ensures Answers(log, k, n) <==> Answers(log[..|log| - 1], k, n)
    ensures FailsBoot(log, k, n) <==> FailsBoot(log[..|log| - 1], k, n)
  {
    assert log[..|log| - 1][..k] == log[..k];
    assert forall m :: 0 <= m <= k ==> log[..|log| - 1][m] == log[m];
  }

  /** Failed recovery boots with no Promote or RecordRed since, likewise. */
  lemma {:induction false} FailedBootsAreCounted(names: set<Name>, log: seq<Entry>, n: Name, j: nat, ks: seq<nat>)
    requires Sound(names, log) && Increasing(ks) && Spared(log, j, n)
    requires forall k :: k in ks ==> j <= k < |log| && FailsBoot(log, k, n)
    requires forall m :: j <= m < |log| ==> !EndsBoots(log[m], n)
    ensures |ks| <= Digest(names, log, n).failedBoots
    decreases |log|
  {
    hide FailsBoot, Noted, EndsBoots;
    if ks != [] {
      var top := ks[|ks| - 1];
      assert top in ks;
      var last, front := |log| - 1, log[..|log| - 1];
      FrontSound(names, log);
      AllButLast(ks, last);
      var rest := if top == last then ks[..|ks| - 1] else ks;
      forall k | k in rest ensures j <= k < |front| && FailsBoot(front, k, n) { AnswersEarlier(log, k, n); }
      FailedBootsAreCounted(names, front, n, j, rest);
      AbsentIsBlank(names, front, n);
      CountersStep(Digest(names, front, n), log[last], n);
      if top == last { FailedBootIsOpen(names, log, n); }
    }
  }

  lemma FailedBootIsOpen(names: set<Name>, log: seq<Entry>, n: Name)
    requires Sound(names, log) && log != [] && FailsBoot(log, |log| - 1, n)
    ensures
      var f := Digest(names, log[..|log| - 1], n);
      f.present && f.openBoot.Some? && IsFailedProbe(log[|log| - 1], n, f.openBoot.value)
  {
    var last, front := |log| - 1, log[..|log| - 1];
    var a :| 0 <= a < last && IsBoot(log[a], n) && IsFailedProbe(log[last], n, log[a].action.gen) && Spared(front, a, n)
             && (forall m :: a < m < last ==>
                   !IsBoot(log[m], n) && !Promotes(log[m], n) && !IsFailedProbe(log[m], n, log[a].action.gen));
    assert EntrySound(names, log, a);
    assert front[..a] == log[..a];
    BootedIsOpen(names, front, n, a);
  }

  lemma {:induction false} OpenBootMeans(names: set<Name>, log: seq<Entry>, n: Name, g: Gen) returns (j: nat)
    requires Digest(names, log, n).openBoot == Some(g)
    ensures j < |log| && IsBoot(log[j], n) && log[j].action.gen == g && Spared(log, j, n)
    ensures forall k :: j < k < |log| ==>
              !IsBoot(log[k], n) && !Promotes(log[k], n) && !IsFailedProbe(log[k], n, g)
    decreases |log|
  {
    var front := log[..|log| - 1];
    AbsentIsBlank(names, front, n);
    if IsBoot(log[|log| - 1], n) && Digest(names, front, n).present {
      j := |log| - 1;
    } else {
      j := OpenBootMeans(names, front, n, g);
      assert forall k :: j < k < |front| ==> log[k] == front[k];
    }
  }

  /** The positions counted are the right ones: a build result or a failed probe is
      accepted by the state machine exactly when it answers the build, or the
      recovery boot, started last. */
  lemma AcceptedIff(names: set<Name>, maxConcurrent: nat, xs: seq<Input>, n: Name, e: Event)
    requires n in After(New(names, maxConcurrent), xs).instances
    ensures
      var i := After(New(names, maxConcurrent), xs).instances[n];
      var before := Log(New(names, maxConcurrent), xs);
      var log := before + [In(Observe(n, e))];
      && (e.BuildFinished? ==> (Answers(log, |before|, n) <==> BuildAccepted(i, e.gen)))
      && (e.ProbeFailed? ==> (FailsBoot(log, |before|, n) <==> ProbeAccepted(i, e.gen) && i.pipeline.respawn))
  {
    hide Answers, FailsBoot, Digest, EntrySound, Justified;
    var d, before := After(New(names, maxConcurrent), xs), Log(New(names, maxConcurrent), xs);
    var i, log := d.instances[n], before + [In(Observe(n, e))];
    RunIsSound(names, maxConcurrent, xs);
    assert Supported(i, Digest(names, before, n));
    SoundSnoc(names, before, In(Observe(n, e)));
    assert log[..|before|] == before;
    if e.BuildFinished? {
      if BuildAccepted(i, e.gen) { OpenBuildAnswers(names, log, n); }
      if Answers(log, |before|, n) { AnswerIsOpen(names, log, n); }
    } else if e.ProbeFailed? {
      if ProbeAccepted(i, e.gen) && i.pipeline.respawn { OpenBootFails(names, log, n); }
      if FailsBoot(log, |before|, n) { FailedBootIsOpen(names, log, n); }
    }
  }

  lemma OpenBuildAnswers(names: set<Name>, log: seq<Entry>, n: Name)
    requires log != [] && Digest(names, log[..|log| - 1], n).openBuild.Some?
    requires IsResult(log[|log| - 1], n, Digest(names, log[..|log| - 1], n).openBuild.value.1)
    ensures Answers(log, |log| - 1, n)
  {
    hide Digest;
    var front := log[..|log| - 1];
    var (sha, g) := Digest(names, front, n).openBuild.value;
    var a := OpenBuildMeans(names, front, n, sha, g);
    assert IsStart(log[a], n) && forall m :: 0 <= m < |front| ==> log[m] == front[m];
  }

  lemma OpenBootFails(names: set<Name>, log: seq<Entry>, n: Name)
    requires log != [] && Digest(names, log[..|log| - 1], n).openBoot.Some?
    requires IsFailedProbe(log[|log| - 1], n, Digest(names, log[..|log| - 1], n).openBoot.value)
    ensures FailsBoot(log, |log| - 1, n)
  {
    hide Digest;
    var front := log[..|log| - 1];
    var a := OpenBootMeans(names, front, n, Digest(names, front, n).openBoot.value);
    assert IsBoot(log[a], n) && forall m :: 0 <= m < |front| ==> log[m] == front[m];
  }

  /** After every step of every run: an instance has had at most five accepted
      build results since its last verdict, and at most two failed recovery boots
      since its last Promote or RecordRed. */
  lemma VerdictsConverge(names: set<Name>, maxConcurrent: nat, xs: seq<Input>, n: Name, j: nat,
                         results: seq<nat>, boots: seq<nat>)
    requires n in After(New(names, maxConcurrent), xs).instances
    requires Spared(Log(New(names, maxConcurrent), xs), j, n) && Increasing(results) && Increasing(boots)
    requires
      var log := Log(New(names, maxConcurrent), xs);
      && (forall k :: k in results ==> j <= k < |log| && Answers(log, k, n))
      && (forall k :: k in boots ==> j <= k < |log| && FailsBoot(log, k, n))
    ensures
      var log := Log(New(names, maxConcurrent), xs);
      && (|results| > 5 ==> exists m :: j <= m < |log| && IsVerdict(log[m], n))
      && (|boots| > RESPAWN_RETRY_CAP ==> exists m :: j <= m < |log| && EndsBoots(log[m], n))
  {
    var d, log := After(New(names, maxConcurrent), xs), Log(New(names, maxConcurrent), xs);
    RunIsSound(names, maxConcurrent, xs);
    CountersStayLow(names, d, log, n);
    if forall m :: j <= m < |log| ==> !IsVerdict(log[m], n) {
      ResultsAreCounted(names, log, n, j, results);
    }
    if forall m :: j <= m < |log| ==> !EndsBoots(log[m], n) {
      FailedBootsAreCounted(names, log, n, j, boots);
    }
  }

  lemma CountersStayLow(names: set<Name>, d: Daemon, log: seq<Entry>, n: Name)
    requires RunOk(names, d, log) && n in d.instances
    ensures Digest(names, log, n).undecided <= 5 && Digest(names, log, n).failedBoots <= RESPAWN_RETRY_CAP
  {
    assert Supported(d.instances[n], Digest(names, log, n)) && InstanceOk(d.instances[n]);
  }
}
