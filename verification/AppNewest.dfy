/**
 * Where the newest HEAD of an instance is after every step of every run.
 */
module AppNewest {
  import opened Wrappers
  import opened AppModel
  import opened AppInvariant
  import opened AppHistory
  import opened AppRuns
  import opened AppTheorems
  import Boundary = AppBoundary

  // ------------------------------------------------------------ tracking over runs

  ghost predicate Tracking(names: set<Name>, d: Daemon, log: seq<Entry>, n: Name) {
    n in d.instances && Tracks(d.instances[n], Digest(names, log, n))
  }

  lemma TrackingIsPresent(names: set<Name>, d: Daemon, log: seq<Entry>, n: Name)
    requires Tracking(names, d, log, n)
    ensures n in d.instances
  {
  }

  lemma StartTracks(names: set<Name>, d: Daemon, log: seq<Entry>, n: Name)
    requires HeadDispatchable(d) && Tracking(names, d, log, n)
    requires InstanceOk(d.instances[n])
    ensures Tracking(names, Dispatched(d).0, log + [Out(Dispatched(d).1)], n)
  {
    var (d1, a) := Dispatched(d);
    DigestSnoc(names, log, Out(a), n);
    hide Digest;
  }

  lemma RunInstanceOk(names: set<Name>, d: Daemon, log: seq<Entry>, n: Name)
    requires RunOk(names, d, log) && n in d.instances
    ensures InstanceOk(d.instances[n]) && Supported(d.instances[n], Digest(names, log, n))
  {
    hide Supported, Digest, Sound;
  }

  lemma {:induction false} DispatchTracks(names: set<Name>, d: Daemon, log: seq<Entry>, n: Name)
    requires RunOk(names, d, log) && Tracking(names, d, log, n)
    ensures Tracking(names, Dispatch(d).0, log + Outs(Dispatch(d).1), n)
    decreases |d.queue|
  {
    hide RunOk, Tracking, InstanceOk, Supported, Digest, SlotFree, HeadDispatchable, Dispatched, Dispatch, Outs;
    TrackingIsPresent(names, d, log, n);
    if SlotFree(d) && HeadDispatchable(d) {
      var (d1, a) := Dispatched(d);
      DispatchUnfolds(d);
      RunInstanceOk(names, d, log, n);
      StartTracks(names, d, log, n);
      DispatchedOk(names, d, log);
      DispatchTracks(names, d1, log + [Out(a)], n);
      assert log + Outs(Dispatch(d).1) == (log + [Out(a)]) + Outs(Dispatch(d1).1);
    } else {
      DispatchStops(d);
      assert log + Outs(Dispatch(d).1) == log;
    }
  }

  /** The one kind of arrival excluded: a HEAD that returns to the busy sha
      while another sha is pending. */
  predicate ReturnsToBusy(d: Daemon, n: Name, x: Input) {
    x.Observe? && x.name == n && x.event.HeadAdvanced? && n in d.instances && Returns(d.instances[n], x.event.sha)
  }

  lemma LocalTracking(names: set<Name>, d: Daemon, log: seq<Entry>, m: Name, e: Event, n: Name)
    requires RunOk(names, d, log) && Tracking(names, d, log, n) && m in d.instances
    requires !ReturnsToBusy(d, n, Observe(m, e))
    ensures
      var l := LocalStep(d.instances[m], m, e, d.nextGen);
      Tracking(names, Install(d, m, l), log + [In(Observe(m, e))] + Outs(l.acts), n)
  {
    var i, f := d.instances[m], Digest(names, log, m);
    RunInstanceOk(names, d, log, m);
    ObservedDigest(names, d, log, m, e);
    if m == n {
      hide RunOk, Digest, Tracks, LocalStep, Outs;
      LocalTracks(i, m, e, d.nextGen, f);
    } else {
      hide RunOk, Digest, Tracks, LocalStep, Outs, Supported, InstanceOk;
    }
  }

  lemma ObserveTracks(names: set<Name>, d: Daemon, log: seq<Entry>, m: Name, e: Event, n: Name)
    requires RunOk(names, d, log) && Tracking(names, d, log, n)
    requires !ReturnsToBusy(d, n, Observe(m, e))
    ensures Tracking(names, Step(d, m, e).0, log + [In(Observe(m, e))] + Outs(Step(d, m, e).1), n)
  {
    hide RunOk, LocalStep, Install, Dispatch, ReturnsToBusy, Outs;
    var x := In(Observe(m, e));
    if m !in d.instances {
      DigestSnoc(names, log, x, n);
      assert n != m;
      NoOuts(log + [x]);
    } else {
      hide Tracking;
      var l := LocalStep(d.instances[m], m, e, d.nextGen);
      var d1 := Install(d, m, l);
      LocalOk(names, d, log, m, e);
      LocalTracking(names, d, log, m, e, n);
      if l.dispatch {
        DispatchTracks(names, d1, log + [x] + Outs(l.acts), n);
        OutsConcat(l.acts, Dispatch(d1).1);
        assert log + [x] + Outs(l.acts) + Outs(Dispatch(d1).1) == log + [x] + Outs(Step(d, m, e).1);
      }
    }
  }

  lemma NoOuts(log: seq<Entry>)
    ensures log + Outs([]) == log
  {
  }

  lemma AddedTracks(names: set<Name>, d: Daemon, log: seq<Entry>, m: Name, n: Name)
    requires RunOk(names, d, log) && n in Added(d, m).instances
    requires n in d.instances ==> Tracking(names, d, log, n)
    ensures Tracking(names, Added(d, m), log + [In(Add(m))] + Outs([]), n)
  {
    DigestSnoc(names, log, In(Add(m)), n);
    NoOuts(log + [In(Add(m))]);
    if n in d.instances { RunInstanceOk(names, d, log, n); }
  }

  lemma RemovedTracks(names: set<Name>, d: Daemon, log: seq<Entry>, m: Name, n: Name)
    requires Tracking(names, d, log, n) && n in Removed(d, m).instances
    ensures Tracking(names, Removed(d, m), log + [In(Remove(m))] + Outs([]), n)
  {
    DigestSnoc(names, log, In(Remove(m)), n);
    NoOuts(log + [In(Remove(m))]);
  }

  lemma AdvanceTracks(names: set<Name>, d: Daemon, log: seq<Entry>, x: Input, n: Name)
    requires RunOk(names, d, log) && n in Advance(d, x).0.instances && !ReturnsToBusy(d, n, x)
    requires n in d.instances ==> Tracking(names, d, log, n)
    ensures Tracking(names, Advance(d, x).0, log + [In(x)] + Outs(Advance(d, x).1), n)
  {
    hide RunOk, Tracking, ReturnsToBusy, Step, Outs;
    match x
    case Observe(m, e) =>
      StepNames(d, m, e);
      ObserveTracks(names, d, log, m, e, n);
    case Add(m) => AddedTracks(names, d, log, m, n);
    case Remove(m) => RemovedTracks(names, d, log, m, n);
  }

  lemma NewTracks(names: set<Name>, maxConcurrent: nat, n: Name)
    requires n in names
    ensures Tracking(names, New(names, maxConcurrent), [], n)
  {
  }

  /** In a run where no HEAD of `n` returns to the busy sha past a pending one,
      the newest HEAD of `n` is tracked after every step. */
  lemma {:induction false} RunTracks(names: set<Name>, maxConcurrent: nat, xs: seq<Input>, n: Name)
    requires forall k :: 0 <= k < |xs| ==> !ReturnsToBusy(After(New(names, maxConcurrent), xs[..k]), n, xs[k])
    requires n in After(New(names, maxConcurrent), xs).instances
    ensures Tracking(names, After(New(names, maxConcurrent), xs), Log(New(names, maxConcurrent), xs), n)
    decreases |xs|
  {
    hide RunOk, Tracking, ReturnsToBusy, Advance, Outs;
    var d0 := New(names, maxConcurrent);
    if xs == [] {
      NewTracks(names, maxConcurrent, n);
    } else {
      var front, x := xs[..|xs| - 1], xs[|xs| - 1];
      var d, log := After(d0, front), Log(d0, front);
      assert forall k :: 0 <= k < |front| ==> front[..k] == xs[..k] && front[k] == xs[k];
      RunIsSound(names, maxConcurrent, front);
      if n in d.instances { RunTracks(names, maxConcurrent, front, n); }
      AdvanceTracks(names, d, log, x, n);
    }
  }

  lemma {:induction false} DispatchNames(d: Daemon)
    ensures Dispatch(d).0.instances.Keys == d.instances.Keys
    decreases |d.queue|
  {
    if SlotFree(d) && HeadDispatchable(d) { DispatchNames(Dispatched(d).0); }
  }

  lemma StepNames(d: Daemon, n: Name, e: Event)
    ensures Step(d, n, e).0.instances.Keys == d.instances.Keys
  {
    if n in d.instances { DispatchNames(Install(d, n, LocalStep(d.instances[n], n, e, d.nextGen))); }
  }

  // ------------------------------------------------------------ the newest HEAD is never lost

  /** Whatever the interleaving of builds, probes, deaths and other instances:
      the newest HEAD of an instance is in its pipeline, pending behind it, or
      settled by a Promote or RecordRed of its sha. */
  lemma NewestHeadNeverLost(names: set<Name>, maxConcurrent: nat, xs: seq<Input>, n: Name, j: nat, sha: Sha)
    requires forall k :: 0 <= k < |xs| ==> !ReturnsToBusy(After(New(names, maxConcurrent), xs[..k]), n, xs[k])
    requires n in After(New(names, maxConcurrent), xs).instances
    requires NewestHeadAt(names, Log(New(names, maxConcurrent), xs), n, j, sha)
    ensures
      var log := Log(New(names, maxConcurrent), xs);
      || Located(After(New(names, maxConcurrent), xs).instances[n], sha)
      || (exists p :: 0 <= p < |log| && (IsPromote(log[p], n, sha) || IsRed(log[p], n, sha)))
  {
    var log := Log(New(names, maxConcurrent), xs);
    RunTracks(names, maxConcurrent, xs, n);
    NewestIs(names, log, n, j, sha);
    var f := Digest(names, log, n);
    if sha in f.promoted {
      var p := PromotedMeans(names, log, n, sha);
    } else if sha in f.reds {
      var p := RedMeans(names, log, n, sha);
    }
  }

  predicate IsAnyHead(e: Entry, n: Name) {
    e.In? && e.input.Observe? && e.input.name == n && e.input.event.HeadAdvanced?
  }

  /** Position `j` holds the last HEAD of the configured instance `n`, in its
      current lifetime. */
  ghost predicate NewestHeadAt(names: set<Name>, log: seq<Entry>, n: Name, j: nat, sha: Sha) {
    && j < |log| && IsHead(log[j], n, sha) && Spared(log, j, n)
    && Digest(names, log[..j], n).present
    && (forall k :: j < k < |log| ==> !IsAnyHead(log[k], n))
  }

  lemma {:induction false} NewestIs(names: set<Name>, log: seq<Entry>, n: Name, j: nat, sha: Sha)
    requires NewestHeadAt(names, log, n, j, sha)
    ensures Digest(names, log, n).newest == Some(sha) && Digest(names, log, n).present
    decreases |log|
  {
    var front := log[..|log| - 1];
    if j < |log| - 1 {
      assert front[..j] == log[..j];
      NewestIs(names, front, n, j, sha);
    } else {
      assert log[..j] == front;
    }
  }

  /** HEADs of `n` never repeat and never name a recovered sha. */
  ghost predicate HeadsAreFresh(log: seq<Entry>, n: Name) {
    forall a, b, sha :: 0 <= a < b < |log| && IsHead(log[b], n, sha) ==>
      !IsHead(log[a], n, sha) && !IsRecovery(log[a], n, sha)
  }

  lemma {:induction false} LogPrefix(d: Daemon, xs: seq<Input>, k: nat)
    requires k < |xs|
    ensures
      var log, before := Log(d, xs), Log(d, xs[..k]);
      |before| < |log| && log[..|before|] == before && log[|before|] == In(xs[k])
    decreases |xs|
  {
    var front := xs[..|xs| - 1];
    var last := |xs| - 1;
    if k < last {
      assert front[..k] == xs[..k];
      LogPrefix(d, front, k);
      var log, fl := Log(d, xs), Log(d, front);
      assert log[..|fl|] == fl;
      assert fl[..|Log(d, xs[..k])|] == Log(d, xs[..k]);
    } else {
      assert xs[..k] == front;
    }
  }

  /** A fresh HEAD is the first entry to name its sha. */
  lemma NamesFirst(log: seq<Entry>, n: Name, a: nat, b: nat, sha: Sha)
    requires HeadsAreFresh(log, n) && a < |log| && b < |log| && IsHead(log[b], n, sha)
    requires IsHead(log[a], n, sha) || IsRecovery(log[a], n, sha)
    ensures b <= a
  {
  }

  lemma ReturnWasNamed(names: set<Name>, d: Daemon, log: seq<Entry>, n: Name, x: Input) returns (a: nat)
    requires RunOk(names, d, log) && ReturnsToBusy(d, n, x)
    ensures a < |log| && (IsHead(log[a], n, x.event.sha) || IsRecovery(log[a], n, x.event.sha))
    ensures IsHead(In(x), n, x.event.sha)
  {
    RunInstanceOk(names, d, log, n);
    a := MentionedMeans(names, log, n, x.event.sha);
  }

  lemma FreshHeadsDoNotReturn(names: set<Name>, maxConcurrent: nat, xs: seq<Input>, n: Name, k: nat)
    requires k < |xs| && HeadsAreFresh(Log(New(names, maxConcurrent), xs), n)
    ensures !ReturnsToBusy(After(New(names, maxConcurrent), xs[..k]), n, xs[k])
  {
    hide RunOk, ReturnsToBusy, HeadsAreFresh, IsHead, IsRecovery, After, Log, New;
    var d0 := New(names, maxConcurrent);
    var d, before, log := After(d0, xs[..k]), Log(d0, xs[..k]), Log(d0, xs);
    if ReturnsToBusy(d, n, xs[k]) {
      RunIsSound(names, maxConcurrent, xs[..k]);
      var a := ReturnWasNamed(names, d, before, n, xs[k]);
      LogPrefix(d0, xs, k);
      assert log[a] == log[..|before|][a];
      NamesFirst(log, n, a, |before|, xs[k].event.sha);
      assert false;
    }
  }

  lemma SettledAfter(names: set<Name>, log: seq<Entry>, n: Name, j: nat, sha: Sha, p: nat)
    requires Sound(names, log) && HeadsAreFresh(log, n)
    requires j < |log| && IsHead(log[j], n, sha)
    requires p < |log| && (IsPromote(log[p], n, sha) || IsRed(log[p], n, sha))
    ensures j < p
  {
    DecidedWasNamed(names, log, n, sha, p);
    var a :| 0 <= a < p && (IsHead(log[a], n, sha) || IsRecovery(log[a], n, sha));
    hide Sound, HeadsAreFresh;
    NamesFirst(log, n, a, j, sha);
  }

  /** With fresh HEADs the newest one is in the pipeline, pending, or settled by
      a Promote or RecordRed emitted after it arrived. */
  lemma FreshHeadNeverLost(names: set<Name>, maxConcurrent: nat, xs: seq<Input>, n: Name, j: nat, sha: Sha)
    requires HeadsAreFresh(Log(New(names, maxConcurrent), xs), n)
    requires n in After(New(names, maxConcurrent), xs).instances
    requires NewestHeadAt(names, Log(New(names, maxConcurrent), xs), n, j, sha)
    ensures
      var log := Log(New(names, maxConcurrent), xs);
      || Located(After(New(names, maxConcurrent), xs).instances[n], sha)
      || (exists p :: j < p < |log| && (IsPromote(log[p], n, sha) || IsRed(log[p], n, sha)))
  {
    hide ReturnsToBusy, HeadsAreFresh, After, Log, New, Digest, Spared, Located, Sound, Inv, AllSupported;
    var d0 := New(names, maxConcurrent);
    var log := Log(d0, xs);
    forall k | 0 <= k < |xs| ensures !ReturnsToBusy(After(d0, xs[..k]), n, xs[k]) {
      FreshHeadsDoNotReturn(names, maxConcurrent, xs, n, k);
    }
    NewestHeadNeverLost(names, maxConcurrent, xs, n, j, sha);
    RunIsSound(names, maxConcurrent, xs);
    if !Located(After(d0, xs).instances[n], sha) {
      var p :| 0 <= p < |log| && (IsPromote(log[p], n, sha) || IsRed(log[p], n, sha));
      SettledAfter(names, log, n, j, sha, p);
    }
  }

  /** What is promoted or recorded red was named before. */
  lemma DecidedWasNamed(names: set<Name>, log: seq<Entry>, n: Name, sha: Sha, p: nat)
    requires Sound(names, log) && p < |log| && (IsPromote(log[p], n, sha) || IsRed(log[p], n, sha))
    ensures exists a :: 0 <= a < p && (IsHead(log[a], n, sha) || IsRecovery(log[a], n, sha))
  {
    assert EntrySound(names, log, p);
    var a := MentionedMeans(names, log[..p], n, sha);
    assert log[..p][a] == log[a];
  }

  // ------------------------------------------------------------ exactly which HEADs are met

  /** Served, or the recorded red. */
  predicate Settles(i: Instance, sha: Sha) {
    (i.serving.Some? && i.serving.value.sha == sha) || (i.lastRed.Some? && i.lastRed.value.0 == sha)
  }

  /** No inconclusive result would be retried any more. */
  predicate Exhausted(i: Instance) {
    i.indeterminateStreak >= 1 && i.enospcStreak >= ENOSPC_RETRY_CAP
  }

  /** In the pipeline or pending with nothing else pending, or so far along that
      only a verdict on it can follow. */
  predicate Awaits(i: Instance, sha: Sha) {
    || (Located(i, sha) && (i.pending.Some? ==> i.pending.value == sha))
    || (i.pipeline.Probing? && i.pipeline.sha == sha)
    || (i.pipeline.Building? && i.pipeline.sha == sha && Exhausted(i))
  }

  /** The HEAD returns to the sha that is building, past another that is pending,
      while a retry is still possible. */
  predicate Losable(i: Instance, sha: Sha) {
    && i.pipeline.Building? && i.pipeline.sha == sha && i.pending.Some? && i.pending.value != sha
    && !Exhausted(i) && !Settles(i, sha)
  }

  lemma HeadMeets(i: Instance, n: Name, gen: Gen, sha: Sha)
    requires InstanceOk(i) && !Losable(i, sha)
    ensures var j := LocalStep(i, n, HeadAdvanced(sha), gen).inst; Awaits(j, sha) || Settles(j, sha)
  {
  }

  lemma BuiltMeets(i: Instance, n: Name, g: Gen, outcome: Outcome, sha: Sha)
    requires InstanceOk(i) && Awaits(i, sha) && BuildAccepted(i, g)
    ensures var m := OnBuilt(i, n, i.pipeline.sha, g, outcome); Awaits(m.inst, sha) || Settles(m.inst, sha)
  {
  }

  /** A failed recovery boot of this sha is about to be tried again. */
  predicate Reboots(m: Move, sha: Sha) {
    m.Settle? && RespawnDue(m.inst) && m.inst.lastGreen == Some(sha)
  }

  lemma ProbeMeets(i: Instance, n: Name, e: Event, sha: Sha)
    requires InstanceOk(i) && Awaits(i, sha) && (e.ProbeSucceeded? || e.ProbeFailed?) && ProbeAccepted(i, e.gen)
    ensures var m := Decide(i, n, e); Awaits(m.inst, sha) || Settles(m.inst, sha) || Reboots(m, sha)
  {
  }

  lemma PerformMeets(m: Move, n: Name, gen: Gen, sha: Sha)
    requires !m.Stay? ==> m.inst.pipeline.Idle?
    requires Awaits(m.inst, sha) || Settles(m.inst, sha) || Reboots(m, sha)
    ensures var j := Perform(m, n, gen).inst; Awaits(j, sha) || Settles(j, sha)
  {
  }

  /** Every other event of the instance keeps an awaited sha awaited or settles it. */
  lemma LocalMeets(i: Instance, n: Name, e: Event, gen: Gen, sha: Sha)
    requires InstanceOk(i) && OwnDistinct(i) && Awaits(i, sha) && !e.HeadAdvanced?
    ensures var j := LocalStep(i, n, e, gen).inst; Awaits(j, sha) || Settles(j, sha)
  {
    var m := Decide(i, n, e);
    DecideKeeps(i, n, e);
    if e.BuildFinished? && BuildAccepted(i, e.gen) {
      BuiltMeets(i, n, e.gen, e.outcome, sha);
    } else if (e.ProbeSucceeded? || e.ProbeFailed?) && ProbeAccepted(i, e.gen) {
      ProbeMeets(i, n, e, sha);
    } else {
      assert Awaits(m.inst, sha) || Settles(m.inst, sha);
    }
    PerformMeets(m, n, gen, sha);
  }

  ghost predicate Meets(d: Daemon, n: Name, sha: Sha) {
    n in d.instances && (Awaits(d.instances[n], sha) || Settles(d.instances[n], sha))
  }

  lemma {:induction false} DispatchMeets(d: Daemon, n: Name, sha: Sha)
    requires Meets(d, n, sha)
    ensures Meets(Dispatch(d).0, n, sha)
    decreases |d.queue|
  {
    if SlotFree(d) && HeadDispatchable(d) {
      assert Meets(Dispatched(d).0, n, sha);
      DispatchMeets(Dispatched(d).0, n, sha);
    }
  }

  predicate IsHeadOf(x: Input, n: Name) {
    x.Observe? && x.name == n && x.event.HeadAdvanced?
  }

  lemma ObserveMeets(d: Daemon, m: Name, e: Event, n: Name, sha: Sha)
    requires Inv(d) && n in d.instances
    requires if m == n && e.HeadAdvanced? then e.sha == sha && !Losable(d.instances[n], sha)
             else Awaits(d.instances[n], sha)
    ensures Meets(Step(d, m, e).0, n, sha)
  {
    hide Dispatch, Awaits, Settles, Losable, Decide, Perform;
    var i := d.instances[n];
    assert InstanceOk(i) && OwnDistinct(i);
    if m in d.instances {
      var l := LocalStep(d.instances[m], m, e, d.nextGen);
      if m == n {
        if e.HeadAdvanced? { HeadMeets(i, n, d.nextGen, sha); } else { LocalMeets(i, n, e, d.nextGen, sha); }
      }
      DispatchMeets(Install(d, m, l), n, sha);
    }
  }

  lemma AdvanceMeets(d: Daemon, x: Input, n: Name, sha: Sha)
    requires Inv(d) && n in d.instances && Awaits(d.instances[n], sha) && x != Remove(n) && !IsHeadOf(x, n)
    ensures Meets(Advance(d, x).0, n, sha)
  {
    if x.Observe? {
      hide Inv, Awaits, Settles, Step;
      ObserveMeets(d, x.name, x.event, n, sha);
    }
  }

  lemma AdvanceKeepsInv(d: Daemon, x: Input)
    requires Inv(d)
    ensures Inv(Advance(d, x).0)
  {
    match x
    case Observe(n, e) => StepKeeps(d, n, e);
    case Add(n) => AddedKeeps(d, n);
    case Remove(n) => RemovedKeeps(d, n);
  }

  /** No newer HEAD of the instance, and no removal. */
  predicate Stays(ys: seq<Input>, n: Name) {
    forall k :: 0 <= k < |ys| ==> ys[k] != Remove(n) && !IsHeadOf(ys[k], n)
  }

  /** The sha is in the pipeline or pending, or the instance has come to serve it
      or to record it as red. */
  ghost predicate Met(d: Daemon, ys: seq<Input>, n: Name, sha: Sha) {
    || (n in After(d, ys).instances && Located(After(d, ys).instances[n], sha))
    || (exists k :: 0 <= k <= |ys| && n in After(d, ys[..k]).instances && Settles(After(d, ys[..k]).instances[n], sha))
  }

  lemma {:induction false} StaysMet(d: Daemon, ys: seq<Input>, n: Name, sha: Sha)
    requires Inv(d) && Meets(d, n, sha) && Stays(ys, n)
    ensures Inv(After(d, ys)) && Met(d, ys, n, sha)
    ensures (forall k :: 0 <= k <= |ys| && n in After(d, ys[..k]).instances ==>
              !Settles(After(d, ys[..k]).instances[n], sha)) ==> Meets(After(d, ys), n, sha)
    decreases |ys|
  {
    hide Inv, Advance, Awaits, Settles;
    assert ys[..|ys|] == ys;
    if ys == [] {
      AwaitsLocated(d, n, sha);
    } else {
      var front, x := ys[..|ys| - 1], ys[|ys| - 1];
      StaysMet(d, front, n, sha);
      var d1 := After(d, front);
      AdvanceKeepsInv(d1, x);
      assert forall k :: 0 <= k <= |front| ==> front[..k] == ys[..k];
      if forall k :: 0 <= k <= |front| && n in After(d, ys[..k]).instances ==>
           !Settles(After(d, ys[..k]).instances[n], sha) {
        assert front[..|front|] == front;
        AdvanceMeets(d1, x, n, sha);
        AwaitsLocated(After(d, ys), n, sha);
      }
    }
  }

  lemma AwaitsLocated(d: Daemon, n: Name, sha: Sha)
    requires Meets(d, n, sha)
    ensures Located(d.instances[n], sha) || Settles(d.instances[n], sha)
  {
  }

  /** The inconclusive result that sends the build of `sha` round as the pending one. */
  function Losing(i: Instance): Event
    requires i.pipeline.Building?
  {
    BuildFinished(i.pipeline.gen, if i.indeterminateStreak < 1 then Indeterminate("") else Failed("", true, []))
  }

  predicate Forgets(i: Instance, sha: Sha) { !Located(i, sha) && !Settles(i, sha) }

  lemma {:induction false} DispatchForgets(d: Daemon, n: Name, sha: Sha)
    requires n in d.instances && Forgets(d.instances[n], sha)
    ensures n in Dispatch(d).0.instances && Forgets(Dispatch(d).0.instances[n], sha)
    decreases |d.queue|
  {
    if SlotFree(d) && HeadDispatchable(d) { DispatchForgets(Dispatched(d).0, n, sha); }
  }

  lemma LocalForgets(i: Instance, n: Name, gen: Gen, sha: Sha)
    requires InstanceOk(i) && Losable(i, sha)
    ensures Forgets(LocalStep(i, n, Losing(i), gen).inst, sha)
  {
    Boundary.RetryIs(i, n, Losing(i), gen);
    hide LocalStep;
  }

  lemma StepForgets(d: Daemon, n: Name, sha: Sha)
    requires Inv(d) && n in d.instances && Losable(d.instances[n], sha)
    ensures
      var d1 := Step(d, n, Losing(d.instances[n])).0;
      n in d1.instances && Forgets(d1.instances[n], sha)
  {
    hide LocalStep, Dispatch, Forgets, Losable;
    var i := d.instances[n];
    assert InstanceOk(i);
    hide Inv;
    LosableBuilds(i, sha);
    LocalForgets(i, n, d.nextGen, sha);
    DispatchForgets(Install(d, n, LocalStep(i, n, Losing(i), d.nextGen)), n, sha);
  }

  lemma LosableBuilds(i: Instance, sha: Sha)
    requires Losable(i, sha)
    ensures i.pipeline.Building? && !Settles(i, sha)
  {
  }

  lemma LosableIsLost(d: Daemon, n: Name, sha: Sha)
    requires Inv(d) && n in d.instances && Losable(d.instances[n], sha)
    ensures
      var ys := [Observe(n, Losing(d.instances[n]))];
      Stays(ys, n) && !Met(d, ys, n, sha)
  {
    hide Inv, Step, Losable, Located, Settles;
    LosableBuilds(d.instances[n], sha);
    var x := Observe(n, Losing(d.instances[n]));
    StepForgets(d, n, sha);
    assert [x][..0] == [] && [x][..1] == [x];
    assert After(d, []) == d && After(d, [x]) == Advance(d, x).0;
  }

  lemma HeadMoves(d: Daemon, n: Name, sha: Sha)
    requires Inv(d) && n in d.instances
    ensures
      var d1 := Step(d, n, HeadAdvanced(sha)).0;
      n in d1.instances && (Losable(d.instances[n], sha) ==> Losable(d1.instances[n], sha))
  {
    if Losable(d.instances[n], sha) {
      assert d.instances[n := d.instances[n]] == d.instances;
    } else {
      StepNames(d, n, HeadAdvanced(sha));
    }
  }

  /** A HEAD is never lost, whatever follows short of a newer one: it stays in the
      pipeline or pending until the instance has come to serve it or to record it
      as red; exactly unless it returns to the building sha past another that is
      pending while a retry is still possible. */
  lemma HeadIsMetIff(names: set<Name>, maxConcurrent: nat, xs: seq<Input>, n: Name, sha: Sha)
    requires n in After(New(names, maxConcurrent), xs).instances
    ensures
      var d := After(New(names, maxConcurrent), xs);
      (forall ys :: Stays(ys, n) ==> Met(Step(d, n, HeadAdvanced(sha)).0, ys, n, sha)) <==>
        !Losable(d.instances[n], sha)
  {
    hide Inv, Losable, Step, After, Met, Meets;
    var d := After(New(names, maxConcurrent), xs);
    var d1 := Step(d, n, HeadAdvanced(sha)).0;
    RunKeepsInvariant(names, maxConcurrent, xs);
    StepKeeps(d, n, HeadAdvanced(sha));
    HeadMoves(d, n, sha);
    if Losable(d.instances[n], sha) {
      LosableIsLost(d1, n, sha);
    } else {
      ObserveMeets(d, n, HeadAdvanced(sha), n, sha);
      forall ys | Stays(ys, n) ensures Met(d1, ys, n, sha) { StaysMet(d1, ys, n, sha); }
    }
  }
}
