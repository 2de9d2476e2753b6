/**
 * When an inconclusive result, a full disk or a failed recovery boot is tried
 * again and when it is recorded red, in log positions: what the retry counters
 * of an instance stand for.
 */
module AppStreaks {
  import opened Wrappers
  import opened AppModel
  import opened AppInvariant
  import opened AppHistory
  import opened AppRuns
  import opened AppTheorems
  import Boundary = AppBoundary

  // ------------------------------------------------------------ what the log adds up to

  predicate Inconclusive(e: Event) { e.BuildFinished? && e.outcome.Indeterminate? }

  predicate DiskIsFull(e: Event) { e.BuildFinished? && e.outcome.Failed? && e.outcome.enospc }

  predicate Conclusive(e: Event) { e.BuildFinished? && !Inconclusive(e) && !DiskIsFull(e) }

  /** `shaky`: the last accepted result is inconclusive and was not recorded red.
      `full`: disk-full results since the last that settled the matter.
      `failed`: recovery boots failed since the last that settled the matter.
      `heard`: the instance's last event, if a result or failed boot was accepted. */
  datatype Tally = Tally(shaky: bool, full: nat, failed: nat, heard: Option<Event>)

  const Clean := Tally(false, 0, 0, None)

  function TallyHeard(t: Tally, f: Facts, e: Event): Tally {
    if e.BuildFinished? && f.openBuild.Some? && f.openBuild.value.1 == e.gen then
      Tally(Inconclusive(e), if DiskIsFull(e) then t.full + 1 else if Conclusive(e) then 0 else t.full,
            t.failed, Some(e))
    else if e.ProbeFailed? && f.openBoot == Some(e.gen) then t.(failed := t.failed + 1, heard := Some(e))
    else t.(heard := None)
  }

  function TallyOrdered(t: Tally, a: Action): Tally {
    if a.Promote? then t.(failed := 0)
    else if a.RecordRed? && t.heard.Some? then
      Tally(t.shaky && !Inconclusive(t.heard.value), if DiskIsFull(t.heard.value) then 0 else t.full,
            if t.heard.value.ProbeFailed? then 0 else t.failed, t.heard)
    else t
  }

  function TallyNoted(t: Tally, f: Facts, e: Entry, n: Name): Tally {
    match e
    case In(Add(m)) => if m == n && !f.present then Clean else t
    case In(Remove(m)) => if m == n then Clean else t
    case In(Observe(m, ev)) => if m == n && f.present then TallyHeard(t, f, ev) else t
    case Out(a) => if a.name == n && f.present then TallyOrdered(t, a) else t
  }

  function TallyOf(names: set<Name>, log: seq<Entry>, n: Name): Tally {
    if log == [] then Clean
    else
      var front := log[..|log| - 1];
      TallyNoted(TallyOf(names, front, n), Digest(names, front, n), log[|log| - 1], n)
  }

  lemma TallySnoc(names: set<Name>, log: seq<Entry>, e: Entry, n: Name)
    ensures TallyOf(names, log + [e], n) == TallyNoted(TallyOf(names, log, n), Digest(names, log, n), e, n)
  {
    assert (log + [e])[..|log|] == log;
  }

  /** The retry counters are what the log adds up to. */
  predicate StreaksMatch(i: Instance, t: Tally) {
    && i.indeterminateStreak == (if t.shaky then 1 else 0)
    && i.enospcStreak == t.full
    && i.respawnStreak == t.failed
  }

  // ------------------------------------------------------------ one event

  function TallyAll(t: Tally, acts: seq<Action>): Tally
    decreases |acts|
  {
    if acts == [] then t else TallyAll(TallyOrdered(t, acts[0]), acts[1..])
  }

  lemma {:induction false} TallyConcat(t: Tally, a: seq<Action>, b: seq<Action>)
    ensures TallyAll(t, a + b) == TallyAll(TallyAll(t, a), b)
    decreases |a|
  {
    hide TallyOrdered;
    if a == [] {
      assert a + b == b;
    } else {
      assert (a + b)[1..] == a[1..] + b;
      TallyConcat(TallyOrdered(t, a[0]), a[1..], b);
    }
  }

  lemma ShortTally(t: Tally, acts: seq<Action>)
    ensures |acts| == 0 ==> TallyAll(t, acts) == t
    ensures |acts| == 1 ==> TallyAll(t, acts) == TallyOrdered(t, acts[0])
    ensures |acts| == 2 ==> TallyAll(t, acts) == TallyOrdered(TallyOrdered(t, acts[0]), acts[1])
  {
    hide TallyOrdered;
    if |acts| == 2 {
      var rest := acts[1..];
      assert rest[1..] == [] && TallyAll(TallyOrdered(t, acts[0]), rest)
                                == TallyOrdered(TallyOrdered(t, acts[0]), rest[0]);
    }
  }

  lemma BuiltStreaks(i: Instance, n: Name, g: Gen, o: Outcome, f: Facts, t: Tally)
    requires InstanceOk(i) && Counted(i, f) && StreaksMatch(i, t) && BuildAccepted(i, g)
    ensures
      var m := OnBuilt(i, n, i.pipeline.sha, g, o);
      StreaksMatch(m.inst, TallyAll(TallyHeard(t, f, BuildFinished(g, o)), m.acts))
  {
    hide DiskFull, IndeterminateTwice;
    ShortTally(TallyHeard(t, f, BuildFinished(g, o)), OnBuilt(i, n, i.pipeline.sha, g, o).acts);
  }

  lemma ProbeStreaks(i: Instance, n: Name, e: Event, f: Facts, t: Tally)
    requires InstanceOk(i) && Counted(i, f) && StreaksMatch(i, t)
    requires (e.ProbeSucceeded? || e.ProbeFailed?) && ProbeAccepted(i, e.gen)
    ensures var m := Decide(i, n, e); StreaksMatch(m.inst, TallyAll(TallyHeard(t, f, e), m.acts))
  {
    hide ProbeRed, RespawnRed;
    ShortTally(TallyHeard(t, f, e), Decide(i, n, e).acts);
  }

  lemma DecideStreaks(i: Instance, n: Name, e: Event, f: Facts, t: Tally)
    requires InstanceOk(i) && Counted(i, f) && StreaksMatch(i, t)
    ensures var m := Decide(i, n, e); StreaksMatch(m.inst, TallyAll(TallyHeard(t, f, e), m.acts))
  {
    if e.BuildFinished? && BuildAccepted(i, e.gen) {
      BuiltStreaks(i, n, e.gen, e.outcome, f, t);
    } else if (e.ProbeSucceeded? || e.ProbeFailed?) && ProbeAccepted(i, e.gen) {
      ProbeStreaks(i, n, e, f, t);
    } else {
      assert Decide(i, n, e).acts == [];
    }
  }

  lemma PerformStreaks(m: Move, n: Name, gen: Gen, t: Tally)
    requires StreaksMatch(m.inst, TallyAll(t, m.acts))
    ensures var l := Perform(m, n, gen); StreaksMatch(l.inst, TallyAll(t, l.acts))
  {
    if !m.Stay? {
      var rest := Respawned(m.inst, n, gen).acts;
      TallyConcat(t, m.acts, rest);
      ShortTally(TallyAll(t, m.acts), rest);
    }
  }

  lemma LocalStreaks(i: Instance, n: Name, e: Event, gen: Gen, f: Facts, t: Tally)
    requires InstanceOk(i) && Counted(i, f) && StreaksMatch(i, t)
    ensures var l := LocalStep(i, n, e, gen); StreaksMatch(l.inst, TallyAll(TallyHeard(t, f, e), l.acts))
  {
    hide Decide, Perform, TallyAll, TallyHeard;
    DecideStreaks(i, n, e, f, t);
    PerformStreaks(Decide(i, n, e), n, gen, TallyHeard(t, f, e));
  }

  // ------------------------------------------------------------ whole runs

  ghost predicate Streaks(names: set<Name>, d: Daemon, log: seq<Entry>, n: Name) {
    n in d.instances && StreaksMatch(d.instances[n], TallyOf(names, log, n))
  }

  lemma {:induction false} TallyOuts(names: set<Name>, log: seq<Entry>, acts: seq<Action>, m: Name, n: Name)
    requires Digest(names, log, m).present && forall a :: a in acts ==> a.name == m
    ensures TallyOf(names, log + Outs(acts), n) ==
            if m == n then TallyAll(TallyOf(names, log, n), acts) else TallyOf(names, log, n)
    decreases |acts|
  {
    hide TallyOrdered, TallyOf, Digest, Ordered;
    if acts == [] {
      assert log + Outs(acts) == log;
    } else {
      var log1 := log + [Out(acts[0])];
      TallySnoc(names, log, Out(acts[0]), n);
      DigestSnoc(names, log, Out(acts[0]), m);
      StillPresent(Digest(names, log, m), acts[0]);
      assert acts[0] in acts && forall a :: a in acts[1..] ==> a in acts;
      TallyOuts(names, log1, acts[1..], m, n);
      assert log + Outs(acts) == log1 + Outs(acts[1..]);
    }
  }

  lemma StartKeepsStreaks(names: set<Name>, d: Daemon, log: seq<Entry>, n: Name)
    requires HeadDispatchable(d) && Streaks(names, d, log, n)
    ensures Streaks(names, Dispatched(d).0, log + [Out(Dispatched(d).1)], n)
  {
    TallySnoc(names, log, Out(Dispatched(d).1), n);
    hide TallyOf, Digest;
  }

  lemma {:induction false} DispatchKeepsStreaks(names: set<Name>, d: Daemon, log: seq<Entry>, n: Name)
    requires Streaks(names, d, log, n)
    ensures Streaks(names, Dispatch(d).0, log + Outs(Dispatch(d).1), n)
    decreases |d.queue|
  {
    hide Streaks, SlotFree, HeadDispatchable, Dispatched, Dispatch, Outs;
    if SlotFree(d) && HeadDispatchable(d) {
      var (d1, a) := Dispatched(d);
      DispatchUnfolds(d);
      StartKeepsStreaks(names, d, log, n);
      DispatchKeepsStreaks(names, d1, log + [Out(a)], n);
      assert log + Outs(Dispatch(d).1) == (log + [Out(a)]) + Outs(Dispatch(d1).1);
    } else {
      DispatchStops(d);
      assert log + Outs(Dispatch(d).1) == log;
    }
  }

  lemma ObservedTally(names: set<Name>, log: seq<Entry>, m: Name, e: Event, acts: seq<Action>, n: Name)
    requires Digest(names, log, m).present && forall a :: a in acts ==> a.name == m
    ensures TallyOf(names, log + [In(Observe(m, e))] + Outs(acts), n) ==
            if m == n then TallyAll(TallyHeard(TallyOf(names, log, n), Digest(names, log, n), e), acts)
            else TallyOf(names, log, n)
  {
    hide TallyOf, TallyHeard, TallyAll, Digest, Heard, Outs;
    var log1 := log + [In(Observe(m, e))];
    TallySnoc(names, log, In(Observe(m, e)), n);
    DigestSnoc(names, log, In(Observe(m, e)), m);
    HeardPresent(Digest(names, log, m), e);
    TallyOuts(names, log1, acts, m, n);
  }

  lemma HeardPresent(f: Facts, e: Event)
    ensures Heard(f, e).present == f.present
  {
  }

  lemma ObserveKeepsStreaks(names: set<Name>, d: Daemon, log: seq<Entry>, m: Name, e: Event, n: Name)
    requires RunOk(names, d, log) && Streaks(names, d, log, n)
    ensures Streaks(names, Step(d, m, e).0, log + [In(Observe(m, e))] + Outs(Step(d, m, e).1), n)
  {
    hide LocalStep, Dispatch, Outs, TallyOf, Digest, Sound, StreaksMatch, TallyAll, TallyHeard;
    var x := In(Observe(m, e));
    if m !in d.instances {
      TallySnoc(names, log, x, n);
      NoOuts(log + [x]);
    } else {
      var i := d.instances[m];
      var l := LocalStep(i, m, e, d.nextGen);
      assert Supported(i, Digest(names, log, m)) && InstanceOk(i);
      ReadyIn(d, m);
      LocalStepKeeps(i, m, e, d.nextGen);
      hide Inv, AllSupported;
      ObservedTally(names, log, m, e, l.acts, n);
      if m == n { LocalStreaks(i, n, e, d.nextGen, Digest(names, log, n), TallyOf(names, log, n)); }
      assert Streaks(names, Install(d, m, l), log + [x] + Outs(l.acts), n);
      if l.dispatch {
        var d1 := Install(d, m, l);
        DispatchKeepsStreaks(names, d1, log + [x] + Outs(l.acts), n);
        OutsConcat(l.acts, Dispatch(d1).1);
        assert log + [x] + Outs(l.acts) + Outs(Dispatch(d1).1) == log + [x] + Outs(Step(d, m, e).1);
      }
    }
  }

  lemma ReadyIn(d: Daemon, n: Name)
    requires Inv(d) && n in d.instances
    ensures Ready(d.instances[n], d.nextGen)
  {
  }

  lemma NoOuts(log: seq<Entry>)
    ensures log + Outs([]) == log
  {
  }

  lemma AdvanceKeepsStreaks(names: set<Name>, d: Daemon, log: seq<Entry>, x: Input, n: Name)
    requires RunOk(names, d, log) && n in Advance(d, x).0.instances
    requires n in d.instances ==> Streaks(names, d, log, n)
    ensures Streaks(names, Advance(d, x).0, log + [In(x)] + Outs(Advance(d, x).1), n)
  {
    hide TallyOf, Digest, Step, Outs, Inv, Sound;
    match x
    case Observe(m, e) =>
      StepKeepsNames(d, m, e);
      ObserveKeepsStreaks(names, d, log, m, e, n);
    case Add(m) =>
      TallySnoc(names, log, In(x), n);
      NoOuts(log + [In(x)]);
    case Remove(m) =>
      TallySnoc(names, log, In(x), n);
      NoOuts(log + [In(x)]);
  }

  lemma {:induction false} DispatchKeepsNames(d: Daemon)
    ensures Dispatch(d).0.instances.Keys == d.instances.Keys
    decreases |d.queue|
  {
    if SlotFree(d) && HeadDispatchable(d) { DispatchKeepsNames(Dispatched(d).0); }
  }

  lemma StepKeepsNames(d: Daemon, n: Name, e: Event)
    ensures Step(d, n, e).0.instances.Keys == d.instances.Keys
  {
    hide LocalStep, Dispatch;
    if n in d.instances { DispatchKeepsNames(Install(d, n, LocalStep(d.instances[n], n, e, d.nextGen))); }
  }

  lemma NewStreaks(names: set<Name>, maxConcurrent: nat, n: Name)
    requires n in names
    ensures Streaks(names, New(names, maxConcurrent), [], n)
  {
  }

  /** In every run the retry counters of every instance are what the log adds up to. */
  lemma {:induction false} RunKeepsStreaks(names: set<Name>, maxConcurrent: nat, xs: seq<Input>, n: Name)
    requires n in After(New(names, maxConcurrent), xs).instances
    ensures Streaks(names, After(New(names, maxConcurrent), xs), Log(New(names, maxConcurrent), xs), n)
    decreases |xs|
  {
    hide RunOk, Streaks, Advance, Outs;
    var d0 := New(names, maxConcurrent);
    if xs == [] {
      NewStreaks(names, maxConcurrent, n);
    } else {
      var front, x := xs[..|xs| - 1], xs[|xs| - 1];
      var d, log := After(d0, front), Log(d0, front);
      RunIsSound(names, maxConcurrent, front);
      if n in d.instances { RunKeepsStreaks(names, maxConcurrent, front, n); }
      AdvanceKeepsStreaks(names, d, log, x, n);
    }
  }

  // ------------------------------------------------------------ reading it back in positions

  predicate IsEvent(e: Entry, n: Name) {
    e.In? && e.input.Observe? && e.input.name == n
  }

  predicate IsAnyRed(e: Entry, n: Name) {
    e.Out? && e.action.RecordRed? && e.action.name == n
  }

  /** The event at `q` was answered by a red: one follows before the instance's next
      event. */
  ghost predicate AnsweredRed(log: seq<Entry>, q: nat, n: Name) {
    exists m :: q < m < |log| && IsAnyRed(log[m], n) && forall k :: q < k < m ==> !IsEvent(log[k], n)
  }

  function EventAt(log: seq<Entry>, q: nat): Event
    requires q < |log| && log[q].In? && log[q].input.Observe?
  {
    log[q].input.event
  }

  /** An accepted build result of this lifetime of the instance. */
  ghost predicate Result(log: seq<Entry>, q: nat, n: Name) {
    q < |log| && Answers(log, q, n) && IsEvent(log[q], n) && EventAt(log, q).BuildFinished? && Spared(log, q, n)
  }

  /** A failed recovery boot of this lifetime of the instance. */
  ghost predicate FailedBoot(log: seq<Entry>, q: nat, n: Name) {
    q < |log| && FailsBoot(log, q, n) && IsEvent(log[q], n) && EventAt(log, q).ProbeFailed? && Spared(log, q, n)
  }

  /** The last accepted result is inconclusive and was not recorded red. */
  ghost predicate LeftOpen(log: seq<Entry>, q: nat, n: Name) {
    && Result(log, q, n) && Inconclusive(EventAt(log, q)) && !AnsweredRed(log, q, n)
    && forall m :: q < m < |log| ==> !Result(log, m, n)
  }

  /** A result that settles the question of the disk: a green build, a red one that
      is not about the disk, or a disk-full one recorded red. */
  ghost predicate SettlesDisk(log: seq<Entry>, m: nat, n: Name) {
    && Result(log, m, n)
    && (Conclusive(EventAt(log, m)) || (DiskIsFull(EventAt(log, m)) && AnsweredRed(log, m, n)))
  }

  /** A disk-full result with nothing since, itself included, that settles it. */
  ghost predicate OpenDisk(log: seq<Entry>, q: nat, n: Name) {
    && Result(log, q, n) && DiskIsFull(EventAt(log, q))
    && forall m :: q <= m < |log| ==> !SettlesDisk(log, m, n)
  }

  ghost function OpenDisks(log: seq<Entry>, n: Name): set<nat> {
    set q | 0 <= q < |log| && OpenDisk(log, q, n)
  }

  /** A promotion, or a failed recovery boot recorded red. */
  ghost predicate SettlesBoot(log: seq<Entry>, m: nat, n: Name) {
    m < |log| && (Promotes(log[m], n) || (FailedBoot(log, m, n) && AnsweredRed(log, m, n)))
  }

  ghost predicate OpenBoot(log: seq<Entry>, q: nat, n: Name) {
    FailedBoot(log, q, n) && forall m :: q <= m < |log| ==> !SettlesBoot(log, m, n)
  }

  ghost function OpenBoots(log: seq<Entry>, n: Name): set<nat> {
    set q | 0 <= q < |log| && OpenBoot(log, q, n)
  }

  // ------------------------------------------------------------ one more entry

  lemma AnsweredStep(log: seq<Entry>, e: Entry, q: nat, n: Name)
    requires q < |log|
    ensures AnsweredRed(log + [e], q, n) <==>
            AnsweredRed(log, q, n) || (IsAnyRed(e, n) && forall k :: q < k < |log| ==> !IsEvent(log[k], n))
  {
    var more := log + [e];
    assert forall k :: 0 <= k < |log| ==> more[k] == log[k];
    if AnsweredRed(more, q, n) {
      var m :| q < m < |more| && IsAnyRed(more[m], n) && forall k :: q < k < m ==> !IsEvent(more[k], n);
      if m < |log| { assert IsAnyRed(log[m], n) && forall k :: q < k < m ==> !IsEvent(log[k], n); }
    }
    if AnsweredRed(log, q, n) {
      var m :| q < m < |log| && IsAnyRed(log[m], n) && forall k :: q < k < m ==> !IsEvent(log[k], n);
      assert IsAnyRed(more[m], n) && forall k :: q < k < m ==> !IsEvent(more[k], n);
    }
    if IsAnyRed(e, n) && forall k :: q < k < |log| ==> !IsEvent(log[k], n) { assert IsAnyRed(more[|log|], n); }
  }

  lemma EarlierStep(log: seq<Entry>, e: Entry, q: nat, n: Name)
    requires q < |log|
    ensures Result(log + [e], q, n) <==> Result(log, q, n) && e != In(Remove(n))
    ensures FailedBoot(log + [e], q, n) <==> FailedBoot(log, q, n) && e != In(Remove(n))
  {
    hide Answers, FailsBoot;
    var more := log + [e];
    assert more[..|more| - 1] == log;
    AnswersEarlier(more, q, n);
    assert more[q] == log[q];
    assert Spared(more, q, n) <==> Spared(log, q, n) && e != In(Remove(n)) by {
      assert forall k :: q <= k < |log| ==> more[k] == log[k];
      assert more[|log|] == e;
    }
  }

  /** Whether the last entry is itself accepted. */
  lemma LastStep(names: set<Name>, log: seq<Entry>, e: Entry, n: Name)
    requires Sound(names, log + [e])
    ensures
      var f := Digest(names, log, n);
      && (Result(log + [e], |log|, n) <==>
            f.present && IsEvent(e, n) && e.input.event.BuildFinished? && f.openBuild.Some?
            && f.openBuild.value.1 == e.input.event.gen)
      && (FailedBoot(log + [e], |log|, n) <==>
            f.present && IsEvent(e, n) && e.input.event.ProbeFailed? && f.openBoot == Some(e.input.event.gen))
  {
    hide Answers, FailsBoot, Digest, Sound;
    var more, f := log + [e], Digest(names, log, n);
    assert more[..|more| - 1] == log && more[|log|] == e;
    AbsentIsBlank(names, log, n);
    if Answers(more, |log|, n) { AnswerIsOpen(names, more, n); }
    if FailsBoot(more, |log|, n) { FailedBootIsOpen(names, more, n); }
    if f.openBuild.Some? && IsResult(e, n, f.openBuild.value.1) { OpenBuildAnswers(names, more, n); }
    if f.openBoot.Some? && IsFailedProbe(e, n, f.openBoot.value) { OpenBootFails(names, more, n); }
  }

  // ------------------------------------------------------------ the last event

  /** Position `p` holds the instance's last event, and it was accepted. */
  ghost predicate Hears(log: seq<Entry>, p: nat, n: Name) {
    (Result(log, p, n) || FailedBoot(log, p, n)) && forall k :: p < k < |log| ==> !IsEvent(log[k], n)
  }

  ghost predicate HeardIs(t: Tally, log: seq<Entry>, n: Name) {
    && (forall p :: Hears(log, p, n) ==> t.heard == Some(EventAt(log, p)))
    && (t.heard.Some? ==> exists p :: Hears(log, p, n))
  }

  lemma {:induction false} HeardInLog(names: set<Name>, log: seq<Entry>, n: Name)
    requires Sound(names, log)
    ensures HeardIs(TallyOf(names, log, n), log, n)
    ensures Digest(names, log, n).present || TallyOf(names, log, n) == Clean
    decreases |log|
  {
    hide TallyOf, TallyNoted, Digest, Noted, Sound, HeardIs, Hears;
    if log == [] {
      NothingHeard(names, n);
    } else {
      var front, e := log[..|log| - 1], log[|log| - 1];
      assert log == front + [e];
      FrontSound(names, log);
      HeardInLog(names, front, n);
      TallySnoc(names, front, e, n);
      DigestSnoc(names, front, e, n);
      HeardStep(names, front, e, n);
    }
  }

  lemma NothingHeard(names: set<Name>, n: Name)
    ensures TallyOf(names, [], n) == Clean && HeardIs(Clean, [], n)
  {
    hide Answers, FailsBoot;
  }

  lemma HearsStep(log: seq<Entry>, e: Entry, p: nat, n: Name)
    requires p < |log|
    ensures Hears(log + [e], p, n) <==> Hears(log, p, n) && !IsEvent(e, n) && e != In(Remove(n))
  {
    hide Result, FailedBoot;
    EarlierStep(log, e, p, n);
    var more := log + [e];
    assert forall k :: 0 <= k < |log| ==> more[k] == log[k];
    assert more[|log|] == e;
  }

  lemma HeardStep(names: set<Name>, log: seq<Entry>, e: Entry, n: Name)
    requires Sound(names, log + [e])
    requires HeardIs(TallyOf(names, log, n), log, n)
    requires Digest(names, log, n).present || TallyOf(names, log, n) == Clean
    ensures
      var t := TallyNoted(TallyOf(names, log, n), Digest(names, log, n), e, n);
      && HeardIs(t, log + [e], n)
      && (Noted(Digest(names, log, n), e, n).present || t == Clean)
  {
    hide TallyOf, Digest, Sound, Result, FailedBoot, Hears;
    var more, f, t := log + [e], Digest(names, log, n), TallyOf(names, log, n);
    LastStep(names, log, e, n);
    LastHears(log, e, n);
    HearsInside(log, n);
    HearsInside(more, n);
    forall p: nat | p < |log| ensures Hears(more, p, n) <==> Hears(log, p, n) && !IsEvent(e, n) && e != In(Remove(n)) {
      HearsStep(log, e, p, n);
    }
    if t.heard.Some? {
      var p :| Hears(log, p, n);
      assert Hears(more, p, n) <==> !IsEvent(e, n) && e != In(Remove(n));
    }
    assert Hears(more, |log|, n) <==>
           f.present && IsEvent(e, n) && TallyHeard(t, f, e.input.event).heard == Some(e.input.event);
  }

  lemma LastHears(log: seq<Entry>, e: Entry, n: Name)
    ensures Hears(log + [e], |log|, n) <==> Result(log + [e], |log|, n) || FailedBoot(log + [e], |log|, n)
  {
    hide Result, FailedBoot;
  }

  lemma HearsInside(log: seq<Entry>, n: Name)
    ensures forall p: nat :: Hears(log, p, n) ==> p < |log| && IsEvent(log[p], n)
  {
    hide Answers, FailsBoot;
  }

  // ------------------------------------------------------------ the counters, one entry further

  /** This entry is a red that answers the instance's last event. */
  ghost predicate RedAnswers(t: Tally, e: Entry, n: Name) {
    IsAnyRed(e, n) && t.heard.Some?
  }

  /** What a further entry does to an earlier result. */
  lemma EarlierResult(t: Tally, log: seq<Entry>, e: Entry, q: nat, n: Name)
    requires HeardIs(t, log, n) && q < |log|
    ensures Result(log + [e], q, n) || FailedBoot(log + [e], q, n) ==>
              (AnsweredRed(log + [e], q, n) <==> AnsweredRed(log, q, n) || (IsAnyRed(e, n) && Hears(log, q, n)))
    ensures Hears(log, q, n) ==> t.heard == Some(EventAt(log, q))
  {
    hide Result, FailedBoot, AnsweredRed;
    EarlierStep(log, e, q, n);
    AnsweredStep(log, e, q, n);
  }

  /** Two positions that both hold the last event are one. */
  lemma LastIsLast(log: seq<Entry>, p: nat, q: nat, n: Name)
    requires Hears(log, p, n) && (Result(log, q, n) || FailedBoot(log, q, n))
    ensures q <= p < |log|
  {
    hide Answers, FailsBoot;
  }

  lemma NotYetRed(log: seq<Entry>, q: nat, n: Name)
    requires q + 1 >= |log|
    ensures !AnsweredRed(log, q, n)
  {
  }

  lemma LeftOpenStep(t: Tally, log: seq<Entry>, e: Entry, q: nat, n: Name)
    requires HeardIs(t, log, n) && q < |log|
    ensures LeftOpen(log + [e], q, n) <==>
            && LeftOpen(log, q, n) && e != In(Remove(n)) && !Result(log + [e], |log|, n)
            && !(RedAnswers(t, e, n) && Inconclusive(t.heard.value))
  {
    hide AnsweredRed, Hears, HeardIs;
    var more := log + [e];
    assert more[q] == log[q];
    forall m: nat | m < |log| ensures Result(more, m, n) <==> Result(log, m, n) && e != In(Remove(n)) {
      EarlierStep(log, e, m, n);
    }
    hide Result;
    EarlierResult(t, log, e, q, n);
    ResultInside(log, n);
    ResultInside(more, n);
    if LeftOpen(log, q, n) && RedAnswers(t, e, n) { HeardIsTheResult(t, log, q, n); }
  }

  lemma ResultInside(log: seq<Entry>, n: Name)
    ensures forall q: nat :: Result(log, q, n) ==> q < |log| && log[q].In? && log[q].input.Observe?
    ensures forall q: nat :: FailedBoot(log, q, n) ==> q < |log| && log[q].In? && log[q].input.Observe?
  {
    hide Answers, FailsBoot, Spared;
  }

  /** If an inconclusive last result is what was heard, it is the one left open. */
  lemma HeardIsTheResult(t: Tally, log: seq<Entry>, q: nat, n: Name)
    requires HeardIs(t, log, n) && LeftOpen(log, q, n) && t.heard.Some?
    ensures Inconclusive(t.heard.value) ==> Hears(log, q, n)
  {
    hide Answers, FailsBoot, Spared, AnsweredRed;
    var p :| Hears(log, p, n);
    LastIsLast(log, p, q, n);
  }

  lemma SettlesDiskStep(t: Tally, log: seq<Entry>, e: Entry, m: nat, n: Name)
    requires HeardIs(t, log, n) && m < |log| && e != In(Remove(n))
    ensures SettlesDisk(log + [e], m, n) <==>
            SettlesDisk(log, m, n)
            || (Result(log, m, n) && DiskIsFull(EventAt(log, m)) && IsAnyRed(e, n) && Hears(log, m, n))
  {
    hide Result, FailedBoot, AnsweredRed, Hears, HeardIs;
    var more := log + [e];
    assert more[m] == log[m];
    EarlierStep(log, e, m, n);
    EarlierResult(t, log, e, m, n);
    ResultInside(log, n);
  }

  /** What ends every open disk-full result: a conclusive one, or its own red. */
  ghost predicate ClearsDisks(t: Tally, log: seq<Entry>, e: Entry, n: Name) {
    || e == In(Remove(n))
    || (Result(log + [e], |log|, n) && IsEvent(e, n) && Conclusive(e.input.event))
    || (RedAnswers(t, e, n) && DiskIsFull(t.heard.value))
  }

  lemma LastSettlesDisk(log: seq<Entry>, e: Entry, n: Name)
    ensures SettlesDisk(log + [e], |log|, n) <==>
            Result(log + [e], |log|, n) && IsEvent(e, n) && Conclusive(e.input.event)
  {
    hide Answers, Spared;
    NotYetRed(log + [e], |log|, n);
  }

  /** The last event, if accepted, is where an open one would have to be settled. */
  lemma HeardDisk(t: Tally, log: seq<Entry>, q: nat, n: Name) returns (p: nat)
    requires HeardIs(t, log, n) && Result(log, q, n) && t.heard.Some?
    ensures q <= p < |log| && Hears(log, p, n) && EventAt(log, p) == t.heard.value
    ensures t.heard.value.BuildFinished? ==> Result(log, p, n)
  {
    hide Answers, FailsBoot, Spared;
    p :| Hears(log, p, n);
    LastIsLast(log, p, q, n);
  }

  lemma OpenDiskStep(t: Tally, log: seq<Entry>, e: Entry, q: nat, n: Name)
    requires HeardIs(t, log, n) && q < |log|
    ensures OpenDisk(log + [e], q, n) <==> OpenDisk(log, q, n) && !ClearsDisks(t, log, e, n)
  {
    hide Result, FailedBoot, AnsweredRed, Hears, HeardIs, SettlesDisk;
    var more := log + [e];
    assert more[q] == log[q];
    EarlierStep(log, e, q, n);
    LastSettlesDisk(log, e, n);
    ResultInside(log, n);
    ResultInside(more, n);
    if e != In(Remove(n)) {
      forall m: nat | m < |log|
        ensures SettlesDisk(more, m, n) <==>
                SettlesDisk(log, m, n)
                || (Result(log, m, n) && DiskIsFull(EventAt(log, m)) && IsAnyRed(e, n) && Hears(log, m, n))
      {
        SettlesDiskStep(t, log, e, m, n);
      }
      if OpenDisk(log, q, n) && RedAnswers(t, e, n) && DiskIsFull(t.heard.value) {
        var p := HeardDisk(t, log, q, n);
        assert SettlesDisk(more, p, n);
      }
      HearsInside(log, n);
      forall m: nat | m < |log| && Hears(log, m, n) ensures t.heard == Some(EventAt(log, m)) {
        EarlierResult(t, log, e, m, n);
      }
    }
  }

  lemma OpenDisksStep(t: Tally, log: seq<Entry>, e: Entry, n: Name)
    requires HeardIs(t, log, n)
    ensures OpenDisks(log + [e], n) ==
            (if ClearsDisks(t, log, e, n) then {} else OpenDisks(log, n))
            + (if Result(log + [e], |log|, n) && IsEvent(e, n) && DiskIsFull(e.input.event) then {|log|} else {})
  {
    hide OpenDisk, ClearsDisks, Result, HeardIs;
    var more := log + [e];
    forall q: nat | q < |log| ensures OpenDisk(more, q, n) <==> OpenDisk(log, q, n) && !ClearsDisks(t, log, e, n) {
      OpenDiskStep(t, log, e, q, n);
    }
    LastOpensDisk(log, e, n);
  }

  lemma LastOpensDisk(log: seq<Entry>, e: Entry, n: Name)
    ensures OpenDisk(log + [e], |log|, n) <==>
            Result(log + [e], |log|, n) && IsEvent(e, n) && DiskIsFull(e.input.event)
  {
    hide SettlesDisk, Result;
    LastSettlesDisk(log, e, n);
    LastIsTheEvent(log, e, n);
  }

  lemma LastIsTheEvent(log: seq<Entry>, e: Entry, n: Name)
    ensures Result(log + [e], |log|, n) ==> IsEvent(e, n) && EventAt(log + [e], |log|) == e.input.event
    ensures FailedBoot(log + [e], |log|, n) ==> IsEvent(e, n) && EventAt(log + [e], |log|) == e.input.event
  {
    hide Answers, FailsBoot, Spared;
  }

  // the same for failed recovery boots

  /** What ends every open failed boot: a promotion, or its own red. */
  ghost predicate ClearsBoots(t: Tally, e: Entry, n: Name) {
    e == In(Remove(n)) || Promotes(e, n) || (RedAnswers(t, e, n) && t.heard.value.ProbeFailed?)
  }

  lemma SettlesBootStep(t: Tally, log: seq<Entry>, e: Entry, m: nat, n: Name)
    requires HeardIs(t, log, n) && m < |log| && e != In(Remove(n))
    ensures SettlesBoot(log + [e], m, n) <==>
            SettlesBoot(log, m, n) || (FailedBoot(log, m, n) && IsAnyRed(e, n) && Hears(log, m, n))
  {
    hide Result, FailedBoot, AnsweredRed, Hears, HeardIs;
    var more := log + [e];
    assert more[m] == log[m];
    EarlierStep(log, e, m, n);
    EarlierResult(t, log, e, m, n);
  }

  lemma LastSettlesBoot(log: seq<Entry>, e: Entry, n: Name)
    ensures SettlesBoot(log + [e], |log|, n) <==> Promotes(e, n)
  {
    hide FailedBoot;
    NotYetRed(log + [e], |log|, n);
  }

  lemma HeardBoot(t: Tally, log: seq<Entry>, q: nat, n: Name) returns (p: nat)
    requires HeardIs(t, log, n) && FailedBoot(log, q, n) && t.heard.Some?
    ensures q <= p < |log| && Hears(log, p, n) && (t.heard.value.ProbeFailed? ==> FailedBoot(log, p, n))
  {
    hide Answers, FailsBoot, Spared;
    p :| Hears(log, p, n);
    LastIsLast(log, p, q, n);
  }

  lemma OpenBootStep(t: Tally, log: seq<Entry>, e: Entry, q: nat, n: Name)
    requires HeardIs(t, log, n) && q < |log|
    ensures OpenBoot(log + [e], q, n) <==> OpenBoot(log, q, n) && !ClearsBoots(t, e, n)
  {
    hide Result, FailedBoot, AnsweredRed, Hears, HeardIs, SettlesBoot, Promotes;
    var more := log + [e];
    assert more[q] == log[q];
    EarlierStep(log, e, q, n);
    LastSettlesBoot(log, e, n);
    if e != In(Remove(n)) {
      forall m: nat | m < |log|
        ensures SettlesBoot(more, m, n) <==>
                SettlesBoot(log, m, n) || (FailedBoot(log, m, n) && IsAnyRed(e, n) && Hears(log, m, n))
      {
        SettlesBootStep(t, log, e, m, n);
      }
      if OpenBoot(log, q, n) && RedAnswers(t, e, n) && t.heard.value.ProbeFailed? {
        var p := HeardBoot(t, log, q, n);
        assert SettlesBoot(more, p, n);
      }
      forall m: nat | m < |log| && Hears(log, m, n) && FailedBoot(log, m, n)
        ensures t.heard.Some? && t.heard.value.ProbeFailed?
      {
        EarlierResult(t, log, e, m, n);
        FailedIsProbe(log, m, n);
      }
    }
  }

  lemma FailedIsProbe(log: seq<Entry>, q: nat, n: Name)
    requires FailedBoot(log, q, n)
    ensures EventAt(log, q).ProbeFailed?
  {
    hide FailsBoot, Spared;
  }

  lemma OpenBootsStep(t: Tally, log: seq<Entry>, e: Entry, n: Name)
    requires HeardIs(t, log, n)
    ensures OpenBoots(log + [e], n) ==
            (if ClearsBoots(t, e, n) then {} else OpenBoots(log, n))
            + (if FailedBoot(log + [e], |log|, n) then {|log|} else {})
  {
    hide OpenBoot, ClearsBoots, FailedBoot, HeardIs;
    var more := log + [e];
    forall q: nat | q < |log| ensures OpenBoot(more, q, n) <==> OpenBoot(log, q, n) && !ClearsBoots(t, e, n) {
      OpenBootStep(t, log, e, q, n);
    }
    LastOpensBoot(log, e, n);
  }

  lemma LastOpensBoot(log: seq<Entry>, e: Entry, n: Name)
    ensures OpenBoot(log + [e], |log|, n) <==> FailedBoot(log + [e], |log|, n)
  {
    hide FailedBoot, SettlesBoot;
    LastSettlesBoot(log, e, n);
    LastIsTheEvent(log, e, n);
  }

  // ------------------------------------------------------------ what the counters stand for

  ghost predicate TallyMeans(t: Tally, log: seq<Entry>, n: Name) {
    && (t.shaky <==> exists q: nat :: LeftOpen(log, q, n))
    && t.full == |OpenDisks(log, n)|
    && t.failed == |OpenBoots(log, n)|
  }

  lemma {:induction false} TallyInLog(names: set<Name>, log: seq<Entry>, n: Name)
    requires Sound(names, log)
    ensures TallyMeans(TallyOf(names, log, n), log, n)
    decreases |log|
  {
    hide TallyOf, TallyNoted, Digest, Sound, TallyMeans, HeardIs;
    if log == [] {
      NothingTallied(names, n);
    } else {
      var front, e := log[..|log| - 1], log[|log| - 1];
      assert log == front + [e];
      FrontSound(names, log);
      TallyInLog(names, front, n);
      HeardInLog(names, front, n);
      TallySnoc(names, front, e, n);
      TallyMeansStep(names, front, e, n);
    }
  }

  lemma NothingTallied(names: set<Name>, n: Name)
    ensures TallyOf(names, [], n) == Clean && TallyMeans(Clean, [], n)
  {
    hide Answers, FailsBoot;
    assert OpenDisks([], n) == {} && OpenBoots([], n) == {};
  }

  lemma TallyMeansStep(names: set<Name>, log: seq<Entry>, e: Entry, n: Name)
    requires Sound(names, log + [e])
    requires
      var t := TallyOf(names, log, n);
      HeardIs(t, log, n) && TallyMeans(t, log, n) && (Digest(names, log, n).present || t == Clean)
    ensures TallyMeans(TallyNoted(TallyOf(names, log, n), Digest(names, log, n), e, n), log + [e], n)
  {
    hide TallyOf, Digest, Sound, HeardIs, LeftOpen, OpenDisks, OpenBoots, Result, FailedBoot, AnsweredRed;
    var t := TallyOf(names, log, n);
    LastStep(names, log, e, n);
    LastIsTheEvent(log, e, n);
    ShakyStep(t, log, e, n);
    OpenDisksStep(t, log, e, n);
    OpenDisksInside(log, n);
    OpenBootsStep(t, log, e, n);
  }

  lemma OpenDisksInside(log: seq<Entry>, n: Name)
    ensures |log| !in OpenDisks(log, n) && |log| !in OpenBoots(log, n)
  {
    hide OpenDisk, OpenBoot;
  }

  lemma ShakyStep(t: Tally, log: seq<Entry>, e: Entry, n: Name)
    requires HeardIs(t, log, n)
    ensures (exists q: nat :: LeftOpen(log + [e], q, n)) <==>
            if Result(log + [e], |log|, n) then IsEvent(e, n) && Inconclusive(e.input.event)
            else (exists q: nat :: LeftOpen(log, q, n)) && e != In(Remove(n))
                 && !(RedAnswers(t, e, n) && Inconclusive(t.heard.value))
  {
    hide LeftOpen, Result, HeardIs;
    var more := log + [e];
    forall q: nat | q < |log|
      ensures LeftOpen(more, q, n) <==>
              && LeftOpen(log, q, n) && e != In(Remove(n)) && !Result(more, |log|, n)
              && !(RedAnswers(t, e, n) && Inconclusive(t.heard.value))
    {
      LeftOpenStep(t, log, e, q, n);
    }
    LastLeftOpen(log, e, n);
    LeftOpenInside(log, n);
    LeftOpenInside(more, n);
    if q: nat :| LeftOpen(log, q, n) {
      assert LeftOpen(more, q, n) <==>
             e != In(Remove(n)) && !Result(more, |log|, n) && !(RedAnswers(t, e, n) && Inconclusive(t.heard.value));
    }
  }

  lemma LastLeftOpen(log: seq<Entry>, e: Entry, n: Name)
    ensures LeftOpen(log + [e], |log|, n) <==>
            Result(log + [e], |log|, n) && IsEvent(e, n) && Inconclusive(e.input.event)
  {
    hide Result, AnsweredRed;
    NotYetRed(log + [e], |log|, n);
    LastIsTheEvent(log, e, n);
  }

  lemma LeftOpenInside(log: seq<Entry>, n: Name)
    ensures forall q: nat :: LeftOpen(log, q, n) ==> q < |log|
  {
    hide Answers, AnsweredRed, Spared;
  }

  // ------------------------------------------------------------ when a result is tried again

  lemma RunMatches(names: set<Name>, maxConcurrent: nat, xs: seq<Input>, n: Name)
    requires n in After(New(names, maxConcurrent), xs).instances
    ensures
      var i, log := After(New(names, maxConcurrent), xs).instances[n], Log(New(names, maxConcurrent), xs);
      && (i.indeterminateStreak == if exists q: nat :: LeftOpen(log, q, n) then 1 else 0)
      && i.enospcStreak == |OpenDisks(log, n)|
      && i.respawnStreak == |OpenBoots(log, n)|
  {
    hide TallyOf, Sound, LeftOpen, OpenDisks, OpenBoots;
    var log := Log(New(names, maxConcurrent), xs);
    RunKeepsStreaks(names, maxConcurrent, xs, n);
    RunIsSound(names, maxConcurrent, xs);
    TallyInLog(names, log, n);
  }

  /** The red that a decided build is recorded with, if it is. */
  function RedReason(o: Outcome, red: bool): Option<string> {
    match o
    case Green => None
    case Failed(reason, enospc, _) => if !red then None else if enospc then Some(DiskFull(reason)) else Some(reason)
    case Indeterminate(reason) => if red then Some(IndeterminateTwice(reason)) else None
  }

  /** What the pipeline shows of a requested sha: nothing if it is served or the
      recorded red, else that sha, waiting or already building, with nothing else
      pending. */
  predicate Requests(before: Instance, after: Instance, sha: Sha) {
    if (before.serving.Some? && before.serving.value.sha == sha)
       || (before.lastRed.Some? && before.lastRed.value.0 == sha)
    then after.pipeline.Idle? && after.pending.None?
    else (after.pipeline.Queued? || after.pipeline.Building?) && after.pipeline.sha == sha && after.pending.None?
  }

  lemma RetryRequests(i: Instance, n: Name, e: Event, gen: Gen)
    requires i.pipeline.Building? && Boundary.RetryResult(i, e)
    ensures
      var l := LocalStep(i, n, e, gen);
      l.acts == [] && l.dispatch && Requests(i, l.inst, Boundary.RetryTarget(i))
  {
    Boundary.RetryIs(i, n, e, gen);
    RetryDispatches(i, n, e, gen);
    hide LocalStep;
  }

  lemma RetryDispatches(i: Instance, n: Name, e: Event, gen: Gen)
    requires i.pipeline.Building? && Boundary.RetryResult(i, e)
    ensures LocalStep(i, n, e, gen).dispatch
  {
  }

  lemma {:induction false} DispatchRequests(d: Daemon, n: Name, before: Instance, sha: Sha)
    requires n in d.instances && Requests(before, d.instances[n], sha)
    ensures n in Dispatch(d).0.instances && Requests(before, Dispatch(d).0.instances[n], sha)
    ensures forall a :: a in Dispatch(d).1 ==> a.StartBuild?
    decreases |d.queue|
  {
    if SlotFree(d) && HeadDispatchable(d) { DispatchRequests(Dispatched(d).0, n, before, sha); }
  }

  lemma {:induction false} DispatchOnlyStarts(d: Daemon)
    ensures forall a :: a in Dispatch(d).1 ==> a.StartBuild?
    decreases |d.queue|
  {
    if SlotFree(d) && HeadDispatchable(d) { DispatchOnlyStarts(Dispatched(d).0); }
  }

  predicate Redden(acts: seq<Action>, n: Name) {
    exists k :: 0 <= k < |acts| && acts[k].RecordRed? && acts[k].name == n
  }

  /** The verdict on an accepted build, told from the counters. */
  lemma LocalVerdict(i: Instance, n: Name, g: Gen, o: Outcome, gen: Gen)
    requires InstanceOk(i) && BuildAccepted(i, g)
    ensures
      var l := LocalStep(i, n, BuildFinished(g, o), gen);
      var red := match o
        case Green => false
        case Failed(_, enospc, _) => !enospc || i.enospcStreak >= ENOSPC_RETRY_CAP
        case Indeterminate(_) => i.indeterminateStreak >= 1;
      && (Redden(l.acts, n) <==> red)
      && (red ==> RecordRed(n, i.pipeline.sha, RedReason(o, true).value) in l.acts)
      && (o.Green? ==> l.acts == [SpawnAndProbe(n, i.pipeline.sha, g)]
                       && l.inst.pipeline == Probing(i.pipeline.sha, g, false) && l.inst.pending == i.pending)
      && (!o.Green? && !red ==> l.acts == [] && Requests(i, l.inst, Boundary.RetryTarget(i)))
  {
    hide DiskFull, IndeterminateTwice;
    var e := BuildFinished(g, o);
    var l, m := LocalStep(i, n, e, gen), OnBuilt(i, n, i.pipeline.sha, g, o);
    if o.Green? {
      assert l.acts == m.acts;
    } else if Boundary.RetryResult(i, e) {
      RetryRequests(i, n, e, gen);
    } else {
      assert l.acts[0] == m.acts[0] == RecordRed(n, i.pipeline.sha, RedReason(o, true).value);
    }
  }

  lemma StartsDoNotRedden(acts: seq<Action>, starts: seq<Action>, n: Name)
    requires forall a :: a in starts ==> a.StartBuild?
    ensures Redden(acts + starts, n) <==> Redden(acts, n)
  {
    var all := acts + starts;
    assert forall k :: 0 <= k < |acts| ==> all[k] == acts[k];
    assert forall k :: |acts| <= k < |all| ==> all[k] == starts[k - |acts|] && all[k] in starts;
    if Redden(acts, n) {
      var k :| 0 <= k < |acts| && acts[k].RecordRed? && acts[k].name == n;
      assert all[k].RecordRed?;
    }
  }

  lemma StepOfOne(d: Daemon, n: Name, e: Event, l: Local)
    requires n in d.instances && l == LocalStep(d.instances[n], n, e, d.nextGen)
    ensures
      var (d1, acts) := Step(d, n, e);
      && (forall a :: a in l.acts ==> a in acts)
      && (Redden(acts, n) <==> Redden(l.acts, n))
      && (forall before, sha :: Requests(before, l.inst, sha) ==>
            n in d1.instances && Requests(before, d1.instances[n], sha))
  {
    hide LocalStep, Dispatch, Requests, Redden;
    var d1 := Install(d, n, l);
    if l.dispatch {
      DispatchOnlyStarts(d1);
      StartsDoNotRedden(l.acts, Dispatch(d1).1, n);
      forall before, sha | Requests(before, l.inst, sha)
        ensures n in Dispatch(d1).0.instances && Requests(before, Dispatch(d1).0.instances[n], sha)
      {
        DispatchRequests(d1, n, before, sha);
      }
    }
  }

  /** Exactly when an accepted build result is recorded red, in log positions.  A
      green one never is; a red one always, unless it is about the disk, which is
      recorded only after two others with nothing since that settles it; and an
      inconclusive one only if the result accepted before it was inconclusive too
      and went unrecorded.  What is not recorded red requests its retry. */
  lemma ResultIsRedIff(names: set<Name>, maxConcurrent: nat, xs: seq<Input>, n: Name, g: Gen, o: Outcome)
    requires
      var d := After(New(names, maxConcurrent), xs);
      n in d.instances && BuildAccepted(d.instances[n], g)
    ensures
      var d, log := After(New(names, maxConcurrent), xs), Log(New(names, maxConcurrent), xs);
      var i := d.instances[n];
      var (d1, acts) := Step(d, n, BuildFinished(g, o));
      var red := match o
        case Green => false
        case Failed(_, enospc, _) => !enospc || |OpenDisks(log, n)| >= ENOSPC_RETRY_CAP
        case Indeterminate(_) => exists q: nat :: LeftOpen(log, q, n);
      && (Redden(acts, n) <==> red)
      && (red ==> RecordRed(n, i.pipeline.sha, RedReason(o, true).value) in acts)
      && (o.Green? ==> SpawnAndProbe(n, i.pipeline.sha, g) in acts)
      && (!o.Green? && !red ==> n in d1.instances && Requests(i, d1.instances[n], Boundary.RetryTarget(i)))
  {
    hide Step, LocalStep, LeftOpen, OpenDisks, OpenBoots, Redden, Requests, RedReason;
    var d := After(New(names, maxConcurrent), xs);
    RunMatches(names, maxConcurrent, xs, n);
    RunKeepsInvariant(names, maxConcurrent, xs);
    LocalVerdict(d.instances[n], n, g, o, d.nextGen);
    StepOfOne(d, n, BuildFinished(g, o), LocalStep(d.instances[n], n, BuildFinished(g, o), d.nextGen));
  }

  lemma LocalBootVerdict(i: Instance, n: Name, g: Gen, reason: string, gen: Gen)
    requires InstanceOk(i) && ProbeAccepted(i, g)
    ensures
      var l := LocalStep(i, n, ProbeFailed(g, reason), gen);
      var red := !i.pipeline.respawn || i.respawnStreak >= RESPAWN_RETRY_CAP;
      && KillStandby(n, g) in l.acts
      && (Redden(l.acts, n) <==> red)
      && (red ==> RecordRed(n, i.pipeline.sha,
                            if i.pipeline.respawn then RespawnRed(reason) else ProbeRed(reason)) in l.acts)
      && (!red ==> Respawn(n, i.pipeline.sha, gen) in l.acts)
  {
    hide ProbeRed, RespawnRed;
    var m := Decide(i, n, ProbeFailed(g, reason));
    var l := LocalStep(i, n, ProbeFailed(g, reason), gen);
    assert l.acts[0] == m.acts[0] == KillStandby(n, g);
    if |m.acts| == 2 { assert l.acts[1] == m.acts[1]; }
  }

  /** Exactly when an accepted probe failure is recorded red: always for a new build,
      and for a recovery boot only after two others failed with no promotion and no
      such red since; otherwise the same sha is booted again. */
  lemma FailedProbeIsRedIff(names: set<Name>, maxConcurrent: nat, xs: seq<Input>, n: Name, g: Gen, reason: string)
    requires
      var d := After(New(names, maxConcurrent), xs);
      n in d.instances && ProbeAccepted(d.instances[n], g)
    ensures
      var d, log := After(New(names, maxConcurrent), xs), Log(New(names, maxConcurrent), xs);
      var i, acts := d.instances[n], Step(d, n, ProbeFailed(g, reason)).1;
      var red := !i.pipeline.respawn || |OpenBoots(log, n)| >= RESPAWN_RETRY_CAP;
      && KillStandby(n, g) in acts
      && (Redden(acts, n) <==> red)
      && (red ==> RecordRed(n, i.pipeline.sha,
                            if i.pipeline.respawn then RespawnRed(reason) else ProbeRed(reason)) in acts)
      && (!red ==> Respawn(n, i.pipeline.sha, d.nextGen) in acts)
  {
    hide Step, LocalStep, LeftOpen, OpenDisks, OpenBoots, Redden, Requests, ProbeRed, RespawnRed;
    var d := After(New(names, maxConcurrent), xs);
    RunMatches(names, maxConcurrent, xs, n);
    RunKeepsInvariant(names, maxConcurrent, xs);
    LocalBootVerdict(d.instances[n], n, g, reason, d.nextGen);
    StepOfOne(d, n, ProbeFailed(g, reason), LocalStep(d.instances[n], n, ProbeFailed(g, reason), d.nextGen));
  }
}
