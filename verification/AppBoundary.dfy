/**
 * The exact edges of two promises: the one step that loses the newest HEAD, and
 * the one step that strands an owed respawn.  Both are the retry arms, which
 * queue a build without settling first.
 */
module AppBoundary {
  import opened Wrappers
  import opened AppModel
  import opened AppInvariant
  import opened AppHistory
  import opened AppRuns
  import opened AppTheorems

  /** The outcome sends the build round again instead of deciding it. */
  predicate Retries(i: Instance, o: Outcome) {
    || (o.Failed? && o.enospc && i.enospcStreak < ENOSPC_RETRY_CAP)
    || (o.Indeterminate? && i.indeterminateStreak < 1)
  }

  predicate RetryResult(i: Instance, e: Event) {
    e.BuildFinished? && BuildAccepted(i, e.gen) && Retries(i, e.outcome)
  }

  function RetryTarget(i: Instance): Sha
    requires i.pipeline.Building?
  {
    if i.pending.Some? then i.pending.value else i.pipeline.sha
  }

  lemma RetryIs(i: Instance, n: Name, e: Event, gen: Gen)
    requires i.pipeline.Building? && RetryResult(i, e)
    ensures
      var l := LocalStep(i, n, e, gen);
      && l.acts == []
      && exists j :: Requested(j, RetryTarget(i)) == l.inst
           && j == i.(pipeline := Idle, pending := None,
                      indeterminateStreak := j.indeterminateStreak, enospcStreak := j.enospcStreak)
  {
    var l := LocalStep(i, n, e, gen);
    if e.outcome.Failed? {
      var j := i.(pipeline := Idle, pending := None, indeterminateStreak := 0, enospcStreak := i.enospcStreak + 1);
      assert l.inst == Requested(j, RetryTarget(i));
    } else {
      var j := i.(pipeline := Idle, pending := None, indeterminateStreak := i.indeterminateStreak + 1);
      assert l.inst == Requested(j, RetryTarget(i));
    }
  }

  // ------------------------------------------------------------ the lost HEAD

  lemma RetryLoses(i: Instance, n: Name, e: Event, gen: Gen, f: Facts, sha: Sha)
    requires InstanceOk(i) && Backed(i, f) && Located(i, sha) && !Decided(f, sha)
    requires i.pipeline.Building? && RetryResult(i, e)
    ensures
      var l := LocalStep(i, n, e, gen);
      (!Located(l.inst, sha) && !Decided(OrderedAll(Heard(f, e), l.acts), sha))
        <==> i.pipeline.sha == sha && i.pending.Some? && i.pending.value != sha
  {
    RetryIs(i, n, e, gen);
    hide LocalStep;
    ShortFold(Heard(f, e), []);
  }

  lemma BuiltSettles(i: Instance, n: Name, e: Event, f: Facts, sha: Sha)
    requires InstanceOk(i) && Located(i, sha)
    requires e.BuildFinished? && BuildAccepted(i, e.gen) && !Retries(i, e.outcome)
    ensures
      var m := Decide(i, n, e);
      Located(m.inst, sha) || Decided(OrderedAll(Heard(f, e), m.acts), sha)
  {
    hide DiskFull, IndeterminateTwice;
    ShortFold(Heard(f, e), Decide(i, n, e).acts);
  }

  lemma ProbeSettles(i: Instance, n: Name, e: Event, f: Facts, sha: Sha)
    requires InstanceOk(i) && Located(i, sha)
    requires (e.ProbeSucceeded? || e.ProbeFailed?) && ProbeAccepted(i, e.gen)
    ensures
      var m := Decide(i, n, e);
      || Located(m.inst, sha) || Decided(OrderedAll(Heard(f, e), m.acts), sha)
      || (m.Settle? && RespawnDue(m.inst) && m.inst.lastGreen.value == sha)
  {
    ShortFold(Heard(f, e), Decide(i, n, e).acts);
  }

  lemma PerformSettles(m: Move, n: Name, gen: Gen, f: Facts, sha: Sha)
    requires m.inst.serving.Some? && m.inst.serving.value.sha == sha ==> sha in f.promoted
    requires m.inst.lastRed.Some? && m.inst.lastRed.value.0 == sha ==> sha in f.reds
    requires || Located(m.inst, sha) || Decided(f, sha)
             || (m.Settle? && RespawnDue(m.inst) && m.inst.lastGreen.value == sha)
    requires !m.Stay? ==> m.inst.pipeline.Idle?
    ensures Located(Perform(m, n, gen).inst, sha) || Decided(Booted(m, n, gen, f), sha)
  {
  }

  /** A located, undecided sha is lost by an event other than a HEAD exactly
      when the event is a retry result for it while another sha is pending. */
  lemma LosesNewestIff(i: Instance, n: Name, e: Event, gen: Gen, f: Facts, sha: Sha)
    requires InstanceOk(i) && Backed(i, f) && Open(i, f) && Located(i, sha) && !Decided(f, sha)
    requires OwnDistinct(i) && !e.HeadAdvanced?
    ensures
      var l := LocalStep(i, n, e, gen);
      (!Located(l.inst, sha) && !Decided(OrderedAll(Heard(f, e), l.acts), sha))
        <==> RetryResult(i, e) && i.pipeline.sha == sha && i.pending.Some? && i.pending.value != sha
  {
    if RetryResult(i, e) {
      RetryLoses(i, n, e, gen, f, sha);
    } else {
      var m, f1 := Decide(i, n, e), AfterDecision(f, n, i, e);
      TakenFold(i, n, e, gen, f);
      DecideBacked(i, n, e, f);
      DecideKeeps(i, n, e);
      if e.BuildFinished? && BuildAccepted(i, e.gen) {
        BuiltSettles(i, n, e, f, sha);
      } else if (e.ProbeSucceeded? || e.ProbeFailed?) && ProbeAccepted(i, e.gen) {
        ProbeSettles(i, n, e, f, sha);
      } else {
        assert Located(m.inst, sha) || Decided(f1, sha);
      }
      PerformSettles(m, n, gen, f1, sha);
    }
  }

  // ------------------------------------------------------------ the stranded respawn

  /** A respawn that is owed has something in the pipeline that will free it. */
  predicate Owed(i: Instance) {
    i.needsRespawn ==> !i.pipeline.Idle?
  }

  /** A retry result while a respawn is owed and the retry would be refused as
      the recorded red. */
  predicate Strands(i: Instance, e: Event) {
    && i.needsRespawn && i.pipeline.Building? && RetryResult(i, e)
    && i.lastRed.Some? && i.lastRed.value.0 == RetryTarget(i)
  }

  lemma BuiltOwed(i: Instance, n: Name, e: Event)
    requires InstanceOk(i) && e.BuildFinished? && BuildAccepted(i, e.gen) && !Retries(i, e.outcome)
    ensures var m := Decide(i, n, e); Owed(m.inst) || (m.Settle? && RespawnDue(m.inst))
  {
  }

  lemma ProbeOwed(i: Instance, n: Name, e: Event)
    requires InstanceOk(i) && (e.ProbeSucceeded? || e.ProbeFailed?) && ProbeAccepted(i, e.gen)
    ensures var m := Decide(i, n, e); Owed(m.inst) || (m.Settle? && RespawnDue(m.inst))
  {
  }

  lemma PerformOwed(m: Move, n: Name, gen: Gen)
    requires Owed(m.inst) || (!m.Stay? && RespawnDue(m.inst))
    ensures Owed(Perform(m, n, gen).inst)
  {
  }

  /** An owed respawn is stranded by exactly one kind of step. */
  lemma StrandsIff(i: Instance, n: Name, e: Event, gen: Gen)
    requires InstanceOk(i) && OwnDistinct(i) && Owed(i)
    ensures !Owed(LocalStep(i, n, e, gen).inst) <==> Strands(i, e)
  {
    if RetryResult(i, e) {
      RetryIs(i, n, e, gen);
      hide LocalStep;
    } else {
      var m := Decide(i, n, e);
      DecideKeeps(i, n, e);
      if e.BuildFinished? && BuildAccepted(i, e.gen) {
        BuiltOwed(i, n, e);
      } else if (e.ProbeSucceeded? || e.ProbeFailed?) && ProbeAccepted(i, e.gen) {
        ProbeOwed(i, n, e);
      } else {
        assert Owed(m.inst) || (!m.Stay? && RespawnDue(m.inst));
      }
      PerformOwed(m, n, gen);
    }
  }

  /** A stranded instance gets out again exactly by a HEAD it does not refuse
      or by a recovery. */
  lemma StrandedUntil(i: Instance, n: Name, e: Event, gen: Gen)
    requires InstanceOk(i) && i.pipeline.Idle? && i.needsRespawn
    ensures
      !Owed(LocalStep(i, n, e, gen).inst) <==>
        && !e.RecoverFromPointer?
        && (e.HeadAdvanced? ==> i.lastRed.Some? && i.lastRed.value.0 == e.sha)
  {
  }

  ghost predicate AllOwed(d: Daemon) {
    forall n :: n in d.instances ==> Owed(d.instances[n])
  }

  predicate StrandsInput(d: Daemon, x: Input) {
    x.Observe? && x.name in d.instances && Strands(d.instances[x.name], x.event)
  }

  lemma {:induction false} DispatchOwed(d: Daemon)
    requires AllOwed(d)
    ensures AllOwed(Dispatch(d).0)
    decreases |d.queue|
  {
    if SlotFree(d) && HeadDispatchable(d) { DispatchOwed(Dispatched(d).0); }
  }

  /** In every run without such a step, whoever is owed a respawn has nothing
      serving, a recorded green to boot, and a busy pipeline. */
  lemma {:induction false} OwedNeverStranded(names: set<Name>, maxConcurrent: nat, xs: seq<Input>)
    requires forall k :: 0 <= k < |xs| ==> !StrandsInput(After(New(names, maxConcurrent), xs[..k]), xs[k])
    ensures
      var d := After(New(names, maxConcurrent), xs);
      forall n :: n in d.instances && d.instances[n].needsRespawn ==>
        d.instances[n].serving.None? && d.instances[n].lastGreen.Some? && !d.instances[n].pipeline.Idle?
    ensures AllOwed(After(New(names, maxConcurrent), xs))
    decreases |xs|
  {
    var d0 := New(names, maxConcurrent);
    RunKeepsInvariant(names, maxConcurrent, xs);
    var d1 := After(d0, xs);
    assert forall n :: n in d1.instances ==> InstanceOk(d1.instances[n]);
    if xs != [] {
      var front, x := xs[..|xs| - 1], xs[|xs| - 1];
      var d := After(d0, front);
      assert forall k :: 0 <= k < |front| ==> front[..k] == xs[..k] && front[k] == xs[k];
      OwedNeverStranded(names, maxConcurrent, front);
      RunKeepsInvariant(names, maxConcurrent, front);
      InputOwed(d, x);
    }
  }

  lemma InputOwed(d: Daemon, x: Input)
    requires Inv(d) && AllOwed(d) && !StrandsInput(d, x)
    ensures AllOwed(Advance(d, x).0)
  {
    if x.Observe? && x.name in d.instances {
      var i, l := d.instances[x.name], LocalStep(d.instances[x.name], x.name, x.event, d.nextGen);
      assert InstanceOk(i) && OwnDistinct(i) && Owed(i);
      hide LocalStep;
      StrandsIff(i, x.name, x.event, d.nextGen);
      var d1 := Install(d, x.name, l);
      assert AllOwed(d1);
      if l.dispatch { DispatchOwed(d1); }
    }
  }

  // ------------------------------------------------------------ the edges are reached

  lemma AfterSnoc(d: Daemon, xs: seq<Input>, x: Input)
    ensures After(d, xs + [x]) == Advance(After(d, xs), x).0
    ensures Log(d, xs + [x]) == Log(d, xs) + [In(x)] + Outs(Advance(After(d, xs), x).1)
  {
    assert (xs + [x])[..|xs|] == xs;
  }

  /** A one-slot daemon with the single instance "a". */
  function Solo(i: Instance, gen: Gen): Daemon {
    Daemon(map["a" := i], if i.pipeline.Queued? then ["a"] else [], if i.pipeline.Building? then {"a"} else {}, 1, gen)
  }

  lemma SoloInstalled(i: Instance, gen: Gen, l: Local)
    requires !i.pipeline.Queued? && (l.inst.pipeline.Building? ==> i.pipeline.Building?)
    ensures Install(Solo(i, gen), "a", l) == Solo(l.inst, l.gen)
  {
    assert map["a" := i]["a" := l.inst] == map["a" := l.inst];
    assert Without([], "a") == [];
    assert {"a"} - {"a"} == {} && {} - {"a"} == {};
  }

  lemma SoloIdles(i: Instance, gen: Gen)
    requires !i.pipeline.Queued?
    ensures Dispatch(Solo(i, gen)) == (Solo(i, gen), [])
  {
  }

  lemma SoloStarts(i: Instance, gen: Gen)
    requires i.pipeline.Queued?
    ensures
      var sha := i.pipeline.sha;
      Dispatch(Solo(i, gen)) == (Solo(i.(pipeline := Building(sha, gen)), gen + 1), [StartBuild("a", sha, gen)])
  {
    var d := Solo(i, gen);
    var j := i.(pipeline := Building(i.pipeline.sha, gen));
    assert SlotFree(d) && HeadDispatchable(d);
    var (d1, a) := Dispatched(d);
    assert d1.instances == map["a" := j];
    assert d1 == Solo(j, gen + 1);
    SoloIdles(j, gen + 1);
    assert [a] + [] == [a];
  }

  /** How the single instance moves, the free slot included. */
  lemma SoloStep(i: Instance, e: Event, gen: Gen)
    requires InstanceOk(i) && !i.pipeline.Queued?
    ensures
      var l := LocalStep(i, "a", e, gen);
      && (!l.inst.pipeline.Queued? && (l.inst.pipeline.Building? ==> i.pipeline.Building?) ==>
            Step(Solo(i, gen), "a", e) == (Solo(l.inst, l.gen), l.acts))
      && (l.inst.pipeline.Queued? && l.dispatch ==>
            Step(Solo(i, gen), "a", e)
              == (Solo(l.inst.(pipeline := Building(l.inst.pipeline.sha, l.gen)), l.gen + 1),
                  l.acts + [StartBuild("a", l.inst.pipeline.sha, l.gen)]))
  {
    hide LocalStep, Install, Dispatch;
    var l := LocalStep(i, "a", e, gen);
    if l.inst.pipeline.Building? ==> i.pipeline.Building? {
      SoloInstalled(i, gen, l);
      if l.inst.pipeline.Queued? {
        SoloStarts(l.inst, l.gen);
      } else {
        SoloIdles(l.inst, l.gen);
        assert l.acts + [] == l.acts;
      }
    }
  }

  /** One more input of a run whose answer is known. */
  lemma RunSnoc(d0: Daemon, xs: seq<Input>, log: seq<Entry>, d: Daemon, n: Name, e: Event, d1: Daemon,
                acts: seq<Action>)
    requires After(d0, xs) == d && Log(d0, xs) == log && Step(d, n, e) == (d1, acts)
    ensures After(d0, xs + [Observe(n, e)]) == d1
    ensures Log(d0, xs + [Observe(n, e)]) == log + [In(Observe(n, e))] + Outs(acts)
  {
    AfterSnoc(d0, xs, Observe(n, e));
  }

  lemma OneOut(log: seq<Entry>, e: Entry, a: Action)
    ensures log + [e] + Outs([a]) == log + [e, Out(a)]
  {
    assert [a][1..] == [];
  }

  function Head(sha: Sha): Input { Observe("a", HeadAdvanced(sha)) }

  function Untrusted(g: Gen): Input { Observe("a", BuildFinished(g, Indeterminate(""))) }

  lemma LostRun(i4: Instance)
    requires i4 == Fresh.(pipeline := Building("B", 2), indeterminateStreak := 1)
    ensures
      var xs := [Head("A"), Head("B"), Head("A"), Untrusted(1)];
      && After(Solo(Fresh, 1), xs) == Solo(i4, 3)
      && Log(Solo(Fresh, 1), xs) ==
           [In(Head("A")), Out(StartBuild("a", "A", 1)), In(Head("B")), In(Head("A")), In(Untrusted(1)),
            Out(StartBuild("a", "B", 2))]
  {
    hide Step, Solo;
    var d0 := Solo(Fresh, 1);
    var i1 := Fresh.(pipeline := Building("A", 1));
    var i2 := i1.(pending := Some("B"));
    LostStates(i1, i2, i4);
    RunSnoc(d0, [], [], d0, "a", HeadAdvanced("A"), Solo(i1, 2), [StartBuild("a", "A", 1)]);
    OneOut([], In(Head("A")), StartBuild("a", "A", 1));
    assert [] + [Head("A")] == [Head("A")];
    var l1 := [In(Head("A")), Out(StartBuild("a", "A", 1))];
    assert Log(d0, [Head("A")]) == l1;
    RunSnoc(d0, [Head("A")], l1, Solo(i1, 2), "a", HeadAdvanced("B"), Solo(i2, 2), []);
    assert [Head("A")] + [Head("B")] == [Head("A"), Head("B")];
    var l2 := l1 + [In(Head("B"))];
    assert l2 + Outs([]) == l2;
    RunSnoc(d0, [Head("A"), Head("B")], l2, Solo(i2, 2), "a", HeadAdvanced("A"), Solo(i2, 2), []);
    assert [Head("A"), Head("B")] + [Head("A")] == [Head("A"), Head("B"), Head("A")];
    var l3 := l2 + [In(Head("A"))];
    assert l3 + Outs([]) == l3;
    RunSnoc(d0, [Head("A"), Head("B"), Head("A")], l3, Solo(i2, 2), "a", BuildFinished(1, Indeterminate("")),
            Solo(i4, 3), [StartBuild("a", "B", 2)]);
    OneOut(l3, In(Untrusted(1)), StartBuild("a", "B", 2));
    assert [Head("A"), Head("B"), Head("A")] + [Untrusted(1)] == [Head("A"), Head("B"), Head("A"), Untrusted(1)];
  }

  /** HEAD moves to "B" during the build of "A" and back: the untrusted build of
      "A" is retried as "B", and "A", the newest HEAD, is nowhere. */
  lemma HeadCanBeLost()
    ensures
      var xs := [Head("A"), Head("B"), Head("A"), Untrusted(1)];
      var d := After(New({"a"}, 1), xs);
      var f := Digest({"a"}, Log(New({"a"}, 1), xs), "a");
      "a" in d.instances && f.newest == Some("A") && !Located(d.instances["a"], "A") && !Decided(f, "A")
  {
    hide After, Log, Digest, Step;
    var xs := [Head("A"), Head("B"), Head("A"), Untrusted(1)];
    assert New({"a"}, 1) == Solo(Fresh, 1);
    var i4 := Fresh.(pipeline := Building("B", 2), indeterminateStreak := 1);
    LostRun(i4);
    LostLog(Log(Solo(Fresh, 1), xs));
  }

  lemma LostStates(i1: Instance, i2: Instance, i4: Instance)
    requires i1 == Fresh.(pipeline := Building("A", 1)) && i2 == i1.(pending := Some("B"))
    requires i4 == Fresh.(pipeline := Building("B", 2), indeterminateStreak := 1)
    ensures Step(Solo(Fresh, 1), "a", HeadAdvanced("A")) == (Solo(i1, 2), [StartBuild("a", "A", 1)])
    ensures Step(Solo(i1, 2), "a", HeadAdvanced("B")) == (Solo(i2, 2), [])
    ensures Step(Solo(i2, 2), "a", HeadAdvanced("A")) == (Solo(i2, 2), [])
    ensures Step(Solo(i2, 2), "a", BuildFinished(1, Indeterminate(""))) == (Solo(i4, 3), [StartBuild("a", "B", 2)])
  {
    SoloStep(Fresh, HeadAdvanced("A"), 1);
    SoloStep(i1, HeadAdvanced("B"), 2);
    SoloStep(i2, HeadAdvanced("A"), 2);
    SoloStep(i2, BuildFinished(1, Indeterminate("")), 2);
    hide Step;
    assert [] + [StartBuild("a", "A", 1)] == [StartBuild("a", "A", 1)];
    assert [] + [StartBuild("a", "B", 2)] == [StartBuild("a", "B", 2)];
  }

  lemma LostLog(log: seq<Entry>)
    requires log == [In(Observe("a", HeadAdvanced("A"))), Out(StartBuild("a", "A", 1)),
                     In(Observe("a", HeadAdvanced("B"))), In(Observe("a", HeadAdvanced("A"))),
                     In(Observe("a", BuildFinished(1, Indeterminate("")))), Out(StartBuild("a", "B", 2))]
    ensures
      var f := Digest({"a"}, log, "a");
      f.newest == Some("A") && !Decided(f, "A")
  {
    DigestSnoc({"a"}, [], log[0], "a");
    DigestSnoc({"a"}, [log[0]], log[1], "a");
    DigestSnoc({"a"}, log[..2], log[2], "a");
    DigestSnoc({"a"}, log[..3], log[3], "a");
    DigestSnoc({"a"}, log[..4], log[4], "a");
    DigestSnoc({"a"}, log[..5], log[5], "a");
    hide Digest;
    assert log[..1] == [log[0]] && log[..2] == [log[0]] + [log[1]] && log[..3] == log[..2] + [log[2]];
    assert log[..4] == log[..3] + [log[3]] && log[..5] == log[..4] + [log[4]] && log == log[..5] + [log[5]];
    assert [] + [log[0]] == [log[0]];
  }

  /** A run of the one-instance daemon, given its state before each event. */
  lemma {:induction false} SoloRun(es: seq<Event>, states: seq<Instance>, gens: seq<Gen>)
    requires |states| == |gens| == |es| + 1 && states[0] == Fresh && gens[0] == 1
    requires forall k :: 0 <= k < |es| ==>
      Step(Solo(states[k], gens[k]), "a", es[k]).0 == Solo(states[k + 1], gens[k + 1])
    ensures After(New({"a"}, 1), Inputs(es)) == Solo(states[|es|], gens[|es|])
    decreases |es|
  {
    hide Step;
    if es == [] {
      assert New({"a"}, 1) == Solo(Fresh, 1);
    } else {
      var last := |es| - 1;
      SoloRun(es[..last], states[..last + 1], gens[..last + 1]);
      assert Inputs(es) == Inputs(es[..last]) + [Observe("a", es[last])];
      AfterSnoc(New({"a"}, 1), Inputs(es[..last]), Observe("a", es[last]));
    }
  }

  function Inputs(es: seq<Event>): seq<Input> {
    seq(|es|, k requires 0 <= k < |es| => Observe("a", es[k]))
  }

  /** "A" serves and dies while "Y" builds, the red "X" is HEAD again, and the
      untrusted build of "Y" is retried as "X", which is refused: the respawn of
      "A" is owed by an instance with nothing left to run. */
  lemma RespawnCanBeStranded()
    ensures
      var es := [HeadAdvanced("A"), BuildFinished(1, Green), ProbeSucceeded(1), HeadAdvanced("X"),
                 BuildFinished(2, Failed("", false, [])), HeadAdvanced("Y"), ServingExited(1),
                 HeadAdvanced("X"), BuildFinished(3, Indeterminate(""))];
      var d := After(New({"a"}, 1), Inputs(es));
      "a" in d.instances && !Owed(d.instances["a"]) && d.instances["a"].serving.None?
  {
    hide Step, After, Inputs;
    var es := [HeadAdvanced("A"), BuildFinished(1, Green), ProbeSucceeded(1), HeadAdvanced("X"),
               BuildFinished(2, Failed("", false, [])), HeadAdvanced("Y"), ServingExited(1),
               HeadAdvanced("X"), BuildFinished(3, Indeterminate(""))];
    var s1 := Fresh.(pipeline := Building("A", 1));
    var s2 := Fresh.(pipeline := Probing("A", 1, false));
    var s3 := Fresh.(serving := Some(Serving("A", 1)), lastGreen := Some("A"));
    var s4 := s3.(pipeline := Building("X", 2));
    var s5 := s3.(lastRed := Some(("X", "")));
    var s6 := s5.(pipeline := Building("Y", 3));
    var s7 := s6.(serving := None, needsRespawn := true);
    var s8 := s7.(pending := Some("X"));
    var s9 := s7.(pipeline := Idle, indeterminateStreak := 1);
    StrandStart(s1, s2, s3, s4);
    StrandEnd(s3, s4, s5, s6, s7, s8, s9);
    SoloRun(es, [Fresh, s1, s2, s3, s4, s5, s6, s7, s8, s9], [1, 2, 2, 2, 3, 3, 4, 4, 4, 4]);
  }

  lemma StrandStart(s1: Instance, s2: Instance, s3: Instance, s4: Instance)
    requires s1 == Fresh.(pipeline := Building("A", 1)) && s2 == Fresh.(pipeline := Probing("A", 1, false))
    requires s3 == Fresh.(serving := Some(Serving("A", 1)), lastGreen := Some("A"))
    requires s4 == s3.(pipeline := Building("X", 2))
    ensures Step(Solo(Fresh, 1), "a", HeadAdvanced("A")).0 == Solo(s1, 2)
    ensures Step(Solo(s1, 2), "a", BuildFinished(1, Green)).0 == Solo(s2, 2)
    ensures Step(Solo(s2, 2), "a", ProbeSucceeded(1)).0 == Solo(s3, 2)
    ensures Step(Solo(s3, 2), "a", HeadAdvanced("X")).0 == Solo(s4, 3)
  {
    hide Step;
    SoloStep(Fresh, HeadAdvanced("A"), 1);
    SoloStep(s1, BuildFinished(1, Green), 2);
    SoloStep(s2, ProbeSucceeded(1), 2);
    SoloStep(s3, HeadAdvanced("X"), 2);
  }

  lemma StrandEnd(s3: Instance, s4: Instance, s5: Instance, s6: Instance, s7: Instance, s8: Instance, s9: Instance)
    requires s3 == Fresh.(serving := Some(Serving("A", 1)), lastGreen := Some("A"))
    requires s4 == s3.(pipeline := Building("X", 2)) && s5 == s3.(lastRed := Some(("X", "")))
    requires s6 == s5.(pipeline := Building("Y", 3)) && s7 == s6.(serving := None, needsRespawn := true)
    requires s8 == s7.(pending := Some("X")) && s9 == s7.(pipeline := Idle, indeterminateStreak := 1)
    ensures Step(Solo(s4, 3), "a", BuildFinished(2, Failed("", false, []))).0 == Solo(s5, 3)
    ensures Step(Solo(s5, 3), "a", HeadAdvanced("Y")).0 == Solo(s6, 4)
    ensures Step(Solo(s6, 4), "a", ServingExited(1)).0 == Solo(s7, 4)
    ensures Step(Solo(s7, 4), "a", HeadAdvanced("X")).0 == Solo(s8, 4)
    ensures Step(Solo(s8, 4), "a", BuildFinished(3, Indeterminate(""))).0 == Solo(s9, 4)
  {
    hide Step;
    SoloStep(s4, BuildFinished(2, Failed("", false, [])), 3);
    SoloStep(s5, HeadAdvanced("Y"), 3);
    SoloStep(s6, ServingExited(1), 4);
    SoloStep(s7, HeadAdvanced("X"), 4);
    SoloStep(s8, BuildFinished(3, Indeterminate("")), 4);
  }

  // ------------------------------------------------------------ a removal that frees a slot for nobody

  /** Two instances, one slot: "a" builds, "b" waits, and "a" is removed.  The slot
      stays free while "b" waits. */
  lemma RemovalIdlesSlot()
    ensures
      var xs := [Observe("a", HeadAdvanced("A")), Observe("b", HeadAdvanced("B")), Remove("a")];
      var d := After(New({"a", "b"}, 1), xs);
      d.queue == ["b"] && d.building == {} && d.maxConcurrent == 1 && !WorkConserving(d)
  {
    hide Step;
    var x1, x2, x3 := Observe("a", HeadAdvanced("A")), Observe("b", HeadAdvanced("B")), Remove("a");
    var d0 := New({"a", "b"}, 1);
    var a, b := Fresh.(pipeline := Building("A", 1)), Fresh.(pipeline := Queued("B"));
    var d2 := Daemon(map["a" := a, "b" := b], ["b"], {"a"}, 1, 2);
    FirstBuilds(a);
    SecondWaits(a, b);
    ThreeInputs(d0, x1, x2, x3);
    BuilderLeaves(d2);
  }

  lemma Extended(d: Daemon, xs: seq<Input>, x: Input, more: seq<Input>)
    requires more == xs + [x]
    ensures After(d, more) == Advance(After(d, xs), x).0
  {
    hide Advance;
    assert more[..|xs|] == xs;
  }

  lemma ThreeInputs(d: Daemon, x1: Input, x2: Input, x3: Input)
    ensures After(d, [x1, x2, x3]) == Advance(Advance(Advance(d, x1).0, x2).0, x3).0
  {
    var start := After(d, []);
    assert start == d;
    hide Advance, After;
    Extended(d, [], x1, [x1]);
    Extended(d, [x1], x2, [x1, x2]);
    Extended(d, [x1, x2], x3, [x1, x2, x3]);
  }

  lemma BuilderLeaves(d: Daemon)
    requires d.queue == ["b"] && d.building == {"a"}
    ensures Removed(d, "a").queue == ["b"] && Removed(d, "a").building == {}
  {
    assert {"a"} - {"a"} == {};
    assert Without(["b"], "a") == ["b"] by { assert ["b"][1..] == []; }
  }

  lemma FirstBuilds(a: Instance)
    requires a == Fresh.(pipeline := Building("A", 1))
    ensures Step(New({"a", "b"}, 1), "a", HeadAdvanced("A")).0
            == Daemon(map["a" := a, "b" := Fresh], [], {"a"}, 1, 2)
  {
    var d := New({"a", "b"}, 1);
    var q := Fresh.(pipeline := Queued("A"));
    var d1 := Daemon(map["a" := q, "b" := Fresh], ["a"], {}, 1, 1);
    assert LocalStep(Fresh, "a", HeadAdvanced("A"), 1) == Local(q, 1, [], true);
    assert d.instances["a" := q] == d1.instances && {} - {"a"} == {};
    assert Install(d, "a", Local(q, 1, [], true)) == d1;
    var d2 := Dispatched(d1).0;
    assert d2.instances == map["a" := a, "b" := Fresh];
    assert d2 == Daemon(map["a" := a, "b" := Fresh], [], {"a"}, 1, 2);
    assert Dispatch(d2) == (d2, []);
  }

  lemma SecondWaits(a: Instance, b: Instance)
    requires a == Fresh.(pipeline := Building("A", 1)) && b == Fresh.(pipeline := Queued("B"))
    ensures Step(Daemon(map["a" := a, "b" := Fresh], [], {"a"}, 1, 2), "b", HeadAdvanced("B")).0
            == Daemon(map["a" := a, "b" := b], ["b"], {"a"}, 1, 2)
  {
    var d := Daemon(map["a" := a, "b" := Fresh], [], {"a"}, 1, 2);
    var d1 := Daemon(map["a" := a, "b" := b], ["b"], {"a"}, 1, 2);
    assert LocalStep(Fresh, "b", HeadAdvanced("B"), 2) == Local(b, 2, [], true);
    assert d.instances["b" := b] == d1.instances && {"a"} - {"b"} == {"a"};
    assert Install(d, "b", Local(b, 2, [], true)) == d1;
    assert |d1.building| == 1;
    assert Dispatch(d1) == (d1, []);
  }
}
