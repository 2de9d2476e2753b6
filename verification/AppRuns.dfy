/**
 * Theorems over every run of the lifecycle, read off the log of inputs and
 * actions: what a promotion must have behind it, what a red forbids, how many
 * inconclusive results a verdict can take, and where the newest HEAD is.
 */
module AppRuns {
  import opened Wrappers
  import opened AppModel
  import opened AppInvariant
  import opened AppHistory

  function Outs(acts: seq<Action>): seq<Entry> {
    if acts == [] then [] else [Out(acts[0])] + Outs(acts[1..])
  }

  /** Each input followed by the actions it caused. */
  function Log(d: Daemon, xs: seq<Input>): seq<Entry> {
    if xs == [] then []
    else
      var front, x := xs[..|xs| - 1], xs[|xs| - 1];
      Log(d, front) + [In(x)] + Outs(Advance(After(d, front), x).1)
  }

  // ------------------------------------------------------------ what an action needs behind it

  /** What must be in the log before an action: a promotion follows the probe of
      a proven boot, a build is of a sha somebody named and no standing red, and
      a recovery boots a sha that was promoted or recovered. */
  predicate Justified(f: Facts, prev: Option<Entry>, a: Action) {
    && f.present
    && match a
       case Promote(n, sha, g) =>
         && prev == Some(In(Observe(n, ProbeSucceeded(g)))) && sha in f.mentioned
         && ((sha, g) in f.built || (sha, g) in f.respawned)
       case StartBuild(_, sha, _) => sha in f.mentioned && sha !in f.unretried
       case Respawn(_, sha, _) => sha in f.promoted || sha in f.recovered
       case RecordRed(_, sha, _) => sha in f.mentioned
       case _ => true
  }

  function Before(log: seq<Entry>, k: nat): Option<Entry>
    requires k <= |log|
  {
    if k == 0 then None else Some(log[k - 1])
  }

  ghost predicate EntrySound(names: set<Name>, log: seq<Entry>, k: nat)
    requires k < |log|
  {
    log[k].Out? ==> Justified(Digest(names, log[..k], log[k].action.name), Before(log, k), log[k].action)
  }

  ghost predicate Sound(names: set<Name>, log: seq<Entry>) {
    forall k: nat :: k < |log| ==> EntrySound(names, log, k)
  }

  ghost predicate Supported(i: Instance, f: Facts) {
    Backed(i, f) && Named(i, f) && Abstains(i, f) && Counted(i, f)
  }

  ghost predicate AllSupported(names: set<Name>, d: Daemon, log: seq<Entry>) {
    && (forall n :: n in d.instances ==> Supported(d.instances[n], Digest(names, log, n)))
    && (forall n :: n !in d.instances ==> !Digest(names, log, n).present)
  }

  ghost predicate RunOk(names: set<Name>, d: Daemon, log: seq<Entry>) {
    Inv(d) && AllSupported(names, d, log) && Sound(names, log)
  }

  lemma SoundSnoc(names: set<Name>, log: seq<Entry>, e: Entry)
    requires Sound(names, log)
    requires e.Out? ==> Justified(Digest(names, log, e.action.name), Before(log, |log|), e.action)
    ensures Sound(names, log + [e])
  {
    var log' := log + [e];
    forall k: nat | k < |log'| ensures EntrySound(names, log', k) {
      if k < |log| {
        assert log'[..k] == log[..k];
        assert EntrySound(names, log, k);
      } else {
        assert log'[..k] == log;
      }
    }
  }

  // ------------------------------------------------------------ one instance's actions

  lemma StillPresent(f: Facts, a: Action)
    ensures Ordered(f, a).present == f.present
  {
  }

  lemma {:induction false} DigestOuts(names: set<Name>, log: seq<Entry>, acts: seq<Action>, n: Name)
    requires Digest(names, log, n).present
    requires forall a :: a in acts ==> a.name == n
    ensures Digest(names, log + Outs(acts), n) == OrderedAll(Digest(names, log, n), acts)
    ensures forall m :: m != n ==> Digest(names, log + Outs(acts), m) == Digest(names, log, m)
    decreases |acts|
  {
    hide Digest, Ordered;
    if acts == [] {
      assert log + Outs(acts) == log;
    } else {
      forall m ensures Digest(names, log + [Out(acts[0])], m) == Noted(Digest(names, log, m), Out(acts[0]), m) {
        DigestSnoc(names, log, Out(acts[0]), m);
      }
      StillPresent(Digest(names, log, n), acts[0]);
      assert acts[0] in acts && forall a :: a in acts[1..] ==> a in acts;
      DigestOuts(names, log + [Out(acts[0])], acts[1..], n);
      assert log + Outs(acts) == (log + [Out(acts[0])]) + Outs(acts[1..]);
    }
  }

  /** Every action in the list is justified where it stands. */
  ghost predicate AllJustified(f: Facts, prev: Option<Entry>, acts: seq<Action>)
    decreases |acts|
  {
    acts == [] || (Justified(f, prev, acts[0])
                   && AllJustified(Ordered(f, acts[0]), Some(Out(acts[0])), acts[1..]))
  }

  lemma {:induction false} SoundOuts(names: set<Name>, log: seq<Entry>, acts: seq<Action>, n: Name)
    requires Sound(names, log)
    requires Digest(names, log, n).present
    requires forall a :: a in acts ==> a.name == n
    requires AllJustified(Digest(names, log, n), Before(log, |log|), acts)
    ensures Sound(names, log + Outs(acts))
    decreases |acts|
  {
    if acts == [] {
      assert log + Outs(acts) == log;
    } else {
      var log1 := log + [Out(acts[0])];
      assert acts[0] in acts && forall a :: a in acts[1..] ==> a in acts;
      SoundSnoc(names, log, Out(acts[0]));
      DigestSnoc(names, log, Out(acts[0]), n);
      SoundOuts(names, log1, acts[1..], n);
      assert log + Outs(acts) == log1 + Outs(acts[1..]);
    }
  }

  lemma {:induction false} JustifiedConcat(f: Facts, prev: Option<Entry>, a: seq<Action>, b: seq<Action>)
    requires AllJustified(f, prev, a)
    requires |b| <= 1
    requires b != [] ==> Justified(OrderedAll(f, a), None, b[0]) && !b[0].Promote?
    ensures AllJustified(f, prev, a + b)
    decreases |a|
  {
    if a == [] {
      assert a + b == b;
      if b != [] { assert b[1..] == []; }
    } else {
      assert (a + b)[1..] == a[1..] + b;
      JustifiedConcat(Ordered(f, a[0]), Some(Out(a[0])), a[1..], b);
    }
  }

  lemma BuiltJustified(i: Instance, n: Name, g: Gen, outcome: Outcome, f: Facts, prev: Entry)
    requires Named(i, f) && f.present && BuildAccepted(i, g)
    ensures AllJustified(f, Some(prev), OnBuilt(i, n, i.pipeline.sha, g, outcome).acts)
  {
    var acts := OnBuilt(i, n, i.pipeline.sha, g, outcome).acts;
    assert |acts| == 1 ==> acts[1..] == [];
  }

  lemma ProbeJustified(i: Instance, n: Name, e: Event, f: Facts)
    requires Backed(i, f) && Named(i, f) && (e.ProbeSucceeded? || e.ProbeFailed?) && ProbeAccepted(i, e.gen)
    ensures AllJustified(Heard(f, e), Some(In(Observe(n, e))), Decide(i, n, e).acts)
  {
    var acts := Decide(i, n, e).acts;
    if |acts| == 2 {
      assert acts[1..][1..] == [];
    } else {
      assert acts[1..] == [];
    }
  }

  lemma DecideJustified(i: Instance, n: Name, e: Event, f: Facts)
    requires Backed(i, f) && Named(i, f)
    ensures AllJustified(Heard(f, e), Some(In(Observe(n, e))), Decide(i, n, e).acts)
  {
    if e.BuildFinished? && BuildAccepted(i, e.gen) {
      BuiltJustified(i, n, e.gen, e.outcome, Heard(f, e), In(Observe(n, e)));
    } else if (e.ProbeSucceeded? || e.ProbeFailed?) && ProbeAccepted(i, e.gen) {
      ProbeJustified(i, n, e, f);
    } else {
      assert Decide(i, n, e).acts == [];
    }
  }

  lemma LocalJustified(i: Instance, n: Name, e: Event, gen: Gen, f: Facts)
    requires Supported(i, f)
    ensures AllJustified(Heard(f, e), Some(In(Observe(n, e))), LocalStep(i, n, e, gen).acts)
  {
    hide Decide, AllJustified, Heard;
    var m := Decide(i, n, e);
    DecideJustified(i, n, e, f);
    DecideBacked(i, n, e, f);
    if m.Stay? {
      assert LocalStep(i, n, e, gen).acts == m.acts;
    } else {
      JustifiedConcat(Heard(f, e), Some(In(Observe(n, e))), m.acts, Respawned(m.inst, n, gen).acts);
    }
  }

  // ------------------------------------------------------------ steps

  /** Replace one instance under a log entry that concerns it alone. */
  lemma ReplacedOk(names: set<Name>, d: Daemon, log: seq<Entry>, n: Name, d1: Daemon, log1: seq<Entry>)
    requires AllSupported(names, d, log)
    requires d1.instances.Keys == d.instances.Keys && n in d1.instances
    requires forall m :: m in d.instances && m != n ==> d1.instances[m] == d.instances[m]
    requires forall m :: m != n ==> Digest(names, log1, m) == Digest(names, log, m)
    requires Supported(d1.instances[n], Digest(names, log1, n))
    ensures AllSupported(names, d1, log1)
  {
    hide Supported, Digest;
  }

  lemma LocalSupported(i: Instance, n: Name, e: Event, gen: Gen, f: Facts)
    requires Supported(i, f) && InstanceOk(i)
    ensures
      var l := LocalStep(i, n, e, gen);
      Supported(l.inst, OrderedAll(Heard(f, e), l.acts))
  {
    LocalBacked(i, n, e, gen, f);
    LocalNamed(i, n, e, gen, f);
    LocalAbstains(i, n, e, gen, f);
    LocalCounted(i, n, e, gen, f);
  }

  lemma InvReady(d: Daemon, n: Name)
    requires Inv(d) && n in d.instances
    ensures Ready(d.instances[n], d.nextGen)
  {
  }

  /** The log after an event and the actions of the instance it was for. */
  lemma ObservedLog(names: set<Name>, log: seq<Entry>, n: Name, e: Event, acts: seq<Action>)
    requires Sound(names, log) && Digest(names, log, n).present
    requires forall a :: a in acts ==> a.name == n
    requires AllJustified(Heard(Digest(names, log, n), e), Some(In(Observe(n, e))), acts)
    ensures
      var log1 := log + [In(Observe(n, e))] + Outs(acts);
      && Sound(names, log1)
      && Digest(names, log1, n) == OrderedAll(Heard(Digest(names, log, n), e), acts)
      && (forall m :: m != n ==> Digest(names, log1, m) == Digest(names, log, m))
  {
    hide Sound, Justified;
    var x := In(Observe(n, e));
    forall m ensures Digest(names, log + [x], m) == Noted(Digest(names, log, m), x, m) {
      DigestSnoc(names, log, x, m);
    }
    hide Digest;
    SoundSnoc(names, log, x);
    SoundOuts(names, log + [x], acts, n);
    DigestOuts(names, log + [x], acts, n);
  }

  lemma ObservedDigest(names: set<Name>, d: Daemon, log: seq<Entry>, n: Name, e: Event)
    requires RunOk(names, d, log) && n in d.instances
    ensures
      var l := LocalStep(d.instances[n], n, e, d.nextGen);
      var log1 := log + [In(Observe(n, e))] + Outs(l.acts);
      && Sound(names, log1)
      && Digest(names, log1, n) == OrderedAll(Heard(Digest(names, log, n), e), l.acts)
      && (forall m :: m != n ==> Digest(names, log1, m) == Digest(names, log, m))
  {
    var i, f := d.instances[n], Digest(names, log, n);
    InvReady(d, n);
    assert Supported(i, f) && f.present;
    hide Inv, Sound, Digest, Supported, LocalStep, InstanceOk, OwnDistinct, Outs, OrderedAll, Heard, AllJustified;
    LocalStepKeeps(i, n, e, d.nextGen);
    LocalJustified(i, n, e, d.nextGen, f);
    ObservedLog(names, log, n, e, LocalStep(i, n, e, d.nextGen).acts);
  }

  lemma LocalOk(names: set<Name>, d: Daemon, log: seq<Entry>, n: Name, e: Event)
    requires RunOk(names, d, log) && n in d.instances
    ensures
      var l := LocalStep(d.instances[n], n, e, d.nextGen);
      RunOk(names, Install(d, n, l), log + [In(Observe(n, e))] + Outs(l.acts))
  {
    var i := d.instances[n];
    var l := LocalStep(i, n, e, d.nextGen);
    InvReady(d, n);
    assert Supported(i, Digest(names, log, n));
    hide Inv, Sound, Digest, Supported, LocalStep, InstanceOk, OwnDistinct, Outs, OrderedAll, Heard;
    ObservedDigest(names, d, log, n, e);
    InstallKeeps(d, n, e);
    LocalSupported(i, n, e, d.nextGen, Digest(names, log, n));
    ReplacedOk(names, d, log, n, Install(d, n, l), log + [In(Observe(n, e))] + Outs(l.acts));
  }

  lemma StartedSupported(i: Instance, n: Name, gen: Gen, f: Facts)
    requires Supported(i, f) && InstanceOk(i) && i.pipeline.Queued?
    ensures
      var a := StartBuild(n, i.pipeline.sha, gen);
      Supported(i.(pipeline := Building(i.pipeline.sha, gen)), Ordered(f, a)) && Justified(f, None, a)
  {
  }

  lemma DispatchedOk(names: set<Name>, d: Daemon, log: seq<Entry>)
    requires RunOk(names, d, log) && SlotFree(d) && HeadDispatchable(d)
    ensures RunOk(names, Dispatched(d).0, log + [Out(Dispatched(d).1)])
  {
    var n := d.queue[0];
    var (d1, a) := Dispatched(d);
    StartedSupported(d.instances[n], n, d.nextGen, Digest(names, log, n));
    hide Supported;
    forall m ensures Digest(names, log + [Out(a)], m) == Noted(Digest(names, log, m), Out(a), m) {
      DigestSnoc(names, log, Out(a), m);
    }
    DispatchedKeeps(d);
    SoundSnoc(names, log, Out(a));
    ReplacedOk(names, d, log, n, d1, log + [Out(a)]);
  }

  lemma DispatchStops(d: Daemon)
    requires !(SlotFree(d) && HeadDispatchable(d))
    ensures Dispatch(d).0 == d && Outs(Dispatch(d).1) == []
  {
  }

  lemma DispatchUnfolds(d: Daemon)
    requires SlotFree(d) && HeadDispatchable(d)
    ensures
      var (d1, a) := Dispatched(d);
      && |d1.queue| < |d.queue| && d1.instances.Keys == d.instances.Keys
      && Dispatch(d).0 == Dispatch(d1).0
      && Outs(Dispatch(d).1) == [Out(a)] + Outs(Dispatch(d1).1)
  {
    var (d1, a) := Dispatched(d);
    var rest := Dispatch(d1).1;
    assert Dispatch(d).1 == [a] + rest && ([a] + rest)[1..] == rest;
  }

  lemma {:induction false} DispatchOk(names: set<Name>, d: Daemon, log: seq<Entry>)
    requires RunOk(names, d, log)
    ensures RunOk(names, Dispatch(d).0, log + Outs(Dispatch(d).1))
    decreases |d.queue|
  {
    hide RunOk, SlotFree, HeadDispatchable, Dispatched, Dispatch, Outs;
    if SlotFree(d) && HeadDispatchable(d) {
      var (d1, a) := Dispatched(d);
      DispatchUnfolds(d);
      DispatchedOk(names, d, log);
      DispatchOk(names, d1, log + [Out(a)]);
      assert log + Outs(Dispatch(d).1) == (log + [Out(a)]) + Outs(Dispatch(d1).1);
    } else {
      DispatchStops(d);
      assert log + Outs(Dispatch(d).1) == log;
    }
  }

  lemma {:induction false} OutsConcat(a: seq<Action>, b: seq<Action>)
    ensures Outs(a + b) == Outs(a) + Outs(b)
  {
    if a == [] {
      assert a + b == b;
    } else {
      assert (a + b)[1..] == a[1..] + b;
      OutsConcat(a[1..], b);
    }
  }

  lemma UnknownOk(names: set<Name>, d: Daemon, log: seq<Entry>, n: Name, e: Event)
    requires RunOk(names, d, log) && n !in d.instances
    ensures RunOk(names, d, log + [In(Observe(n, e))])
  {
    var x := In(Observe(n, e));
    forall m ensures Digest(names, log + [x], m) == Digest(names, log, m) {
      DigestSnoc(names, log, x, m);
    }
    SoundSnoc(names, log, x);
  }

  lemma ObserveOk(names: set<Name>, d: Daemon, log: seq<Entry>, n: Name, e: Event)
    requires RunOk(names, d, log)
    ensures RunOk(names, Step(d, n, e).0, log + [In(Observe(n, e))] + Outs(Step(d, n, e).1))
  {
    hide RunOk, LocalStep, Install, Dispatch;
    var x := In(Observe(n, e));
    if n !in d.instances {
      UnknownOk(names, d, log, n, e);
      assert log + [x] + Outs([]) == log + [x];
    } else {
      LocalOk(names, d, log, n, e);
      var l := LocalStep(d.instances[n], n, e, d.nextGen);
      var d1 := Install(d, n, l);
      if l.dispatch {
        DispatchOk(names, d1, log + [x] + Outs(l.acts));
        OutsConcat(l.acts, Dispatch(d1).1);
        assert log + [x] + Outs(l.acts) + Outs(Dispatch(d1).1) == log + [x] + Outs(Step(d, n, e).1);
      }
    }
  }

  lemma AddOk(names: set<Name>, d: Daemon, log: seq<Entry>, n: Name)
    requires RunOk(names, d, log)
    ensures RunOk(names, Added(d, n), log + [In(Add(n))] + Outs([]))
  {
    hide Inv, Sound;
    var x := In(Add(n));
    assert log + [x] + Outs([]) == log + [x];
    forall m ensures Digest(names, log + [x], m) == Noted(Digest(names, log, m), x, m) {
      DigestSnoc(names, log, x, m);
    }
    AddedKeeps(d, n);
    SoundSnoc(names, log, x);
    assert Supported(Fresh, Blank.(present := true));
    hide Supported, Digest;
    assert AllSupported(names, Added(d, n), log + [x]);
  }

  lemma RemoveOk(names: set<Name>, d: Daemon, log: seq<Entry>, n: Name)
    requires RunOk(names, d, log)
    ensures RunOk(names, Removed(d, n), log + [In(Remove(n))] + Outs([]))
  {
    hide Supported, Inv, Sound, Digest, WorkConserving;
    var x := In(Remove(n));
    assert log + [x] + Outs([]) == log + [x];
    forall m ensures Digest(names, log + [x], m) == Noted(Digest(names, log, m), x, m) {
      DigestSnoc(names, log, x, m);
    }
    RemovedKeeps(d, n);
    SoundSnoc(names, log, x);
    assert AllSupported(names, Removed(d, n), log + [x]);
  }

  /** Every reachable state is backed by its log, and every action in the log
      had behind it what `Justified` asks. */
  lemma {:induction false} RunIsSound(names: set<Name>, maxConcurrent: nat, xs: seq<Input>)
    ensures RunOk(names, After(New(names, maxConcurrent), xs), Log(New(names, maxConcurrent), xs))
    decreases |xs|
  {
    var d0 := New(names, maxConcurrent);
    if xs == [] {
      NewKeeps(names, maxConcurrent);
    } else {
      var front, x := xs[..|xs| - 1], xs[|xs| - 1];
      RunIsSound(names, maxConcurrent, front);
      var d, log := After(d0, front), Log(d0, front);
      match x
      case Observe(n, e) => ObserveOk(names, d, log, n, e);
      case Add(n) => AddOk(names, d, log, n);
      case Remove(n) => RemoveOk(names, d, log, n);
    }
  }
}
