/**
 * Which shared analyzers should live: worktrees join and leave clusters, and
 * the first in and the last out of a cluster spawn and tear down its analyzer.
 */
module ClusterLifecycle {
  import opened Wrappers

  type Wt = string
  type Hash = string

  datatype Action = SpawnRa(hash: Hash) | TeardownRa(hash: Hash) | NoOp

  datatype Clusters = Clusters(members: map<Hash, set<Wt>>, wtCluster: map<Wt, Hash>)

  const Empty: Clusters := Clusters(map[], map[])

  // ------------------------------------------------------------ membership

  function Detached(c: Clusters, wt: Wt): Clusters {
    if wt !in c.wtCluster then c
    else
      var h := c.wtCluster[wt];
      var rest := c.wtCluster - {wt};
      if h !in c.members then c.(wtCluster := rest)
      else if c.members[h] - {wt} == {} then Clusters(c.members - {h}, rest)
      else Clusters(c.members[h := c.members[h] - {wt}], rest)
  }

  function MembersOf(c: Clusters, h: Hash): set<Wt> {
    if h in c.members then c.members[h] else {}
  }

  function Activated(c: Clusters, wt: Wt, h: Hash): (Clusters, Action) {
    if wt in c.wtCluster && c.wtCluster[wt] == h then (c, NoOp)
    else
      var d := Detached(c, wt);
      (Clusters(d.members[h := MembersOf(d, h) + {wt}], d.wtCluster[wt := h]),
       if MembersOf(d, h) == {} then SpawnRa(h) else NoOp)
  }

  function Deactivated(c: Clusters, wt: Wt): (Clusters, Action) {
    var d := Detached(c, wt);
    (d, if wt in c.wtCluster && c.wtCluster[wt] !in d.members then TeardownRa(c.wtCluster[wt]) else NoOp)
  }

  function Rerouted(c: Clusters, wt: Wt, h: Hash): (Clusters, Action, Action) {
    if wt in c.wtCluster && c.wtCluster[wt] == h then (c, NoOp, NoOp)
    else
      var (d, leaving) := Deactivated(c, wt);
      var (e, joining) := Activated(d, wt, h);
      (e, leaving, joining)
  }

  class Lifecycle {
    var members: map<Hash, set<Wt>>
    var wtCluster: map<Wt, Hash>

    ghost function Model(): Clusters
      reads this
    {
      Clusters(members, wtCluster)
    }

    constructor ()
      ensures Model() == Empty
    {
      members := map[];
      wtCluster := map[];
    }

    /** The one mutation both joining and leaving build on. */
    method Detach(wt: Wt) returns (was: Option<Hash>)
      modifies this
      ensures Model() == Detached(old(Model()), wt)
      ensures was == if wt in old(wtCluster) then Some(old(wtCluster)[wt]) else None
    {
      if wt !in wtCluster { return None; }
      var h := wtCluster[wt];
      wtCluster := wtCluster - {wt};
      if h in members {
        var left := members[h] - {wt};
        members := if left == {} then members - {h} else members[h := left];
      }
      was := Some(h);
    }

    method Activate(wt: Wt, h: Hash) returns (action: Action)
      modifies this
      ensures (Model(), action) == Activated(old(Model()), wt, h)
    {
      if wt in wtCluster && wtCluster[wt] == h { return NoOp; }
      var was := Detach(wt);
      var joined := if h in members then members[h] else {};
      members := members[h := joined + {wt}];
      wtCluster := wtCluster[wt := h];
      action := if joined == {} then SpawnRa(h) else NoOp;
    }

    method Deactivate(wt: Wt) returns (action: Action)
      modifies this
      ensures (Model(), action) == Deactivated(old(Model()), wt)
    {
      var was := Detach(wt);
      action := if was.Some? && was.value !in members then TeardownRa(was.value) else NoOp;
    }

    method Reroute(wt: Wt, h: Hash) returns (leaving: Action, joining: Action)
      modifies this
      ensures (Model(), leaving, joining) == Rerouted(old(Model()), wt, h)
    {
      if wt in wtCluster && wtCluster[wt] == h { return NoOp, NoOp; }
      leaving := Deactivate(wt);
      joining := Activate(wt, h);
    }
  }

  // ------------------------------------------------------------ the invariant

  /** The two maps say the same thing, and no cluster is empty. */
  ghost predicate Inverse(c: Clusters) {
    && (forall wt :: wt in c.wtCluster ==> c.wtCluster[wt] in c.members && wt in c.members[c.wtCluster[wt]])
    && (forall h, wt :: h in c.members && wt in c.members[h] ==> wt in c.wtCluster && c.wtCluster[wt] == h)
    && (forall h :: h in c.members ==> c.members[h] != {})
  }

  lemma DetachedKeeps(c: Clusters, wt: Wt)
    requires Inverse(c)
    ensures Inverse(Detached(c, wt)) && wt !in Detached(c, wt).wtCluster
  {
    if wt in c.wtCluster {
      var h, d := c.wtCluster[wt], Detached(c, wt);
      assert wt in c.members[h];
      assert forall k :: k in d.members ==> d.members[k] == if k == h then c.members[k] - {wt} else c.members[k];
    }
  }

  lemma ActivatedKeeps(c: Clusters, wt: Wt, h: Hash)
    requires Inverse(c)
    ensures Inverse(Activated(c, wt, h).0)
  {
    DetachedKeeps(c, wt);
    var e := Activated(c, wt, h).0;
    assert h in e.members ==> wt in e.members[h];
  }

  // ------------------------------------------------------------ replaying the actions

  function Replayed(live: set<Hash>, a: Action): set<Hash> {
    match a
    case SpawnRa(h) => live + {h}
    case TeardownRa(h) => live - {h}
    case NoOp => live
  }

  /** Acting on it starts what is not running and stops what is. */
  predicate Sensible(live: set<Hash>, a: Action) {
    match a
    case SpawnRa(h) => h !in live
    case TeardownRa(h) => h in live
    case NoOp => true
  }

  lemma DeactivatedReplays(c: Clusters, wt: Wt)
    requires Inverse(c)
    ensures
      var (d, a) := Deactivated(c, wt);
      Replayed(c.members.Keys, a) == d.members.Keys && Sensible(c.members.Keys, a)
  {
  }

  /** A bare activation would move the last member out of another cluster. */
  predicate Empties(c: Clusters, wt: Wt, h: Hash) {
    wt in c.wtCluster && c.wtCluster[wt] != h && MembersOf(c, c.wtCluster[wt]) == {wt}
  }

  /** The action of a bare activation accounts for the analyzers that should live
      exactly when it does not move the last member out of another cluster. */
  lemma ActivatedReplaysIff(c: Clusters, wt: Wt, h: Hash)
    requires Inverse(c)
    ensures
      var (e, a) := Activated(c, wt, h);
      && Sensible(c.members.Keys, a)
      && (Replayed(c.members.Keys, a) == e.members.Keys <==> !Empties(c, wt, h))
  {
    DetachedKeeps(c, wt);
    var (e, a) := Activated(c, wt, h);
    var d := Detached(c, wt);
    assert e.members.Keys == d.members.Keys + {h};
    if wt in c.wtCluster && c.wtCluster[wt] != h {
      var g := c.wtCluster[wt];
      assert wt in c.members[g];
      if c.members[g] == {wt} {
        assert g !in e.members.Keys && g in Replayed(c.members.Keys, a);
      } else {
        assert c.members[g] == (c.members[g] - {wt}) + {wt};
        assert d.members.Keys == c.members.Keys;
      }
    }
  }

  lemma ReroutedReplays(c: Clusters, wt: Wt, h: Hash)
    requires Inverse(c)
    ensures
      var (e, a, b) := Rerouted(c, wt, h);
      && Inverse(e)
      && Replayed(Replayed(c.members.Keys, a), b) == e.members.Keys
      && Sensible(c.members.Keys, a) && Sensible(Replayed(c.members.Keys, a), b)
  {
    if !(wt in c.wtCluster && c.wtCluster[wt] == h) {
      DetachedKeeps(c, wt);
      DeactivatedReplays(c, wt);
      ActivatedReplaysIff(Detached(c, wt), wt, h);
      ActivatedKeeps(Detached(c, wt), wt, h);
    }
  }

  /** A reroute tears the old cluster down exactly when the worktree was alone in it,
      and spawns the new one exactly when nobody was there, in that order. */
  lemma RerouteActions(c: Clusters, wt: Wt, h: Hash)
    requires Inverse(c) && wt in c.wtCluster && c.wtCluster[wt] != h
    ensures
      var (e, leaving, joining) := Rerouted(c, wt, h);
      && leaving == (if c.members[c.wtCluster[wt]] == {wt} then TeardownRa(c.wtCluster[wt]) else NoOp)
      && joining == (if h in c.members then NoOp else SpawnRa(h))
      && e.wtCluster == c.wtCluster[wt := h]
      && forall g :: MembersOf(e, g) == if g == h then MembersOf(c, g) + {wt} else MembersOf(c, g) - {wt}
  {
    var g, d := c.wtCluster[wt], Detached(c, wt);
    DetachedKeeps(c, wt);
    assert wt in c.members[g];
    assert c.members[g] - {wt} == {} ==> c.members[g] == {wt};
    assert (c.wtCluster - {wt})[wt := h] == c.wtCluster[wt := h];
    forall k ensures MembersOf(d, k) == MembersOf(c, k) - {wt} {
      if k != g && k in c.members { assert wt !in c.members[k]; }
    }
  }

  // ------------------------------------------------------------ whole runs

  datatype Input = Activate(wt: Wt, hash: Hash) | Deactivate(wt: Wt) | Reroute(wt: Wt, hash: Hash)

  function Step(c: Clusters, x: Input): (Clusters, seq<Action>) {
    match x
    case Activate(wt, h) => var (e, a) := Activated(c, wt, h); (e, [a])
    case Deactivate(wt) => var (e, a) := Deactivated(c, wt); (e, [a])
    case Reroute(wt, h) => var (e, a, b) := Rerouted(c, wt, h); (e, [a, b])
  }

  function After(xs: seq<Input>): Clusters {
    if xs == [] then Empty else Step(After(xs[..|xs| - 1]), xs[|xs| - 1]).0
  }

  function Actions(xs: seq<Input>): seq<Action> {
    if xs == [] then [] else Actions(xs[..|xs| - 1]) + Step(After(xs[..|xs| - 1]), xs[|xs| - 1]).1
  }

  function Live(actions: seq<Action>): set<Hash> {
    if actions == [] then {} else Replayed(Live(actions[..|actions| - 1]), actions[|actions| - 1])
  }

  /** No bare activation in the run moves the last member out of another cluster. */
  predicate NeverEmpties(xs: seq<Input>) {
    forall k :: 0 <= k < |xs| && xs[k].Activate? ==> !Empties(After(xs[..k]), xs[k].wt, xs[k].hash)
  }

  lemma LiveSnoc(actions: seq<Action>, a: Action)
    ensures Live(actions + [a]) == Replayed(Live(actions), a)
  {
    assert (actions + [a])[..|actions|] == actions;
  }

  /** Every action makes sense when it is emitted. */
  predicate AllSensible(actions: seq<Action>) {
    forall k :: 0 <= k < |actions| ==> Sensible(Live(actions[..k]), actions[k])
  }

  lemma SensibleSnoc(actions: seq<Action>, a: Action)
    requires AllSensible(actions) && Sensible(Live(actions), a)
    ensures AllSensible(actions + [a])
  {
    var all := actions + [a];
    forall k | 0 <= k < |all| ensures Sensible(Live(all[..k]), all[k]) {
      assert all[..k] == if k < |actions| then actions[..k] else actions;
    }
  }

  /** The invariant holds in every run; and where no bare activation empties a
      cluster, every action makes sense when it is emitted, and replaying the actions
      gives exactly the clusters that have members. */
  lemma {:induction false} RunReplays(xs: seq<Input>)
    ensures Inverse(After(xs))
    ensures NeverEmpties(xs) ==> Live(Actions(xs)) == After(xs).members.Keys && AllSensible(Actions(xs))
    decreases |xs|
  {
    hide Detached, Activated, Deactivated, Rerouted, Inverse, Replayed, Sensible, Live, Empties;
    if xs == [] {
      NothingLives();
    } else {
      var front, x := xs[..|xs| - 1], xs[|xs| - 1];
      RunReplays(front);
      var c, before := After(front), Actions(front);
      StepKeeps(c, x);
      if NeverEmpties(xs) {
        assert forall k :: 0 <= k < |front| ==> front[..k] == xs[..k] && front[k] == xs[k];
        assert NeverEmpties(front);
        StepReplays(c, x);
        var acts := Step(c, x).1;
        LiveSnoc(before, acts[0]);
        SensibleSnoc(before, acts[0]);
        if |acts| == 2 {
          LiveSnoc(before + [acts[0]], acts[1]);
          SensibleSnoc(before + [acts[0]], acts[1]);
          assert before + acts == (before + [acts[0]]) + [acts[1]];
        } else {
          assert before + acts == before + [acts[0]];
        }
      }
    }
  }

  /** The actions emitted so far account for the clusters that have members. */
  predicate Replays(xs: seq<Input>) {
    Live(Actions(xs)) == After(xs).members.Keys
  }

  lemma NeverEmptiesBefore(xs: seq<Input>, k: nat)
    requires NeverEmpties(xs) && k <= |xs|
    ensures NeverEmpties(xs[..k])
  {
    hide Empties, After;
    var front := xs[..k];
    forall j | 0 <= j < |front| && front[j].Activate? ensures !Empties(After(front[..j]), front[j].wt, front[j].hash) {
      assert front[..j] == xs[..j] && front[j] == xs[j];
    }
  }

  /** An activation that empties a cluster shows at once. */
  lemma EmptyingShows(xs: seq<Input>, k: nat)
    requires k < |xs| && xs[k].Activate? && Empties(After(xs[..k]), xs[k].wt, xs[k].hash)
    ensures !Replays(xs[..k]) || !Replays(xs[..k + 1])
  {
    hide Replays, Empties, After;
    if Replays(xs[..k]) {
      EmptyingMisses(xs[..k], xs[k]);
      assert xs[..k] + [xs[k]] == xs[..k + 1];
    }
  }

  /** The two maps are inverse in every run, and the actions account for the live
      clusters all the way through a run exactly when no bare activation in it
      moves the last member out of another cluster. */
  lemma RunsReplayIff(xs: seq<Input>)
    ensures Inverse(After(xs))
    ensures (forall k :: 0 <= k <= |xs| ==> Replays(xs[..k])) <==> NeverEmpties(xs)
    ensures NeverEmpties(xs) ==> AllSensible(Actions(xs))
  {
    RunReplays(xs);
    hide *;
    if NeverEmpties(xs) {
      forall k | 0 <= k <= |xs| ensures Replays(xs[..k]) {
        NeverEmptiesBefore(xs, k);
        NeverEmptiesReplays(xs[..k]);
      }
    } else {
      var k := SomeEmptying(xs);
      EmptyingShows(xs, k);
    }
  }

  lemma NeverEmptiesReplays(xs: seq<Input>)
    requires NeverEmpties(xs)
    ensures Replays(xs)
  {
    hide Live, Actions, After, NeverEmpties;
    RunReplays(xs);
  }

  lemma SomeEmptying(xs: seq<Input>) returns (k: nat)
    requires !NeverEmpties(xs)
    ensures k < |xs| && xs[k].Activate? && Empties(After(xs[..k]), xs[k].wt, xs[k].hash)
  {
    hide Empties, After;
    k :| 0 <= k < |xs| && xs[k].Activate? && Empties(After(xs[..k]), xs[k].wt, xs[k].hash);
  }

  lemma EmptyingMisses(xs: seq<Input>, x: Input)
    requires Replays(xs) && x.Activate? && Empties(After(xs), x.wt, x.hash)
    ensures !Replays(xs + [x])
  {
    hide Inverse, Live, Empties, Activated, Replayed;
    RunReplays(xs);
    ActivatedReplaysIff(After(xs), x.wt, x.hash);
    assert (xs + [x])[..|xs|] == xs;
    LiveSnoc(Actions(xs), Activated(After(xs), x.wt, x.hash).1);
  }

  /** A worktree alone in "a" is activated in "b": the analyzer of "a" is never
      torn down. */
  lemma TeardownCanBeMissed()
    ensures
      var xs := [Activate("w", "a"), Activate("w", "b")];
      After(xs).members.Keys == {"b"} && Live(Actions(xs)) == {"a", "b"}
  {
    var x1, x2 := Activate("w", "a"), Activate("w", "b");
    assert [x1, x2][..1] == [x1] && [x1][..0] == [];
    assert After([]) == Empty && {} + {"w"} == {"w"};
    assert Step(Empty, x1) == (Clusters(map["a" := {"w"}], map["w" := "a"]), [SpawnRa("a")]);
    assert After([x1]) == Clusters(map["a" := {"w"}], map["w" := "a"]);
    assert Actions([x1]) == [] + [SpawnRa("a")] == [SpawnRa("a")];
    assert Activated(After([x1]), "w", "b").1 == SpawnRa("b");
    assert {"w"} - {"w"} == {};
    assert Actions([x1, x2]) == [SpawnRa("a")] + [SpawnRa("b")];
    LiveSnoc([], SpawnRa("a"));
    LiveSnoc([SpawnRa("a")], SpawnRa("b"));
    assert [] + [SpawnRa("a")] == [SpawnRa("a")];
    NothingLives();
  }

  lemma NothingLives()
    ensures Live([]) == {} && Inverse(Empty) && Empty.members.Keys == {}
  {
  }

  lemma StepKeeps(c: Clusters, x: Input)
    requires Inverse(c)
    ensures Inverse(Step(c, x).0)
  {
    match x
    case Activate(wt, h) => ActivatedKeeps(c, wt, h);
    case Deactivate(wt) => DetachedKeeps(c, wt);
    case Reroute(wt, h) => ReroutedReplays(c, wt, h);
  }

  lemma StepReplays(c: Clusters, x: Input)
    requires Inverse(c)
    requires x.Activate? ==> !Empties(c, x.wt, x.hash)
    ensures
      var (d, acts) := Step(c, x);
      && (|acts| == 1 || |acts| == 2)
      && Sensible(c.members.Keys, acts[0])
      && (|acts| == 1 ==> Replayed(c.members.Keys, acts[0]) == d.members.Keys)
      && (|acts| == 2 ==> Sensible(Replayed(c.members.Keys, acts[0]), acts[1])
                          && Replayed(Replayed(c.members.Keys, acts[0]), acts[1]) == d.members.Keys)
  {
    hide Detached, Activated, Deactivated, Rerouted, Replayed, Sensible;
    match x
    case Activate(wt, h) => ActivatedReplaysIff(c, wt, h);
    case Deactivate(wt) => DeactivatedReplays(c, wt);
    case Reroute(wt, h) => ReroutedReplays(c, wt, h);
  }

  /** Spawns and teardowns of one cluster alternate: between two spawns there is a
      teardown, and between two teardowns a spawn. */
  lemma Alternates(actions: seq<Action>, i: nat, j: nat, h: Hash)
    requires AllSensible(actions) && i < j < |actions|
    ensures actions[i] == SpawnRa(h) && actions[j] == SpawnRa(h) ==>
              exists k :: i < k < j && actions[k] == TeardownRa(h)
    ensures actions[i] == TeardownRa(h) && actions[j] == TeardownRa(h) ==>
              exists k :: i < k < j && actions[k] == SpawnRa(h)
  {
    LiveSnoc(actions[..i], actions[i]);
    assert actions[..i] + [actions[i]] == actions[..i + 1];
    if actions[i] == SpawnRa(h) && forall k :: i < k < j ==> actions[k] != TeardownRa(h) {
      StaysLive(actions, i + 1, j, h);
    }
    if actions[i] == TeardownRa(h) && forall k :: i < k < j ==> actions[k] != SpawnRa(h) {
      StaysDead(actions, i + 1, j, h);
    }
  }

  lemma {:induction false} StaysLive(actions: seq<Action>, i: nat, j: nat, h: Hash)
    requires i <= j <= |actions| && h in Live(actions[..i])
    requires forall k :: i <= k < j ==> actions[k] != TeardownRa(h)
    ensures h in Live(actions[..j])
    decreases j
  {
    if i < j {
      StaysLive(actions, i, j - 1, h);
      LiveSnoc(actions[..j - 1], actions[j - 1]);
      assert actions[..j - 1] + [actions[j - 1]] == actions[..j];
    }
  }

  lemma {:induction false} StaysDead(actions: seq<Action>, i: nat, j: nat, h: Hash)
    requires i <= j <= |actions| && h !in Live(actions[..i])
    requires forall k :: i <= k < j ==> actions[k] != SpawnRa(h)
    ensures h !in Live(actions[..j])
    decreases j
  {
    if i < j {
      StaysDead(actions, i, j - 1, h);
      LiveSnoc(actions[..j - 1], actions[j - 1]);
      assert actions[..j - 1] + [actions[j - 1]] == actions[..j];
    }
  }
}
