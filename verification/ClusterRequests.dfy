/**
 * Requests to one cluster's sequencer: while the analyzer is not respawned none
 * is lost, and the queue is served in order.
 */
module ClusterRequests {
  import opened Wrappers
  import opened Barrier
  import opened ClusterDriver
  import opened ClusterTraces

  predicate NoDup(s: seq<Wt>) {
    forall j, k :: 0 <= j < k < |s| ==> s[j] != s[k]
  }

  /** The queue lists each worktree once and never the one in flight. */
  predicate Apart(c: Cluster) {
    NoDup(c.pending) && (c.current.Some? ==> c.current.value.wt !in c.pending)
  }

  /** And an idle cluster owes nothing. */
  predicate Orderly(c: Cluster) {
    Apart(c) && (c.current.None? ==> c.pending == [] && !c.recheck)
  }

  lemma {:induction false} DroppedNoDup(s: seq<Wt>, wt: Wt)
    requires NoDup(s)
    ensures NoDup(Dropped(s, wt))
  {
    if s != [] {
      assert forall j, k :: 0 <= j < k < |s| - 1 ==> s[1..][j] == s[j + 1] && s[1..][k] == s[k + 1];
      DroppedNoDup(s[1..], wt);
      var rest := Dropped(s[1..], wt);
      if s[0] != wt {
        forall k | 0 <= k < |rest| ensures rest[k] != s[0] {
          assert rest[k] in rest;
          assert rest[k] in s[1..];
        }
      }
    }
  }

  lemma StepKeepsOrderly(c: Cluster, x: Input)
    requires Orderly(c) && !x.Respawn?
    ensures Orderly(Step(c, x).0)
  {
    match x
    case Deactivate(wt) => DroppedNoDup(c.pending, wt);
    case RoutedBatch(_) =>
    case LspEvent(_) =>
      if c.pending != [] { assert c.pending[0] in c.pending; }
  }

  lemma {:induction false} RunKeepsOrderly(policy: VerdictPolicy, xs: seq<Input>, n: nat)
    requires n <= |xs| && forall k :: 0 <= k < n ==> !xs[k].Respawn?
    ensures Orderly(At(policy, xs, n))
  {
    hide Step;
    if n == 0 {
      NothingYet(policy, xs);
    } else {
      RunKeepsOrderly(policy, xs, n - 1);
      Prefixes(policy, xs, n - 1);
      StepKeepsOrderly(At(policy, xs, n - 1), xs[n - 1]);
    }
  }

  // ------------------------------------------------------------ the respawn boundary

  /** A respawn forgets the work in flight and keeps the queue. */
  lemma RespawnDropsOnlyInFlight(c: Cluster)
    ensures
      var d := Step(c, Respawn).0;
      d.current.None? && !d.recheck && d.pending == c.pending && (Apart(c) ==> Apart(d))
      && (Orderly(d) <==> c.pending == [])
  {
  }

  /** A batch keeps the queue apart from the turn in flight, except when it opens a
      turn for a worktree still queued from before a respawn. */
  lemma RoutedKeepsApartIff(c: Cluster, wt: Wt)
    requires Apart(c)
    ensures Apart(Routed(c, wt).0) <==> !(c.current.None? && wt in c.pending)
  {
  }

  /** Such a state is reachable. */
  lemma InFlightAndQueued(policy: VerdictPolicy)
    ensures
      var c := After(New(policy), [RoutedBatch("v"), RoutedBatch("w"), Respawn, RoutedBatch("w")]);
      c.current == Some(Fresh("w")) && c.pending == ["w"]
  {
    var c0 := New(policy);
    var x1, x2 := [RoutedBatch("v")], [RoutedBatch("v"), RoutedBatch("w")];
    var x3 := [RoutedBatch("v"), RoutedBatch("w"), Respawn];
    var x4 := x3 + [RoutedBatch("w")];
    assert x1[..0] == [] && x2[..1] == x1 && x3[..2] == x2 && x4[..3] == x3;
    assert x4 == [RoutedBatch("v"), RoutedBatch("w"), Respawn, RoutedBatch("w")];
    assert After(c0, x1) == Step(c0, x1[0]).0;
    assert After(c0, x2) == Step(After(c0, x1), x2[1]).0;
    assert After(c0, x3) == Step(After(c0, x2), x3[2]).0;
    assert After(c0, x4) == Step(After(c0, x3), x4[3]).0;
  }

  // ------------------------------------------------------------ conservation

  /** A check of `wt` is still owed. */
  predicate Owed(c: Cluster, wt: Wt) {
    wt in c.pending || (c.current.Some? && c.current.value.wt == wt && c.recheck)
  }

  /** An owed check stays owed until a turn is opened for it. */
  lemma OwedStep(c: Cluster, x: Input, wt: Wt)
    requires Orderly(c) && !x.Respawn? && x != Deactivate(wt)
    requires Owed(c, wt) || x == RoutedBatch(wt)
    ensures
      var (d, a) := Step(c, x);
      Owed(d, wt) || ((a.SwitchOverlay? || a.EmitVerdict?) && d.current.Some? && d.current.value.wt == wt)
  {
    if x.LspEvent? && c.pending != [] {
      assert forall w :: w in c.pending ==> w == c.pending[0] || w in c.pending[1..];
    }
  }

  /** In a run without respawns, a routed worktree that is not deactivated is
      queued, or in flight with its recheck owed, or has had a turn opened for it
      since. */
  lemma {:induction false} RequestConserved(policy: VerdictPolicy, xs: seq<Input>, i: nat, n: nat, wt: Wt)
    requires i < n <= |xs| && xs[i] == RoutedBatch(wt)
    requires forall k :: 0 <= k < n ==> !xs[k].Respawn?
    requires forall k :: i < k < n ==> xs[k] != Deactivate(wt)
    ensures Owed(At(policy, xs, n), wt) || exists o :: i <= o < n && Opens(policy, xs, o, wt)
    decreases n
  {
    hide Step, Owed, Orderly;
    RunKeepsOrderly(policy, xs, n - 1);
    Prefixes(policy, xs, n - 1);
    if i < n - 1 { RequestConserved(policy, xs, i, n - 1, wt); }
    if i == n - 1 || Owed(At(policy, xs, n - 1), wt) {
      OwedStep(At(policy, xs, n - 1), xs[n - 1], wt);
      if !Owed(At(policy, xs, n), wt) { assert Opens(policy, xs, n - 1, wt); }
    }
  }

  // ------------------------------------------------------------ turns

  /** Input `x` settles a turn and hands the next one to the queue. */
  predicate TakesTurn(c: Cluster, x: Input) {
    Step(c, x).1.EmitVerdict? && !c.recheck
  }

  function Turns(c: Cluster, ys: seq<Input>): nat {
    if ys == [] then 0
    else
      var front := ys[..|ys| - 1];
      Turns(c, front) + (if TakesTurn(After(c, front), ys[|ys| - 1]) then 1 else 0)
  }

  /** Some input of `ys` settles a turn and opens one for `wt`. */
  ghost predicate Reached(c: Cluster, ys: seq<Input>, wt: Wt) {
    exists j :: 0 <= j < |ys|
                && Step(After(c, ys[..j]), ys[j]).1.EmitVerdict?
                && Step(After(c, ys[..j]), ys[j]).0.current.Some?
                && Step(After(c, ys[..j]), ys[j]).0.current.value.wt == wt
  }

  lemma {:induction false} DroppedPosition(s: seq<Wt>, wt: Wt, p: nat) returns (q: nat)
    requires p < |s| && s[p] != wt
    ensures q <= p && q < |Dropped(s, wt)| && Dropped(s, wt)[q] == s[p]
  {
    if p == 0 {
      q := 0;
    } else {
      q := DroppedPosition(s[1..], wt, p - 1);
      if s[0] != wt { q := q + 1; }
    }
  }

  lemma PositionStep(c: Cluster, x: Input, wt: Wt, p: nat) returns (q: nat)
    requires Orderly(c) && !x.Respawn? && x != Deactivate(wt)
    requires p < |c.pending| && c.pending[p] == wt
    ensures
      var (d, a) := Step(c, x);
      (a.EmitVerdict? && d.current.Some? && d.current.value.wt == wt)
      || (q < |d.pending| && d.pending[q] == wt && q + (if TakesTurn(c, x) then 1 else 0) <= p)
  {
    q := p;
    if x.Deactivate? {
      q := DroppedPosition(c.pending, x.wt, p);
    } else if TakesTurn(c, x) {
      q := if p > 0 then p - 1 else 0;
    }
  }

  lemma {:induction false} AfterKeepsOrderly(c: Cluster, ys: seq<Input>)
    requires Orderly(c) && forall k :: 0 <= k < |ys| ==> !ys[k].Respawn?
    ensures Orderly(After(c, ys))
    decreases |ys|
  {
    hide Step, Orderly;
    if ys != [] {
      AfterKeepsOrderly(c, ys[..|ys| - 1]);
      StepKeepsOrderly(After(c, ys[..|ys| - 1]), ys[|ys| - 1]);
    }
  }

  lemma ReachedLater(c: Cluster, ys: seq<Input>, wt: Wt)
    requires ys != [] && Reached(c, ys[..|ys| - 1], wt)
    ensures Reached(c, ys, wt)
  {
    hide Step;
    var front := ys[..|ys| - 1];
    var j :| 0 <= j < |front|
             && Step(After(c, front[..j]), front[j]).1.EmitVerdict?
             && Step(After(c, front[..j]), front[j]).0.current.Some?
             && Step(After(c, front[..j]), front[j]).0.current.value.wt == wt;
    assert front[..j] == ys[..j] && front[j] == ys[j];
  }

  /** A queued worktree moves up by one with every turn handed to the queue, until
      a turn is opened for it. */
  lemma {:induction false} MovesUp(c: Cluster, ys: seq<Input>, wt: Wt, p: nat) returns (q: nat)
    requires Orderly(c) && p < |c.pending| && c.pending[p] == wt
    requires forall k :: 0 <= k < |ys| ==> !ys[k].Respawn? && ys[k] != Deactivate(wt)
    ensures Reached(c, ys, wt)
            || (q < |After(c, ys).pending| && After(c, ys).pending[q] == wt && q + Turns(c, ys) <= p)
    decreases |ys|
  {
    hide Step, Orderly, Reached, TakesTurn;
    q := p;
    if ys != [] {
      var front, x := ys[..|ys| - 1], ys[|ys| - 1];
      q := MovesUp(c, front, wt, p);
      if Reached(c, front, wt) {
        ReachedLater(c, ys, wt);
      } else {
        AfterKeepsOrderly(c, front);
        q := PositionStep(After(c, front), x, wt, q);
        ReachedNow(c, ys, wt);
      }
    }
  }

  lemma ReachedNow(c: Cluster, ys: seq<Input>, wt: Wt)
    requires ys != []
    ensures
      var (d, a) := Step(After(c, ys[..|ys| - 1]), ys[|ys| - 1]);
      a.EmitVerdict? && d.current.Some? && d.current.value.wt == wt ==> Reached(c, ys, wt)
  {
    hide Step;
  }

  /** The entry at position `p` of the queue has had its turn by the time the queue
      has been handed `p + 1` of them. */
  lemma ServedInTurn(c: Cluster, ys: seq<Input>, wt: Wt, p: nat)
    requires Orderly(c) && p < |c.pending| && c.pending[p] == wt
    requires forall k :: 0 <= k < |ys| ==> !ys[k].Respawn? && ys[k] != Deactivate(wt)
    requires Turns(c, ys) > p
    ensures Reached(c, ys, wt)
  {
    var q := MovesUp(c, ys, wt, p);
  }

  // ------------------------------------------------------------ deactivation

  lemma OwedAnew(c: Cluster, x: Input, wt: Wt)
    requires !Owed(c, wt) && x != RoutedBatch(wt)
    ensures
      var (d, a) := Step(c, x);
      && !Owed(d, wt)
      && ((a.SwitchOverlay? || a.EmitVerdict?) && d.current.Some? ==> d.current.value.wt != wt)
  {
  }

  lemma {:induction false} NotOwedSince(policy: VerdictPolicy, xs: seq<Input>, k: nat, n: nat, wt: Wt)
    requires k < n <= |xs| && xs[k] == Deactivate(wt)
    requires forall j :: k < j < n ==> xs[j] != RoutedBatch(wt)
    ensures !Owed(At(policy, xs, n), wt)
    decreases n
  {
    hide Step;
    Prefixes(policy, xs, n - 1);
    if n == k + 1 {
      DeactivatedOwesNothing(At(policy, xs, k), wt);
    } else {
      NotOwedSince(policy, xs, k, n - 1, wt);
      OwedAnew(At(policy, xs, n - 1), xs[n - 1], wt);
    }
  }

  /** A deactivated worktree leaves the queue, the others keep their places in it,
      and the turn in flight goes on. */
  lemma DeactivatedOwesNothing(c: Cluster, wt: Wt)
    ensures
      var d := Step(c, Deactivate(wt)).0;
      && !Owed(d, wt) && d.current == c.current
      && d.pending == Others(c.pending, wt)
  {
    OthersAreDropped(c.pending, wt);
  }

  /** The entries of a queue that are not this one, told by their positions. */
  function Others(s: seq<Wt>, wt: Wt): seq<Wt> {
    if s == [] then []
    else Others(s[..|s| - 1], wt) + (if s[|s| - 1] == wt then [] else [s[|s| - 1]])
  }

  lemma {:induction false} OthersAreDropped(s: seq<Wt>, wt: Wt)
    ensures Dropped(s, wt) == Others(s, wt)
  {
    if s != [] {
      OthersAreDropped(s[..|s| - 1], wt);
      DroppedLast(s[..|s| - 1], s[|s| - 1], wt);
      assert s == s[..|s| - 1] + [s[|s| - 1]];
    }
  }

  lemma {:induction false} DroppedLast(s: seq<Wt>, w: Wt, wt: Wt)
    ensures Dropped(s + [w], wt) == Dropped(s, wt) + (if w == wt then [] else [w])
  {
    if s == [] {
      assert [] + [w] == [w];
    } else {
      assert (s + [w])[1..] == s[1..] + [w];
      DroppedLast(s[1..], w, wt);
    }
  }

  /** After a deactivation no turn is opened for the worktree until it is routed
      again. */
  lemma NoTurnOnceDeactivated(policy: VerdictPolicy, xs: seq<Input>, k: nat, j: nat, wt: Wt)
    requires k < j < |xs| && xs[k] == Deactivate(wt)
    requires forall i :: k < i <= j ==> xs[i] != RoutedBatch(wt)
    ensures !Opens(policy, xs, j, wt)
  {
    hide Step, Owed;
    NotOwedSince(policy, xs, k, j, wt);
    Prefixes(policy, xs, j);
    OwedAnew(At(policy, xs, j), xs[j], wt);
  }
}
