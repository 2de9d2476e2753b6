/**
 * The flycheck barrier of one worktree switch: when it settles, and whose
 * publishes its window holds.
 */
module Barrier {
  datatype Publish = Publish(uri: string, authoritative: nat, advisory: nat)

  datatype Lsp =
    | Diagnostics(pd: Publish)
    | FlycheckEnded
    | FlycheckFailed(message: string)
    | IndexingEnded

  type Window = map<string, Publish>

  const FAILURE_URI: string := "file:///__cargoless__/flycheck"

  /** The authoritative error a failed flycheck leaves behind. */
  const Failure: Publish := Publish(FAILURE_URI, 1, 0)

  predicate HasAuthoritativeError(w: Window) {
    exists u :: u in w && w[u].authoritative > 0
  }

  predicate HasAnyError(w: Window) {
    exists u :: u in w && w[u].authoritative + w[u].advisory > 0
  }

  // ------------------------------------------------------------ the state machine

  datatype State = State(stale: nat, window: Window, settled: bool)

  function Armed(stale: nat): State { State(stale, map[], false) }

  function Observed(b: State, ev: Lsp): State {
    if b.settled then b
    else match ev
      case Diagnostics(pd) => b.(window := b.window[pd.uri := pd])
      case FlycheckEnded =>
        if b.stale > 0 then b.(stale := b.stale - 1, window := map[]) else b.(settled := true)
      case FlycheckFailed(_) => b.(window := b.window[FAILURE_URI := Failure], settled := true)
      case IndexingEnded => b
  }

  function ObservedAll(b: State, evs: seq<Lsp>): State {
    if evs == [] then b else Observed(ObservedAll(b, evs[..|evs| - 1]), evs[|evs| - 1])
  }

  class FlycheckBarrier {
    var staleEndsRemaining: nat
    var window: Window
    var settled: bool

    ghost function Model(): State
      reads this
    {
      State(staleEndsRemaining, window, settled)
    }

    constructor ArmSkipping(staleEnds: nat)
      ensures Model() == Armed(staleEnds)
    {
      staleEndsRemaining := staleEnds;
      window := map[];
      settled := false;
    }

    constructor Arm(priorFlycheckInFlight: bool)
      ensures Model() == Armed(if priorFlycheckInFlight then 1 else 0)
    {
      staleEndsRemaining := if priorFlycheckInFlight then 1 else 0;
      window := map[];
      settled := false;
    }

    /** One event; the answer is whether the barrier has settled. */
    method Observe(ev: Lsp) returns (done: bool)
      modifies this
      ensures Model() == Observed(old(Model()), ev) && done == settled
    {
      if settled { return true; }
      match ev
      case Diagnostics(pd) =>
        window := window[pd.uri := pd];
        done := false;
      case FlycheckEnded =>
        if staleEndsRemaining > 0 {
          staleEndsRemaining := staleEndsRemaining - 1;
          window := map[];
          done := false;
        } else {
          settled := true;
          done := true;
        }
      case FlycheckFailed(_) =>
        window := window[FAILURE_URI := Failure];
        settled := true;
        done := true;
      case IndexingEnded =>
        done := false;
    }
  }

  // ------------------------------------------------------------ what a trace should mean

  /** Flycheck ends among the first `n` events. */
  function Ends(evs: seq<Lsp>, n: nat): nat
    requires n <= |evs|
  {
    if n == 0 then 0 else Ends(evs, n - 1) + (if evs[n - 1].FlycheckEnded? then 1 else 0)
  }

  /** Event `k` is a settle condition: a failure, or the end that comes after
      `stale` others. */
  predicate SettlesAt(stale: nat, evs: seq<Lsp>, k: nat)
    requires k < |evs|
  {
    evs[k].FlycheckFailed? || (evs[k].FlycheckEnded? && Ends(evs, k) == stale)
  }

  /** No event before `n` is a settle condition. */
  predicate OpenUntil(stale: nat, evs: seq<Lsp>, n: nat)
    requires n <= |evs|
  {
    forall k :: 0 <= k < n ==> !SettlesAt(stale, evs, k)
  }

  /** The window of the first `n` events opens after the last stale end among
      them, or at the start. */
  predicate WindowOpens(stale: nat, evs: seq<Lsp>, n: nat, start: nat)
    requires n <= |evs|
  {
    && start <= n
    && (start > 0 ==> evs[start - 1].FlycheckEnded?)
    && Ends(evs, start) == Ends(evs, n) <= stale
  }

  /** Event `j` publishes `pd`, and nothing up to `n` publishes for its URI again. */
  predicate LastAt(evs: seq<Lsp>, j: nat, n: nat, pd: Publish)
    requires j < n <= |evs|
  {
    evs[j] == Diagnostics(pd) && forall i :: j < i < n && evs[i].Diagnostics? ==> evs[i].pd.uri != pd.uri
  }

  /** `pd` is the last publish for its URI in events `start` to `n`. */
  predicate LastPublish(evs: seq<Lsp>, start: nat, n: nat, pd: Publish)
    requires start <= n <= |evs|
  {
    exists j :: start <= j < n && LastAt(evs, j, n, pd)
  }

  ghost predicate WindowIs(w: Window, evs: seq<Lsp>, start: nat, n: nat)
    requires start <= n <= |evs|
  {
    && (forall u :: u in w ==> w[u].uri == u && LastPublish(evs, start, n, w[u]))
    && (forall pd :: LastPublish(evs, start, n, pd) ==> pd.uri in w && w[pd.uri] == pd)
  }

  lemma LastPublishStep(evs: seq<Lsp>, start: nat, n: nat, q: Publish)
    requires start <= n < |evs|
    ensures LastPublish(evs, start, n + 1, q) <==>
            if evs[n].Diagnostics? && evs[n].pd.uri == q.uri then evs[n].pd == q else LastPublish(evs, start, n, q)
  {
    var m := n + 1;
    if j :| start <= j < m && LastAt(evs, j, m, q) {
      if j < n { assert LastAt(evs, j, n, q); }
    }
    if j :| start <= j < n && LastAt(evs, j, n, q) {
      if !(evs[n].Diagnostics? && evs[n].pd.uri == q.uri) { assert LastAt(evs, j, n + 1, q); }
    }
    if evs[n] == Diagnostics(q) { assert LastAt(evs, n, n + 1, q); }
  }

  lemma PublishExtends(evs: seq<Lsp>, start: nat, n: nat, w: Window, pd: Publish)
    requires start <= n < |evs| && WindowIs(w, evs, start, n) && evs[n] == Diagnostics(pd)
    ensures WindowIs(w[pd.uri := pd], evs, start, n + 1)
  {
    hide LastPublish;
    forall q ensures LastPublish(evs, start, n + 1, q) <==>
                     if pd.uri == q.uri then pd == q else LastPublish(evs, start, n, q) {
      LastPublishStep(evs, start, n, q);
    }
  }

  lemma QuietExtends(evs: seq<Lsp>, start: nat, n: nat, w: Window)
    requires start <= n < |evs| && WindowIs(w, evs, start, n) && !evs[n].Diagnostics?
    ensures WindowIs(w, evs, start, n + 1)
  {
    hide LastPublish;
    forall q ensures LastPublish(evs, start, n + 1, q) <==> LastPublish(evs, start, n, q) {
      LastPublishStep(evs, start, n, q);
    }
  }

  /** Before any settle condition the barrier waits, with the ends still owed and
      exactly the last publishes since the last stale end in its window. */
  lemma {:induction false} WaitsUntilSettled(stale: nat, evs: seq<Lsp>, n: nat) returns (start: nat)
    requires n <= |evs| && OpenUntil(stale, evs, n)
    ensures var b := ObservedAll(Armed(stale), evs[..n]);
            && !b.settled && Ends(evs, n) <= stale && b.stale == stale - Ends(evs, n)
            && WindowOpens(stale, evs, n, start) && WindowIs(b.window, evs, start, n)
  {
    hide WindowIs;
    if n == 0 {
      start := 0;
      NothingPublished(evs, 0);
      assert evs[..0] == [];
    } else {
      start := WaitsUntilSettled(stale, evs, n - 1);
      assert evs[..n][..n - 1] == evs[..n - 1];
      assert !SettlesAt(stale, evs, n - 1);
      var b := ObservedAll(Armed(stale), evs[..n - 1]);
      match evs[n - 1]
      case Diagnostics(pd) => PublishExtends(evs, start, n - 1, b.window, pd);
      case IndexingEnded => QuietExtends(evs, start, n - 1, b.window);
      case FlycheckEnded =>
        start := n;
        NothingPublished(evs, n);
    }
  }

  lemma NothingPublished(evs: seq<Lsp>, n: nat)
    requires n <= |evs|
    ensures WindowIs(map[], evs, n, n)
  {
  }

  lemma {:induction false} SettledStays(b: State, evs: seq<Lsp>)
    requires b.settled
    ensures ObservedAll(b, evs) == b
    decreases |evs|
  {
    if evs != [] { SettledStays(b, evs[..|evs| - 1]); }
  }

  lemma {:induction false} ObservedInTurn(b: State, evs: seq<Lsp>, more: seq<Lsp>)
    ensures ObservedAll(b, evs + more) == ObservedAll(ObservedAll(b, evs), more)
    decreases |more|
  {
    if more == [] {
      assert evs + more == evs;
    } else {
      assert (evs + more)[..|evs + more| - 1] == evs + more[..|more| - 1];
      ObservedInTurn(b, evs, more[..|more| - 1]);
    }
  }

  /** The first settle condition, if there is one. */
  ghost predicate FirstSettle(stale: nat, evs: seq<Lsp>, k: nat) {
    k < |evs| && SettlesAt(stale, evs, k) && OpenUntil(stale, evs, k)
  }

  lemma {:induction false} SettlesOrNot(stale: nat, evs: seq<Lsp>, n: nat) returns (k: nat)
    requires n <= |evs|
    ensures k <= n && OpenUntil(stale, evs, k) && (k < n ==> SettlesAt(stale, evs, k))
  {
    if n == 0 {
      k := 0;
    } else {
      k := SettlesOrNot(stale, evs, n - 1);
      if k == n - 1 && !SettlesAt(stale, evs, n - 1) { k := n; }
    }
  }

  /** Nothing after the event that settles the barrier changes it. */
  lemma SettledFrom(stale: nat, evs: seq<Lsp>, k: nat, before: State)
    requires k < |evs| && before == ObservedAll(Armed(stale), evs[..k]) && Observed(before, evs[k]).settled
    ensures ObservedAll(Armed(stale), evs) == Observed(before, evs[k])
  {
    hide Observed;
    var at := ObservedAll(Armed(stale), evs[..k + 1]);
    assert evs[..k + 1][..k] == evs[..k];
    assert evs == evs[..k + 1] + evs[k + 1..];
    ObservedInTurn(Armed(stale), evs[..k + 1], evs[k + 1..]);
    SettledStays(at, evs[k + 1..]);
  }

  /** The barrier settles exactly at the first settle condition, and what it holds
      from then on is the last publish per URI since the last stale end, plus the
      failure if that is what settled it. */
  lemma SettlesExactly(stale: nat, evs: seq<Lsp>, k: nat) returns (start: nat)
    requires FirstSettle(stale, evs, k)
    ensures WindowOpens(stale, evs, k, start)
    ensures var b := ObservedAll(Armed(stale), evs);
            && b.settled
            && if evs[k].FlycheckFailed?
               then FAILURE_URI in b.window && b.window[FAILURE_URI] == Failure
                    && exists w :: b.window == w[FAILURE_URI := Failure] && WindowIs(w, evs, start, k)
               else WindowIs(b.window, evs, start, k)
  {
    hide WindowIs;
    start := WaitsUntilSettled(stale, evs, k);
    var before := ObservedAll(Armed(stale), evs[..k]);
    SettledFrom(stale, evs, k, before);
    assert evs[k].FlycheckFailed? ==> Observed(before, evs[k]).window == before.window[FAILURE_URI := Failure];
  }

  /** Settled if and only if some event was a settle condition. */
  lemma SettledIff(stale: nat, evs: seq<Lsp>)
    ensures ObservedAll(Armed(stale), evs).settled <==> exists k :: FirstSettle(stale, evs, k)
  {
    var k := SettlesOrNot(stale, evs, |evs|);
    if k < |evs| {
      assert FirstSettle(stale, evs, k);
      var start := SettlesExactly(stale, evs, k);
    } else {
      var start := WaitsUntilSettled(stale, evs, |evs|);
      assert evs[..|evs|] == evs;
      forall j ensures !FirstSettle(stale, evs, j) {
      }
    }
  }

  /** The verdict bits, told from the trace: after a failure both are set; after an
      end each is set exactly when a last publish of the window carries such an
      error. */
  lemma VerdictBits(stale: nat, evs: seq<Lsp>, k: nat) returns (start: nat)
    requires FirstSettle(stale, evs, k)
    ensures WindowOpens(stale, evs, k, start)
    ensures var w := ObservedAll(Armed(stale), evs).window;
            if evs[k].FlycheckFailed? then HasAuthoritativeError(w) && HasAnyError(w)
            else
              && (HasAuthoritativeError(w) <==> exists pd :: LastPublish(evs, start, k, pd) && pd.authoritative > 0)
              && (HasAnyError(w) <==> exists pd :: LastPublish(evs, start, k, pd) && pd.authoritative + pd.advisory > 0)
  {
    start := SettlesExactly(stale, evs, k);
    var w := ObservedAll(Armed(stale), evs).window;
    if evs[k].FlycheckFailed? {
      assert w[FAILURE_URI].authoritative > 0;
    } else {
      ReduceWindow(w, evs, start, k);
    }
  }

  lemma ReduceWindow(w: Window, evs: seq<Lsp>, start: nat, n: nat)
    requires start <= n <= |evs| && WindowIs(w, evs, start, n)
    ensures HasAuthoritativeError(w) <==> exists pd :: LastPublish(evs, start, n, pd) && pd.authoritative > 0
    ensures HasAnyError(w) <==> exists pd :: LastPublish(evs, start, n, pd) && pd.authoritative + pd.advisory > 0
  {
    forall u | u in w ensures LastPublish(evs, start, n, w[u]) {
    }
  }

  /** Ends still owed when the barrier settles are owed for good. */
  lemma OwedAtSettle(stale: nat, evs: seq<Lsp>, k: nat)
    requires FirstSettle(stale, evs, k)
    ensures Ends(evs, k) <= stale && ObservedAll(Armed(stale), evs).stale == stale - Ends(evs, k)
    ensures Ends(evs, k) < stale ==> evs[k].FlycheckFailed?
  {
    hide WindowIs, WindowOpens, ObservedAll;
    var start := WaitsUntilSettled(stale, evs, k);
    SettledFrom(stale, evs, k, ObservedAll(Armed(stale), evs[..k]));
  }

  /** Event `j` publishes for a URI of a worktree while a stale end is owed. */
  predicate StalePublish(stale: nat, evs: seq<Lsp>, j: nat)
    requires j <= |evs|
  {
    j < |evs| && evs[j].Diagnostics? && evs[j].pd.uri != FAILURE_URI && Ends(evs, j) < stale
  }

  /** The window holds what event `j` published. */
  predicate Keeps(w: Window, evs: seq<Lsp>, j: nat, k: nat)
    requires j < k <= |evs|
  {
    evs[j].Diagnostics? && LastAt(evs, j, k, evs[j].pd) && evs[j].pd.uri in w && w[evs[j].pd.uri] == evs[j].pd
  }

  lemma {:induction false} EndsGrow(evs: seq<Lsp>, j: nat, k: nat)
    requires j <= k <= |evs|
    ensures Ends(evs, j) <= Ends(evs, k)
    decreases k
  {
    if j < k { EndsGrow(evs, j, k - 1); }
  }

  /** The publishes up to `k` that stand: the last ones, since the last stale end. */
  lemma KeptIff(stale: nat, evs: seq<Lsp>, k: nat, j: nat)
    requires FirstSettle(stale, evs, k) && j < k && evs[j].Diagnostics? && evs[j].pd.uri != FAILURE_URI
    ensures Keeps(ObservedAll(Armed(stale), evs).window, evs, j, k) <==>
            LastAt(evs, j, k, evs[j].pd) && Ends(evs, j) == Ends(evs, k)
  {
    hide ObservedAll, SettlesAt, OpenUntil;
    var start := SettlesExactly(stale, evs, k);
    var w, pd := ObservedAll(Armed(stale), evs).window, evs[j].pd;
    EndsGrow(evs, j, k);
    if start <= j {
      EndsGrow(evs, start, j);
      if LastAt(evs, j, k, pd) { assert LastPublish(evs, start, k, pd); }
    } else {
      EndsGrow(evs, j, start - 1);
      if Keeps(w, evs, j, k) { assert false; }
    }
  }

  /** The settled window holds a publish of a flycheck that should have been skipped
      exactly when it was settled with stale ends owed, which only a failure does,
      and something was published since the last end. */
  lemma HoldsStaleIff(stale: nat, evs: seq<Lsp>, k: nat)
    requires FirstSettle(stale, evs, k)
    ensures
      var w := ObservedAll(Armed(stale), evs).window;
      (exists j :: 0 <= j < k && StalePublish(stale, evs, j) && Keeps(w, evs, j, k)) <==>
        && Ends(evs, k) < stale
        && exists j :: 0 <= j < k && StalePublish(stale, evs, j) && Ends(evs, j) == Ends(evs, k)
  {
    hide ObservedAll, LastAt;
    var w := ObservedAll(Armed(stale), evs).window;
    if j :| 0 <= j < k && StalePublish(stale, evs, j) && Keeps(w, evs, j, k) {
      KeptIff(stale, evs, k, j);
    }
    if j :| 0 <= j < k && StalePublish(stale, evs, j) && Ends(evs, j) == Ends(evs, k) {
      var i := LastOfUri(evs, j, k);
      EndsGrow(evs, j, i);
      EndsGrow(evs, i, k);
      KeptIff(stale, evs, k, i);
    }
  }

  /** The last publish for a URI that is published at all. */
  lemma {:induction false} LastOfUri(evs: seq<Lsp>, j: nat, k: nat) returns (i: nat)
    requires j < k <= |evs| && evs[j].Diagnostics?
    ensures j <= i < k && evs[i].Diagnostics? && evs[i].pd.uri == evs[j].pd.uri && LastAt(evs, i, k, evs[i].pd)
    decreases k - j
  {
    i := j;
    if m :| j < m < k && evs[m].Diagnostics? && evs[m].pd.uri == evs[j].pd.uri {
      i := LastOfUri(evs, m, k);
    }
  }

  /** A failure settles the barrier while stale ends are still owed, and keeps
      what was published before them. */
  lemma FailureSkipsStaleEnds(stale: nat, pd: Publish)
    requires stale > 0 && pd.uri != FAILURE_URI
    ensures
      var b := ObservedAll(Armed(stale), [Diagnostics(pd), FlycheckFailed("")]);
      b.settled && b.stale == stale && b.window == map[pd.uri := pd, FAILURE_URI := Failure]
  {
    var evs := [Diagnostics(pd), FlycheckFailed("")];
    assert evs[..1] == [Diagnostics(pd)];
    assert [Diagnostics(pd)][..0] == [];
    assert ObservedAll(Armed(stale), [Diagnostics(pd)]) == Observed(Armed(stale), Diagnostics(pd));
  }
}
