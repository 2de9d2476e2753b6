/**
 * Whole traces of one cluster's sequencer: whose diagnostics decide whose
 * verdict, and which requests are never lost.
 */
module ClusterTraces {
  import opened Wrappers
  import opened Barrier
  import opened ClusterDriver

  // ------------------------------------------------------------ transactions in a trace

  ghost function At(policy: VerdictPolicy, xs: seq<Input>, k: nat): Cluster
    requires k <= |xs|
  {
    After(New(policy), xs[..k])
  }

  /** The answer to input `k`. */
  ghost function Answer(policy: VerdictPolicy, xs: seq<Input>, k: nat): Action
    requires k < |xs|
  {
    Step(At(policy, xs, k), xs[k]).1
  }

  /** Input `k` opens a transaction for `wt`: by switching to it while the analyzer
      was idle, or as the successor of the verdict it causes. */
  ghost predicate Opens(policy: VerdictPolicy, xs: seq<Input>, k: nat, wt: Wt)
    requires k < |xs|
  {
    && (Answer(policy, xs, k).SwitchOverlay? || Answer(policy, xs, k).EmitVerdict?)
    && At(policy, xs, k + 1).current.Some? && At(policy, xs, k + 1).current.value.wt == wt
  }

  /** Input `k` ends whatever transaction is open. */
  ghost predicate Closes(policy: VerdictPolicy, xs: seq<Input>, k: nat)
    requires k < |xs|
  {
    Answer(policy, xs, k).EmitVerdict? || xs[k].Respawn?
  }

  /** The analyzer events among inputs `lo` to `hi`. */
  function Events(xs: seq<Input>, lo: nat, hi: nat): seq<Lsp>
    requires lo <= hi <= |xs|
    decreases hi
  {
    if lo == hi then []
    else Events(xs, lo, hi - 1) + (if xs[hi - 1].LspEvent? then [xs[hi - 1].ev] else [])
  }

  /** Input `o` opened a transaction for `wt` that nothing has closed before `n`. */
  ghost predicate OpenSince(policy: VerdictPolicy, xs: seq<Input>, o: nat, n: nat, wt: Wt)
    requires n <= |xs|
  {
    o < n && Opens(policy, xs, o, wt) && forall j :: o < j < n ==> !Closes(policy, xs, j)
  }

  function Activity(evs: seq<Lsp>): bool {
    exists k :: 0 <= k < |evs| && (evs[k].Diagnostics? || evs[k].FlycheckFailed?)
  }

  function Reason(evs: seq<Lsp>): Option<string> {
    if evs == [] then None
    else if PullFailure(evs[|evs| - 1]).Some? then PullFailure(evs[|evs| - 1])
    else Reason(evs[..|evs| - 1])
  }

  /** A transaction after the analyzer events it has heard. */
  function TxnAfter(wt: Wt, evs: seq<Lsp>): Txn {
    Txn(wt, ObservedAll(Armed(0), evs), Activity(evs), Reason(evs))
  }

  lemma TxnStep(wt: Wt, evs: seq<Lsp>, ev: Lsp)
    ensures TxnAfter(wt, evs + [ev]) == TxnObserved(TxnAfter(wt, evs), ev)
  {
    var more := evs + [ev];
    assert more[..|more| - 1] == evs;
    if Activity(evs) {
      var k :| 0 <= k < |evs| && (evs[k].Diagnostics? || evs[k].FlycheckFailed?);
      assert more[k] == evs[k];
    }
    if ev.Diagnostics? || ev.FlycheckFailed? { assert more[|evs|] == ev; }
  }

  lemma Prefixes(policy: VerdictPolicy, xs: seq<Input>, k: nat)
    requires k < |xs|
    ensures At(policy, xs, k + 1) == Step(At(policy, xs, k), xs[k]).0
  {
    assert xs[..k + 1][..k] == xs[..k];
  }

  /** The open transaction has heard exactly the events since it was opened. */
  ghost predicate HeardSince(policy: VerdictPolicy, xs: seq<Input>, n: nat, o: nat)
    requires n <= |xs| && o < n && At(policy, xs, n).current.Some?
  {
    var t := At(policy, xs, n).current.value;
    OpenSince(policy, xs, o, n, t.wt) && t == TxnAfter(t.wt, Events(xs, o + 1, n)) && !t.barrier.settled
  }

  lemma {:induction false} OpenTransaction(policy: VerdictPolicy, xs: seq<Input>, n: nat) returns (o: nat)
    requires n <= |xs| && At(policy, xs, n).current.Some?
    ensures o < n && HeardSince(policy, xs, n, o)
  {
    hide After, Step, TxnObserved, TxnAfter;
    if n == 0 {
      NothingYet(policy, xs);
      assert false;
    }
    Prefixes(policy, xs, n - 1);
    var c, d := At(policy, xs, n - 1), At(policy, xs, n);
    var x := xs[n - 1];
    StepCases(c, x);
    if Step(c, x).1.SwitchOverlay? || Step(c, x).1.EmitVerdict? {
      o := n - 1;
      FreshTxn(d.current.value.wt);
    } else {
      o := OpenTransaction(policy, xs, n - 1);
      var t := c.current.value;
      if x.LspEvent? {
        TxnStep(t.wt, Events(xs, o + 1, n - 1), x.ev);
      }
      EventsStep(xs, o + 1, n);
      assert OpenSince(policy, xs, o, n, t.wt);
    }
  }

  lemma EventsStep(xs: seq<Input>, lo: nat, hi: nat)
    requires lo < hi <= |xs|
    ensures Events(xs, lo, hi) ==
            if xs[hi - 1].LspEvent? then Events(xs, lo, hi - 1) + [xs[hi - 1].ev] else Events(xs, lo, hi - 1)
  {
  }

  lemma NothingYet(policy: VerdictPolicy, xs: seq<Input>)
    ensures At(policy, xs, 0) == New(policy)
  {
    assert xs[..0] == [];
  }

  lemma FreshTxn(wt: Wt)
    ensures Fresh(wt) == TxnAfter(wt, [])
  {
  }

  /** What one input does to the open transaction. */
  lemma StepCases(c: Cluster, x: Input)
    ensures
      var (d, a) := Step(c, x);
      && d.policy == c.policy
      && (x.Respawn? ==> d.current.None?)
      && (a.SwitchOverlay? ==> x.RoutedBatch? && c.current.None? && d.current == Some(Fresh(x.wt)))
      && (a.EmitVerdict? ==>
            && x.LspEvent? && c.current.Some?
            && var t := TxnObserved(c.current.value, x.ev);
               t.barrier.settled && a == Verdict(c.policy, t)
               && (d.current.Some? ==> d.current == Some(Fresh(d.current.value.wt))))
      && (a.Idle? && !x.Respawn? ==>
            if x.LspEvent? && c.current.Some?
            then d.current == Some(TxnObserved(c.current.value, x.ev)) && !d.current.value.barrier.settled
                 && d.current.value.wt == c.current.value.wt
            else d.current == c.current)
  {
  }

  lemma {:induction false} PolicyKept(policy: VerdictPolicy, xs: seq<Input>, n: nat)
    requires n <= |xs|
    ensures At(policy, xs, n).policy == policy
  {
    hide After, Step;
    if n == 0 {
      NothingYet(policy, xs);
    } else {
      PolicyKept(policy, xs, n - 1);
      Prefixes(policy, xs, n - 1);
      StepCases(At(policy, xs, n - 1), xs[n - 1]);
    }
  }

  // ------------------------------------------------------------ verdict attribution

  /** Every verdict closes the transaction opened last for its worktree, with no
      verdict and no respawn in between; and it is decided by the analyzer events
      since that opening alone: the barrier settles at the last of them, the error
      bit is read from the last publish of each URI or from a failure, and the
      activity bit is set exactly when the analyzer published or failed. */
  lemma VerdictAttribution(policy: VerdictPolicy, xs: seq<Input>, k: nat) returns (o: nat)
    requires k < |xs| && Answer(policy, xs, k).EmitVerdict?
    ensures OpenSince(policy, xs, o, k, Answer(policy, xs, k).wt)
    ensures
      var evs := Events(xs, o + 1, k + 1);
      var v := Answer(policy, xs, k);
      && xs[k].LspEvent? && FirstSettle(0, evs, |evs| - 1)
      && (v.activity <==> exists i :: 0 <= i < |evs| && (evs[i].Diagnostics? || evs[i].FlycheckFailed?))
      && v.reason == PullFailure(evs[|evs| - 1])
      && (v.error <==>
            evs[|evs| - 1].FlycheckFailed?
            || exists pd :: LastPublish(evs, 0, |evs| - 1, pd)
                            && pd.authoritative + (if policy.RaNative? then pd.advisory else 0) > 0)
  {
    hide After, Step, TxnObserved, ErrorBit, Reason, ObservedAll;
    var c := At(policy, xs, k);
    StepCases(c, xs[k]);
    o := OpenTransaction(policy, xs, k);
    var t := c.current.value;
    TxnStep(t.wt, Events(xs, o + 1, k), xs[k].ev);
    EventsStep(xs, o + 1, k + 1);
    PolicyKept(policy, xs, k);
    SettledVerdict(policy, t.wt, Events(xs, o + 1, k), xs[k].ev);
  }

  lemma {:induction false} NoFailureNoReason(evs: seq<Lsp>)
    requires forall i :: 0 <= i < |evs| ==> !evs[i].FlycheckFailed?
    ensures Reason(evs).None?
    decreases |evs|
  {
    if evs != [] { NoFailureNoReason(evs[..|evs| - 1]); }
  }

  lemma NoEndsBefore(evs: seq<Lsp>, n: nat)
    requires n <= |evs| && OpenUntil(0, evs, n)
    ensures Ends(evs, n) == 0
  {
    if n > 0 {
      assert !SettlesAt(0, evs, n - 1);
      NoEndsBefore(evs, n - 1);
    }
  }

  lemma EarlierSettle(before: seq<Lsp>, ev: Lsp, k: nat)
    requires k < |before| && FirstSettle(0, before + [ev], k)
    ensures FirstSettle(0, before, k)
  {
    var evs := before + [ev];
    EndsAppend(before, ev, k);
    forall j | 0 <= j < k ensures !SettlesAt(0, before, j) {
      EndsAppend(before, ev, j);
      assert evs[j] == before[j] && !SettlesAt(0, evs, j);
    }
    assert evs[k] == before[k];
  }

  lemma SettledVerdict(policy: VerdictPolicy, wt: Wt, before: seq<Lsp>, ev: Lsp)
    requires !ObservedAll(Armed(0), before).settled
    requires ObservedAll(Armed(0), before + [ev]).settled
    ensures
      var evs := before + [ev];
      var n := |before|;
      var t := TxnAfter(wt, evs);
      && FirstSettle(0, evs, n)
      && t.reason == PullFailure(ev)
      && (ErrorBit(policy, t.barrier.window) <==>
            ev.FlycheckFailed?
            || exists pd :: LastPublish(evs, 0, n, pd)
                            && pd.authoritative + (if policy.RaNative? then pd.advisory else 0) > 0)
  {
    hide Observed, ObservedAll, LastPublish, HasAuthoritativeError, HasAnyError;
    var evs, n := before + [ev], |before|;
    SettledIff(0, evs);
    var k: nat :| FirstSettle(0, evs, k);
    if k < n {
      EarlierSettle(before, ev, k);
      SettledIff(0, before);
      assert false;
    }
    assert k == n;
    var start := VerdictBits(0, evs, n);
    NoEndsBefore(evs, n);
    WindowFromStart(evs, n, start);
    assert evs[..n] == before;
    assert forall i :: 0 <= i < n ==> evs[i] == before[i] && !SettlesAt(0, evs, i);
    NoFailureNoReason(before);
    if exists pd :: LastPublish(evs, 0, n, pd) && pd.authoritative > 0 {
      var pd :| LastPublish(evs, 0, n, pd) && pd.authoritative > 0;
      assert pd.authoritative + pd.advisory > 0;
    }
  }

  lemma {:induction false} EndsAppend(before: seq<Lsp>, ev: Lsp, k: nat)
    requires k <= |before|
    ensures Ends(before + [ev], k) == Ends(before, k)
  {
    if k > 0 { EndsAppend(before, ev, k - 1); }
  }

  lemma WindowFromStart(evs: seq<Lsp>, n: nat, start: nat)
    requires n <= |evs| && WindowOpens(0, evs, n, start)
    ensures start == 0
  {
  }

  lemma IdleStays(c: Cluster, x: Input)
    requires c.current.None? && !x.RoutedBatch?
    ensures Step(c, x).0.current.None? && Step(c, x).1 == Idle
  {
  }

  /** After a respawn no verdict leaves until a worktree is routed again. */
  lemma {:induction false} SilentAfterRespawn(c: Cluster, xs: seq<Input>)
    requires forall k :: 0 <= k < |xs| ==> !xs[k].RoutedBatch?
    ensures After(Respawned(c), xs).current.None?
    ensures forall k :: 0 <= k < |xs| ==> Step(After(Respawned(c), xs[..k]), xs[k]).1 == Idle
    decreases |xs|
  {
    hide Step;
    if xs != [] {
      var front, x := xs[..|xs| - 1], xs[|xs| - 1];
      SilentAfterRespawn(c, front);
      IdleStays(After(Respawned(c), front), x);
      forall k | 0 <= k < |xs| ensures Step(After(Respawned(c), xs[..k]), xs[k]).1 == Idle {
        if k < |front| {
          assert front[..k] == xs[..k] && front[k] == xs[k];
        } else {
          assert xs[..k] == front;
        }
      }
    }
  }

  // ------------------------------------------------------------ whose turn follows a verdict

  /** An idle cluster owes no recheck. */
  lemma {:induction false} IdleOwesNothing(policy: VerdictPolicy, xs: seq<Input>, n: nat)
    requires n <= |xs|
    ensures At(policy, xs, n).current.None? ==> !At(policy, xs, n).recheck
  {
    hide After, TxnObserved;
    if n == 0 {
      NothingYet(policy, xs);
    } else {
      IdleOwesNothing(policy, xs, n - 1);
      Prefixes(policy, xs, n - 1);
    }
  }

  /** Among inputs `lo` to `hi`, a batch for `wt` with no deactivation of it since. */
  predicate AskedAgain(xs: seq<Input>, lo: nat, hi: nat, wt: Wt)
    requires lo <= hi <= |xs|
  {
    exists j :: lo <= j < hi && xs[j] == RoutedBatch(wt) && forall i :: j < i < hi ==> xs[i] != Deactivate(wt)
  }

  lemma AskedAgainStep(xs: seq<Input>, lo: nat, hi: nat, wt: Wt)
    requires lo <= hi < |xs|
    ensures AskedAgain(xs, lo, hi + 1, wt) <==>
            xs[hi] == RoutedBatch(wt) || (AskedAgain(xs, lo, hi, wt) && xs[hi] != Deactivate(wt))
  {
    if AskedAgain(xs, lo, hi, wt) && xs[hi] != Deactivate(wt) {
      var j :| lo <= j < hi && xs[j] == RoutedBatch(wt) && forall i :: j < i < hi ==> xs[i] != Deactivate(wt);
      assert forall i :: j < i < hi + 1 ==> xs[i] != Deactivate(wt);
    }
  }

  /** What one input does to the recheck of an open turn it does not end. */
  lemma RecheckStep(c: Cluster, x: Input)
    requires c.current.Some? && !Step(c, x).1.EmitVerdict? && !x.Respawn?
    ensures
      var wt := c.current.value.wt;
      var d := Step(c, x).0;
      && d.current.Some? && d.current.value.wt == wt
      && (d.recheck <==> x == RoutedBatch(wt) || (c.recheck && x != Deactivate(wt)))
  {
  }

  /** What an input that opens a turn leaves behind. */
  lemma OpensUnasked(c: Cluster, x: Input)
    requires c.current.None? ==> !c.recheck
    requires Step(c, x).1.SwitchOverlay? || Step(c, x).1.EmitVerdict?
    ensures !Step(c, x).0.recheck
  {
  }

  /** A recheck is owed exactly when the worktree in flight was routed again since
      its turn opened, and not deactivated after that. */
  lemma {:induction false} RecheckIff(policy: VerdictPolicy, xs: seq<Input>, o: nat, n: nat, wt: Wt)
    requires n <= |xs| && OpenSince(policy, xs, o, n, wt)
    ensures At(policy, xs, n).current.Some? && At(policy, xs, n).current.value.wt == wt
    ensures At(policy, xs, n).recheck <==> AskedAgain(xs, o + 1, n, wt)
    decreases n
  {
    hide After, Step;
    Prefixes(policy, xs, n - 1);
    if n == o + 1 {
      IdleOwesNothing(policy, xs, o);
      OpensUnasked(At(policy, xs, o), xs[o]);
    } else {
      assert !Closes(policy, xs, n - 1);
      RecheckIff(policy, xs, o, n - 1, wt);
      RecheckStep(At(policy, xs, n - 1), xs[n - 1]);
      AskedAgainStep(xs, o + 1, n - 1, wt);
    }
  }

  /** The switch taken right after a verdict: back to the same worktree exactly
      when it was routed again during its turn and not deactivated since, else to
      the head of the queue, else to none; and that turn is open from then on. */
  lemma FollowupAfterVerdict(policy: VerdictPolicy, xs: seq<Input>, k: nat) returns (o: nat)
    requires k < |xs| && Answer(policy, xs, k).EmitVerdict?
    ensures OpenSince(policy, xs, o, k, Answer(policy, xs, k).wt)
    ensures
      var wt, pending := Answer(policy, xs, k).wt, At(policy, xs, k).pending;
      var followup := Followup(At(policy, xs, k + 1));
      && followup == (if AskedAgain(xs, o + 1, k, wt) then Some(SwitchOverlay(wt))
                      else if pending != [] then Some(SwitchOverlay(pending[0])) else None)
      && (followup.Some? ==> OpenSince(policy, xs, k, k + 1, followup.value.wt))
  {
    hide After, TxnObserved;
    o := VerdictAttribution(policy, xs, k);
    RecheckIff(policy, xs, o, k, Answer(policy, xs, k).wt);
    Prefixes(policy, xs, k);
  }
}
