/**
 * One cluster's transaction sequencer: worktrees take turns on the shared
 * analyzer, and a verdict leaves only when the barrier of the turn has settled.
 */
module ClusterDriver {
  import opened Wrappers
  import opened Barrier

  type Wt = string

  datatype VerdictPolicy = Authoritative | RaNative

  datatype Txn = Txn(wt: Wt, barrier: State, activity: bool, reason: Option<string>)

  datatype Action =
    | SwitchOverlay(wt: Wt)
    | EmitVerdict(wt: Wt, error: bool, activity: bool, reason: Option<string>)
    | Idle

  datatype Cluster = Cluster(policy: VerdictPolicy, current: Option<Txn>, pending: seq<Wt>, recheck: bool)

  const PULL_PREFIX: string := "ra_diagnostic_pull:"
  const PULL_REASON: string := "ra_diagnostic_pull_failed: "

  function Fresh(wt: Wt): Txn { Txn(wt, Armed(0), false, None) }

  /** A diagnostic pull that failed says so in its message. */
  function PullFailure(ev: Lsp): Option<string> {
    if ev.FlycheckFailed? && PULL_PREFIX <= ev.message then Some(PULL_REASON + ev.message[|PULL_PREFIX|..]) else None
  }

  /** The reason is the text that follows the prefix, under the words a reader sees;
      a message without the prefix gives none. */
  lemma PullFailureIff(message: string, rest: string)
    ensures PullFailure(FlycheckFailed(message)) == Some("ra_diagnostic_pull_failed: " + rest)
            <==> message == "ra_diagnostic_pull:" + rest
    ensures PullFailure(FlycheckFailed(message)).None? <==> !("ra_diagnostic_pull:" <= message)
  {
    var text := PULL_PREFIX + rest;
    assert text[|PULL_PREFIX|..] == rest;
    if PULL_PREFIX <= message {
      var tail := message[|PULL_PREFIX|..];
      assert message == PULL_PREFIX + tail;
      assert (PULL_REASON + tail)[|PULL_REASON|..] == tail && (PULL_REASON + rest)[|PULL_REASON|..] == rest;
    }
  }

  function TxnObserved(t: Txn, ev: Lsp): Txn {
    Txn(t.wt, Observed(t.barrier, ev),
        t.activity || ev.Diagnostics? || ev.FlycheckFailed?,
        if PullFailure(ev).Some? then PullFailure(ev) else t.reason)
  }

  predicate ErrorBit(policy: VerdictPolicy, w: Window) {
    match policy
    case Authoritative => HasAuthoritativeError(w)
    case RaNative => HasAnyError(w)
  }

  function Verdict(policy: VerdictPolicy, t: Txn): Action {
    EmitVerdict(t.wt, ErrorBit(policy, t.barrier.window), t.activity, t.reason)
  }

  // ------------------------------------------------------------ one event

  function Routed(c: Cluster, wt: Wt): (Cluster, Action) {
    if c.current.None? then (c.(current := Some(Fresh(wt))), SwitchOverlay(wt))
    else if c.current.value.wt == wt then (c.(recheck := true), Idle)
    else if wt in c.pending then (c, Idle)
    else (c.(pending := c.pending + [wt]), Idle)
  }

  /** What follows a settle: the worktree itself again, or the head of the queue. */
  function Next(c: Cluster, finished: Wt): Cluster {
    if c.recheck then c.(recheck := false, current := Some(Fresh(finished)))
    else if c.pending != [] then c.(pending := c.pending[1..], current := Some(Fresh(c.pending[0])))
    else c.(current := None)
  }

  function Heard(c: Cluster, ev: Lsp): (Cluster, Action) {
    if c.current.None? then (c, Idle)
    else
      var t := TxnObserved(c.current.value, ev);
      if t.barrier.settled then (Next(c, t.wt), Verdict(c.policy, t))
      else (c.(current := Some(t)), Idle)
  }

  function Dropped(s: seq<Wt>, wt: Wt): (r: seq<Wt>)
    ensures forall w :: w in r <==> w in s && w != wt
    ensures |r| <= |s|
  {
    if s == [] then [] else (if s[0] == wt then [] else [s[0]]) + Dropped(s[1..], wt)
  }

  function Deactivated(c: Cluster, wt: Wt): Cluster {
    c.(pending := Dropped(c.pending, wt),
       recheck := c.recheck && !(c.current.Some? && c.current.value.wt == wt))
  }

  function Respawned(c: Cluster): Cluster {
    c.(current := None, recheck := false)
  }

  /** The switch that the adapter carries out after a verdict. */
  function Followup(c: Cluster): Option<Action> {
    match c.current
    case None => None
    case Some(t) => Some(SwitchOverlay(t.wt))
  }

  datatype Input = RoutedBatch(wt: Wt) | LspEvent(ev: Lsp) | Deactivate(wt: Wt) | Respawn

  function Step(c: Cluster, x: Input): (Cluster, Action) {
    match x
    case RoutedBatch(wt) => Routed(c, wt)
    case LspEvent(ev) => Heard(c, ev)
    case Deactivate(wt) => (Deactivated(c, wt), Idle)
    case Respawn => (Respawned(c), Idle)
  }

  function New(policy: VerdictPolicy): Cluster { Cluster(policy, None, [], false) }

  function After(c: Cluster, xs: seq<Input>): Cluster {
    if xs == [] then c else Step(After(c, xs[..|xs| - 1]), xs[|xs| - 1]).0
  }

  // ------------------------------------------------------------ the sequencer as it runs

  datatype ActiveTxn = ActiveTxn(wt: Wt, barrier: FlycheckBarrier, activity: bool, reason: Option<string>)

  class Sequencer {
    const verdictPolicy: VerdictPolicy
    var current: Option<ActiveTxn>
    var pending: seq<Wt>
    var recheckCurrent: bool

    ghost function Footprint(): set<object>
      reads this
    {
      if current.Some? then {this, current.value.barrier} else {this}
    }

    ghost function Model(): Cluster
      reads Footprint()
    {
      Cluster(verdictPolicy,
              match current
              case None => None
              case Some(a) => Some(Txn(a.wt, a.barrier.Model(), a.activity, a.reason)),
              pending, recheckCurrent)
    }

    constructor WithVerdictPolicy(policy: VerdictPolicy)
      ensures Model() == New(policy)
    {
      verdictPolicy := policy;
      current := None;
      pending := [];
      recheckCurrent := false;
    }

    method Open(wt: Wt)
      modifies this`current
      ensures current.Some? && fresh(current.value.barrier)
      ensures current.value.wt == wt && current.value.barrier.Model() == Armed(0)
      ensures !current.value.activity && current.value.reason.None?
    {
      var barrier := new FlycheckBarrier.Arm(false);
      current := Some(ActiveTxn(wt, barrier, false, None));
    }

    method OnRoutedBatch(wt: Wt) returns (action: Action)
      modifies this
      ensures (Model(), action) == Routed(old(Model()), wt)
    {
      if current.None? {
        Open(wt);
        return SwitchOverlay(wt);
      }
      if current.value.wt == wt {
        recheckCurrent := true;
      } else if wt !in pending {
        pending := pending + [wt];
      }
      action := Idle;
    }

    method OnLsp(ev: Lsp) returns (action: Action)
      modifies Footprint()
      ensures (Model(), action) == Heard(old(Model()), ev)
    {
      if current.None? { return Idle; }
      var active := current.value;
      if ev.Diagnostics? || ev.FlycheckFailed? {
        active := active.(activity := true);
      }
      if ev.FlycheckFailed? && PULL_PREFIX <= ev.message {
        active := active.(reason := Some(PULL_REASON + ev.message[|PULL_PREFIX|..]));
      }
      current := Some(active);
      var done := active.barrier.Observe(ev);
      if !done { return Idle; }
      current := None;
      var error := match verdictPolicy
        case Authoritative => HasAuthoritativeError(active.barrier.window)
        case RaNative => HasAnyError(active.barrier.window);
      action := EmitVerdict(active.wt, error, active.activity, active.reason);
      StartNextAfterSettle(active.wt);
    }

    method StartNextAfterSettle(justFinished: Wt)
      requires current.None?
      modifies this
      ensures Model() == Next(old(Model()), justFinished)
      ensures current.Some? ==> fresh(current.value.barrier)
    {
      if recheckCurrent {
        recheckCurrent := false;
        Open(justFinished);
      } else if pending != [] {
        var wt := pending[0];
        pending := pending[1..];
        Open(wt);
      }
    }

    method OnDeactivated(wt: Wt)
      modifies this
      ensures Model() == Deactivated(old(Model()), wt)
    {
      pending := Dropped(pending, wt);
      if current.Some? && current.value.wt == wt {
        recheckCurrent := false;
      }
    }

    /** The switch of the transaction a settle has just opened, if it opened one. */
    method TakeFollowup() returns (action: Option<Action>)
      ensures action == Followup(Model())
    {
      action := if current.Some? then Some(SwitchOverlay(current.value.wt)) else None;
    }

    method ResetAfterRespawn()
      modifies this
      ensures Model() == Respawned(old(Model()))
    {
      current := None;
      recheckCurrent := false;
    }
  }
}
