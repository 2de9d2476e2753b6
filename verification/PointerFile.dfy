/**
 * Replacing a pointer file through a temporary sibling whose name carries only
 * the process id: interleaved publishers and crashes at any step.
 */
module PointerFile {
  import opened Wrappers
  import opened Bytes

  type Pid = nat
  type Ino = nat

  datatype Phase =
    | Begun
    | Writing(ino: Ino, written: nat)
    | Synced(ino: Ino, written: nat)
    | RenameFailed
    | Done(ok: bool)

  datatype Publisher = Publisher(pid: Pid, contents: Bytes, phase: Phase)

  /** `temps` are the temporary entries by process id, `live` the pointer. */
  datatype Disk = Disk(
    live: Option<Ino>,
    temps: map<Pid, Ino>,
    data: map<Ino, Bytes>,
    nextIno: Ino,
    publishers: map<nat, Publisher>,
    published: set<Bytes>)

  const Empty: Disk := Disk(None, map[], map[], 0, map[], {})

  datatype Step =
    | Begin(p: nat, pid: Pid, contents: Bytes)
    | Create(p: nat)
    | Write(p: nat, n: nat)
    | Sync(p: nat)
    | Error(p: nat)
    | Rename(p: nat)
    | Unlink(p: nat)
    | Crash(pid: Pid)

  function To(d: Disk, p: nat, phase: Phase): Disk
    requires p in d.publishers
  {
    d.(publishers := d.publishers[p := d.publishers[p].(phase := phase)])
  }

  function Created(d: Disk, p: nat): Disk
    requires p in d.publishers
  {
    var pid := d.publishers[p].pid;
    if pid in d.temps then To(d.(data := d.data[d.temps[pid] := []]), p, Writing(d.temps[pid], 0))
    else
      To(d.(temps := d.temps[pid := d.nextIno], data := d.data[d.nextIno := []], nextIno := d.nextIno + 1),
         p, Writing(d.nextIno, 0))
  }

  /** These bytes written at this offset; a gap before them reads as zeros. */
  function WrittenAt(s: Bytes, at: nat, part: Bytes): Bytes {
    (if |s| < at then s + seq(at - |s|, _ => 0) else s[..at]) + part
    + (if at + |part| < |s| then s[at + |part|..] else [])
  }

  /** A handle writes at its own offset, whoever else has truncated the file. */
  function Wrote(d: Disk, p: nat, n: nat): Disk
    requires p in d.publishers && d.publishers[p].phase.Writing?
  {
    var x := d.publishers[p];
    var i, w := x.phase.ino, x.phase.written;
    if i in d.data && w + n <= |x.contents| then
      To(d.(data := d.data[i := WrittenAt(d.data[i], w, x.contents[w..w + n])]), p, Writing(i, w + n))
    else d
  }

  function Renamed(d: Disk, p: nat): Disk
    requires p in d.publishers
  {
    var pid := d.publishers[p].pid;
    if pid in d.temps then To(d.(live := Some(d.temps[pid]), temps := d.temps - {pid}), p, Done(true))
    else To(d, p, RenameFailed)
  }

  function Apply(d: Disk, s: Step): Disk {
    match s
    case Begin(p, pid, contents) =>
      if p in d.publishers then d
      else d.(publishers := d.publishers[p := Publisher(pid, contents, Begun)], published := d.published + {contents})
    case Create(p) => if p in d.publishers && d.publishers[p].phase.Begun? then Created(d, p) else d
    case Write(p, n) => if p in d.publishers && d.publishers[p].phase.Writing? then Wrote(d, p, n) else d
    case Sync(p) =>
      if p in d.publishers && d.publishers[p].phase.Writing?
         && d.publishers[p].phase.written == |d.publishers[p].contents|
      then To(d, p, Synced(d.publishers[p].phase.ino, d.publishers[p].phase.written)) else d
    case Error(p) =>
      if p in d.publishers && d.publishers[p].phase.Synced? then To(d, p, RenameFailed)
      else if p in d.publishers && !d.publishers[p].phase.RenameFailed? && !d.publishers[p].phase.Done? then
        To(d, p, Done(false))
      else d
    case Rename(p) => if p in d.publishers && d.publishers[p].phase.Synced? then Renamed(d, p) else d
    case Unlink(p) =>
      if p in d.publishers && d.publishers[p].phase.RenameFailed? then
        To(d.(temps := d.temps - {d.publishers[p].pid}), p, Done(false))
      else d
    case Crash(pid) =>
      d.(publishers := map p | p in d.publishers && d.publishers[p].pid != pid :: d.publishers[p])
  }

  function Run(d: Disk, steps: seq<Step>): Disk {
    if steps == [] then d else Apply(Run(d, steps[..|steps| - 1]), steps[|steps| - 1])
  }

  /** A publish that may still rename its temporary file into place. */
  predicate Active(d: Disk, p: nat) {
    p in d.publishers && !d.publishers[p].phase.Done? && !d.publishers[p].phase.RenameFailed?
  }

  predicate Owner(d: Disk, p: nat) {
    p in d.publishers && (d.publishers[p].phase.Writing? || d.publishers[p].phase.Synced?)
  }

  /** One publisher a process: a publish begins only when its process has no other
      that may still rename. */
  ghost predicate Alone(d: Disk, s: Step) {
    s.Begin? ==> forall p :: Active(d, p) ==> d.publishers[p].pid != s.pid
  }

  ghost predicate AllAlone(steps: seq<Step>) {
    forall k :: 0 <= k < |steps| ==> Alone(Run(Empty, steps[..k]), steps[k])
  }

  // ------------------------------------------------------------ the invariant

  ghost predicate Unowned(d: Disk, i: Ino) {
    forall p :: Owner(d, p) ==> d.publishers[p].phase.ino != i
  }

  ghost predicate FilesOk(d: Disk) {
    && (forall i :: i in d.data ==> i < d.nextIno)
    && (forall a :: a in d.temps ==> d.temps[a] in d.data && d.live != Some(d.temps[a]))
    && (forall a, b :: a in d.temps && b in d.temps && a != b ==> d.temps[a] != d.temps[b])
    && (d.live.Some? ==> d.live.value in d.data && d.data[d.live.value] in d.published && Unowned(d, d.live.value))
  }

  ghost predicate OwnerOk(d: Disk, x: Publisher)
    requires x.phase.Writing? || x.phase.Synced?
  {
    && x.contents in d.published && x.phase.ino in d.data
    && x.phase.written <= |x.contents| && d.data[x.phase.ino] == x.contents[..x.phase.written]
    && (x.phase.Synced? ==> x.phase.written == |x.contents|)
    && (x.pid in d.temps ==> d.temps[x.pid] == x.phase.ino)
    && (forall a :: a in d.temps && d.temps[a] == x.phase.ino ==> a == x.pid)
  }

  ghost predicate PublishersOk(d: Disk) {
    && (forall p :: Owner(d, p) ==> OwnerOk(d, d.publishers[p]))
    && (forall p :: p in d.publishers ==> d.publishers[p].contents in d.published)
    && (forall p, q :: Active(d, p) && Active(d, q) && p != q ==> d.publishers[p].pid != d.publishers[q].pid)
    && (forall p, q :: Owner(d, p) && Owner(d, q) && p != q ==> d.publishers[p].phase.ino != d.publishers[q].phase.ino)
  }

  ghost predicate Inv(d: Disk) { FilesOk(d) && PublishersOk(d) }

  /** The name is new, or left behind: then nobody else writes to its inode. */
  lemma CreatedParts(d: Disk, p: nat)
    requires Inv(d) && p in d.publishers && d.publishers[p].phase.Begun?
    ensures
      var e := Created(d, p);
      var i := e.publishers[p].phase.ino;
      && Unowned(d, i) && (forall j :: j != i && Unowned(d, j) ==> Unowned(e, j))
      && (forall q :: Owner(e, q) ==> q == p || Owner(d, q))
      && (forall q :: Active(e, q) ==> Active(d, q))
      && e.live == d.live && d.live != Some(i) && e.published == d.published
      && e.temps == d.temps[d.publishers[p].pid := i] && e.data == d.data[i := []]
      && (forall a :: a in d.temps && d.temps[a] == i ==> a == d.publishers[p].pid)
      && i < e.nextIno && d.nextIno <= e.nextIno
  {
    var i := Created(d, p).publishers[p].phase.ino;
    assert Active(d, p);
    forall q | Owner(d, q) ensures d.publishers[q].phase.ino != i { assert Active(d, q); }
  }

  lemma CreatedKeeps(d: Disk, p: nat)
    requires Inv(d) && p in d.publishers && d.publishers[p].phase.Begun?
    ensures Inv(Created(d, p))
  {
    CreatedKeepsFiles(d, p);
    CreatedKeepsPublishers(d, p);
  }

  lemma CreatedKeepsFiles(d: Disk, p: nat)
    requires Inv(d) && p in d.publishers && d.publishers[p].phase.Begun?
    ensures FilesOk(Created(d, p))
  {
    hide Unowned, PublishersOk, Created;
    CreatedParts(d, p);
  }

  lemma CreatedKeepsPublishers(d: Disk, p: nat)
    requires Inv(d) && p in d.publishers && d.publishers[p].phase.Begun?
    ensures PublishersOk(Created(d, p))
  {
    hide FilesOk;
    CreatedParts(d, p);
    assert Active(d, p);
    assert forall q :: Owner(d, q) ==> Active(d, q);
  }

  lemma WritesOn(s: Bytes, part: Bytes)
    ensures WrittenAt(s, |s|, part) == s + part
  {
  }

  lemma WroteParts(d: Disk, p: nat, n: nat)
    requires Inv(d) && p in d.publishers && d.publishers[p].phase.Writing?
    requires d.publishers[p].phase.written + n <= |d.publishers[p].contents|
    ensures
      var e, x := Wrote(d, p, n), d.publishers[p];
      && x.phase.ino in d.data && e.data == d.data[x.phase.ino := x.contents[..x.phase.written + n]]
      && e.live == d.live && e.temps == d.temps && e.published == d.published && e.nextIno == d.nextIno
      && d.live != Some(x.phase.ino)
      && (forall q :: Owner(e, q) <==> Owner(d, q)) && (forall q :: Active(e, q) <==> Active(d, q))
      && (forall j :: Unowned(d, j) ==> Unowned(e, j))
  {
    var e, x := Wrote(d, p, n), d.publishers[p];
    assert Owner(d, p);
    var w := x.phase.written;
    WritesOn(x.contents[..w], x.contents[w..w + n]);
    assert x.contents[..w] + x.contents[w..w + n] == x.contents[..w + n];
    assert forall q :: Owner(e, q) <==> Owner(d, q);
  }

  lemma WroteKeepsFiles(d: Disk, p: nat, n: nat)
    requires Inv(d) && p in d.publishers && d.publishers[p].phase.Writing?
    requires d.publishers[p].phase.written + n <= |d.publishers[p].contents|
    ensures FilesOk(Wrote(d, p, n))
  {
    hide PublishersOk, Unowned, Owner, Active, Wrote;
    WroteParts(d, p, n);
  }

  lemma WroteKeepsPublishers(d: Disk, p: nat, n: nat)
    requires Inv(d) && p in d.publishers && d.publishers[p].phase.Writing?
    requires d.publishers[p].phase.written + n <= |d.publishers[p].contents|
    ensures PublishersOk(Wrote(d, p, n))
  {
    hide FilesOk, Unowned;
    WroteParts(d, p, n);
    assert Owner(d, p);
  }

  lemma WroteKeeps(d: Disk, p: nat, n: nat)
    requires Inv(d) && p in d.publishers && d.publishers[p].phase.Writing?
    ensures Inv(Wrote(d, p, n))
  {
    hide FilesOk, PublishersOk;
    if d.publishers[p].phase.written + n <= |d.publishers[p].contents| {
      WroteKeepsFiles(d, p, n);
      WroteKeepsPublishers(d, p, n);
    }
  }

  /** The contents become the pointer whole. */
  lemma RenamedParts(d: Disk, p: nat)
    requires Inv(d) && p in d.publishers && d.publishers[p].phase.Synced?
    ensures
      var e, x := Renamed(d, p), d.publishers[p];
      && (forall q :: Owner(e, q) ==> Owner(d, q) && q != p) && (forall q :: Active(e, q) ==> Active(d, q))
      && (forall j :: Unowned(d, j) ==> Unowned(e, j)) && Unowned(e, x.phase.ino)
      && x.phase.ino in d.data && d.data[x.phase.ino] in d.published
      && (x.pid in d.temps ==> d.temps[x.pid] == x.phase.ino)
      && e.data == d.data && e.published == d.published && e.nextIno == d.nextIno
  {
    hide FilesOk;
    var e, x := Renamed(d, p), d.publishers[p];
    assert Owner(d, p) && Active(d, p);
    assert x.contents[..x.phase.written] == x.contents;
    assert forall q :: Owner(e, q) ==> Owner(d, q) && q != p;
  }

  lemma RenamedKeepsFiles(d: Disk, p: nat)
    requires Inv(d) && p in d.publishers && d.publishers[p].phase.Synced?
    ensures FilesOk(Renamed(d, p))
  {
    hide PublishersOk, Unowned, Owner, Active;
    RenamedParts(d, p);
  }

  lemma RenamedKeepsPublishers(d: Disk, p: nat)
    requires Inv(d) && p in d.publishers && d.publishers[p].phase.Synced?
    ensures PublishersOk(Renamed(d, p))
  {
    hide FilesOk, Unowned;
    RenamedParts(d, p);
  }

  lemma RenamedKeeps(d: Disk, p: nat)
    requires Inv(d) && p in d.publishers && d.publishers[p].phase.Synced?
    ensures Inv(Renamed(d, p))
  {
    RenamedKeepsFiles(d, p);
    RenamedKeepsPublishers(d, p);
  }

  /** `y` writes on where `x` did, if it writes at all. */
  predicate Carried(x: Publisher, y: Publisher)
    requires y.phase.Writing? || y.phase.Synced?
  {
    && (x.phase.Writing? || x.phase.Synced?)
    && x.pid == y.pid && x.contents == y.contents
    && x.phase.ino == y.phase.ino && x.phase.written == y.phase.written
    && (y.phase.Synced? ==> y.phase.written == |y.contents|)
  }

  lemma MovedKeeps(d: Disk, e: Disk)
    requires Inv(d)
    requires e.live == d.live && e.data == d.data && e.nextIno == d.nextIno && d.published <= e.published
    requires forall a :: a in e.temps ==> a in d.temps && e.temps[a] == d.temps[a]
    requires forall q :: q in e.publishers ==> e.publishers[q].contents in e.published
    requires forall q :: Owner(e, q) ==> q in d.publishers && Carried(d.publishers[q], e.publishers[q])
    requires forall p, q :: Active(e, p) && Active(e, q) && p != q ==> e.publishers[p].pid != e.publishers[q].pid
    ensures Inv(e)
  {
    assert forall q :: Owner(e, q) ==> Owner(d, q);
    assert forall j :: Unowned(d, j) ==> Unowned(e, j);
  }

  lemma BeginKeeps(d: Disk, p: nat, pid: Pid, contents: Bytes)
    requires Inv(d) && Alone(d, Begin(p, pid, contents)) && p !in d.publishers
    ensures Inv(Apply(d, Begin(p, pid, contents)))
  {
    var e := Apply(d, Begin(p, pid, contents));
    assert forall q :: q != p && Active(e, q) ==> Active(d, q);
    assert forall q :: Owner(e, q) ==> Owner(d, q);
    MovedKeeps(d, e);
  }

  lemma SyncKeeps(d: Disk, p: nat)
    requires Inv(d)
    ensures Inv(Apply(d, Sync(p)))
  {
    hide FilesOk;
    var e := Apply(d, Sync(p));
    assert forall q :: Active(e, q) ==> Active(d, q);
    assert forall q :: Owner(e, q) ==> Owner(d, q);
    MovedKeeps(d, e);
  }

  /** A publish gives up where it stands. */
  lemma StoppedKeeps(d: Disk, p: nat, phase: Phase)
    requires Inv(d) && p in d.publishers && (phase.Done? || phase.RenameFailed?)
    ensures Inv(To(d, p, phase))
  {
    hide FilesOk;
    var e := To(d, p, phase);
    assert forall q :: Active(e, q) ==> Active(d, q);
    assert forall q :: Owner(e, q) ==> Owner(d, q);
    MovedKeeps(d, e);
  }

  lemma ErrorKeeps(d: Disk, p: nat)
    requires Inv(d)
    ensures Inv(Apply(d, Error(p)))
  {
    hide Inv;
    if p in d.publishers {
      StoppedKeeps(d, p, RenameFailed);
      StoppedKeeps(d, p, Done(false));
    }
  }

  lemma UnlinkKeeps(d: Disk, p: nat)
    requires Inv(d)
    ensures Inv(Apply(d, Unlink(p)))
  {
    hide FilesOk;
    var e := Apply(d, Unlink(p));
    assert forall q :: Active(e, q) ==> Active(d, q);
    assert forall q :: Owner(e, q) ==> Owner(d, q);
    MovedKeeps(d, e);
  }

  lemma CrashKeeps(d: Disk, pid: Pid)
    requires Inv(d)
    ensures Inv(Apply(d, Crash(pid)))
  {
    hide FilesOk;
    var e := Apply(d, Crash(pid));
    assert forall q :: Active(e, q) ==> Active(d, q);
    assert forall q :: Owner(e, q) ==> Owner(d, q);
    MovedKeeps(d, e);
  }

  lemma StepKeeps(d: Disk, s: Step)
    requires Inv(d) && Alone(d, s)
    ensures Inv(Apply(d, s))
  {
    hide Inv, Alone;
    match s
    case Begin(p, pid, contents) => if p !in d.publishers { BeginKeeps(d, p, pid, contents); }
    case Create(p) => if p in d.publishers && d.publishers[p].phase.Begun? { CreatedKeeps(d, p); }
    case Write(p, n) => if p in d.publishers && d.publishers[p].phase.Writing? { WroteKeeps(d, p, n); }
    case Rename(p) => if p in d.publishers && d.publishers[p].phase.Synced? { RenamedKeeps(d, p); }
    case Sync(p) => SyncKeeps(d, p);
    case Error(p) => ErrorKeeps(d, p);
    case Unlink(p) => UnlinkKeeps(d, p);
    case Crash(pid) => CrashKeeps(d, pid);
  }

  lemma {:induction false} RunKeeps(steps: seq<Step>)
    requires AllAlone(steps)
    ensures Inv(Run(Empty, steps))
    decreases |steps|
  {
    hide Apply, Alone;
    if steps != [] {
      var front := steps[..|steps| - 1];
      assert forall k :: 0 <= k < |front| ==> front[..k] == steps[..k] && front[k] == steps[k];
      RunKeeps(front);
      StepKeeps(Run(Empty, front), steps[|steps| - 1]);
    }
  }

  /** With one publisher a process, whatever the interleaving and wherever it
      crashes, the pointer is absent or holds the complete contents of a publish. */
  lemma PointerIsNeverTorn(steps: seq<Step>)
    requires AllAlone(steps)
    ensures
      var d := Run(Empty, steps);
      d.live.Some? ==> d.live.value in d.data && d.data[d.live.value] in d.published
  {
    RunKeeps(steps);
  }

  // ------------------------------------------------------------ a publish with nothing in its way

  /** What can keep a publish from moving the pointer: an error of its own, the death
      of its process, or an earlier publish of the process that cleans up late. */
  predicate Hinders(d: Disk, s: Step, p: nat, pid: Pid) {
    s == Error(p) || s == Crash(pid) || (s.Unlink? && s.p in d.publishers && d.publishers[s.p].pid == pid)
  }

  ghost predicate OnCourse(d: Disk, p: nat, pid: Pid, contents: Bytes) {
    && p in d.publishers && d.publishers[p].pid == pid && d.publishers[p].contents == contents
    && var phase := d.publishers[p].phase;
       && (phase.Begun? || phase.Writing? || phase.Synced? || phase == Done(true))
       && (phase.Writing? || phase.Synced? ==> pid in d.temps)
  }

  /** What a publish does next. */
  function NextOf(p: nat, x: Publisher): Step {
    match x.phase
    case Begun => Create(p)
    case Writing(_, written) => if written < |x.contents| then Write(p, |x.contents| - written) else Sync(p)
    case _ => Rename(p)
  }

  lemma CourseStep(d: Disk, s: Step, p: nat, pid: Pid, contents: Bytes)
    requires Inv(d) && OnCourse(d, p, pid, contents) && Alone(d, s) && !Hinders(d, s, p, pid)
    ensures OnCourse(Apply(d, s), p, pid, contents)
  {
    hide FilesOk;
    assert d.publishers[p].phase != Done(true) ==> Active(d, p);
    if s.Rename? && s.p in d.publishers && d.publishers[s.p].phase.Synced? {
      assert Active(d, s.p);
    }
  }

  lemma NextInstalls(d: Disk, p: nat, pid: Pid, contents: Bytes)
    requires Inv(d) && OnCourse(d, p, pid, contents) && !d.publishers[p].phase.Done?
    ensures
      var e := Apply(d, NextOf(p, d.publishers[p]));
      && p in e.publishers && e.publishers[p].phase != d.publishers[p].phase
      && (d.publishers[p].phase.Synced? ==>
            && e.publishers[p].phase == Done(true) && pid !in e.temps
            && e.live.Some? && e.live.value in e.data && e.data[e.live.value] == contents)
  {
    if d.publishers[p].phase.Writing? || d.publishers[p].phase.Synced? {
      assert Owner(d, p);
      assert OwnerOk(d, d.publishers[p]);
      assert contents[..|contents|] == contents;
    }
  }

  /** Nothing in these steps hinders the publish, and no process begins a second one. */
  ghost predicate Clear(d: Disk, steps: seq<Step>, p: nat, pid: Pid) {
    forall k :: 0 <= k < |steps| ==>
      Alone(Run(d, steps[..k]), steps[k]) && !Hinders(Run(d, steps[..k]), steps[k], p, pid)
  }

  lemma {:induction false} CourseThroughout(d: Disk, steps: seq<Step>, p: nat, pid: Pid, contents: Bytes)
    requires Inv(d) && OnCourse(d, p, pid, contents) && Clear(d, steps, p, pid)
    ensures Inv(Run(d, steps)) && OnCourse(Run(d, steps), p, pid, contents)
    decreases |steps|
  {
    hide Apply, OnCourse, Inv, Alone, Hinders;
    if steps != [] {
      var front, s := steps[..|steps| - 1], steps[|steps| - 1];
      assert forall k :: 0 <= k < |front| ==> front[..k] == steps[..k] && front[k] == steps[k];
      CourseThroughout(d, front, p, pid, contents);
      CourseStep(Run(d, front), s, p, pid, contents);
      StepKeeps(Run(d, front), s);
    }
  }

  /** A publish that nothing hinders cannot fail: at every moment it has answered Ok,
      or it can take its next step and advance by it, and the last of these steps
      makes the pointer hold exactly its contents. */
  lemma UnhinderedPublishSucceeds(before: seq<Step>, p: nat, pid: Pid, contents: Bytes, steps: seq<Step>)
    requires AllAlone(before) && p !in Run(Empty, before).publishers
    requires Alone(Run(Empty, before), Begin(p, pid, contents))
    requires Clear(Apply(Run(Empty, before), Begin(p, pid, contents)), steps, p, pid)
    ensures
      var d := Run(Apply(Run(Empty, before), Begin(p, pid, contents)), steps);
      && p in d.publishers
      && (d.publishers[p].phase.Done? ==> d.publishers[p].phase == Done(true))
      && (!d.publishers[p].phase.Done? ==>
            var e := Apply(d, NextOf(p, d.publishers[p]));
            && p in e.publishers && e.publishers[p].phase != d.publishers[p].phase
            && (d.publishers[p].phase.Synced? ==>
                  && e.publishers[p].phase == Done(true)
                  && e.live.Some? && e.live.value in e.data && e.data[e.live.value] == contents))
  {
    var d0 := Run(Empty, before);
    assert OnCourse(Apply(d0, Begin(p, pid, contents)), p, pid, contents);
    hide Apply, Alone, Clear;
    RunKeeps(before);
    StepKeeps(d0, Begin(p, pid, contents));
    CourseThroughout(Apply(d0, Begin(p, pid, contents)), steps, p, pid, contents);
    var d := Run(Apply(d0, Begin(p, pid, contents)), steps);
    if !d.publishers[p].phase.Done? { NextInstalls(d, p, pid, contents); }
  }

  /** A publish whose rename fails leaves the pointer as it was and takes its
      temporary file away. */
  lemma FailedRenameCleansUp(d: Disk, p: nat)
    requires p in d.publishers && d.publishers[p].phase.Synced?
    ensures
      var e := Apply(Apply(d, Error(p)), Unlink(p));
      && e.live == d.live && e.data == d.data && e.temps == d.temps - {d.publishers[p].pid}
      && e.publishers[p].phase == Done(false)
  {
  }

  lemma RunSnoc(d: Disk, steps: seq<Step>, s: Step)
    ensures Run(d, steps + [s]) == Apply(Run(d, steps), s)
  {
    assert (steps + [s])[..|steps|] == steps;
  }

  lemma RunsNothing(d: Disk)
    ensures Run(d, []) == d
  {
  }

  // ------------------------------------------------------------ exactly one publisher a process

  /** The pointer holds what nobody published. */
  ghost predicate Torn(d: Disk) {
    d.live.Some? && d.live.value in d.data && d.data[d.live.value] !in d.published
  }

  predicate NobodyBegins(steps: seq<Step>) {
    forall k :: 0 <= k < |steps| ==> !steps[k].Begin?
  }

  lemma {:induction false} NoTearWithoutBegin(d: Disk, steps: seq<Step>)
    requires Inv(d) && NobodyBegins(steps)
    ensures Inv(Run(d, steps)) && !Torn(Run(d, steps))
    decreases |steps|
  {
    hide Apply;
    if steps != [] {
      NoTearWithoutBegin(d, steps[..|steps| - 1]);
      StepKeeps(Run(d, steps[..|steps| - 1]), steps[|steps| - 1]);
    }
  }

  /** What brings an active publish to the brink of its rename. */
  function ToSync(x: Publisher, p: nat): seq<Step>
    requires x.phase.Writing? ==> x.phase.written <= |x.contents|
  {
    match x.phase
    case Begun => [Create(p), Write(p, |x.contents|), Sync(p)]
    case Writing(_, written) => [Write(p, |x.contents| - written), Sync(p)]
    case _ => []
  }

  /** A publish that has its file open and written this far can finish. */
  predicate Sound(d: Disk, p: nat) {
    Owner(d, p) ==> d.publishers[p].phase.ino in d.data && d.publishers[p].phase.written <= |d.publishers[p].contents|
  }

  predicate SyncedAlone(d: Disk, e: Disk, p: nat) {
    && p in d.publishers && p in e.publishers && e.publishers[p].phase.Synced?
    && e.publishers == d.publishers[p := d.publishers[p].(phase := e.publishers[p].phase)]
    && e.published == d.published
  }

  lemma WritesOut(d: Disk, p: nat)
    requires p in d.publishers && d.publishers[p].phase.Writing? && Sound(d, p)
    ensures SyncedAlone(d, Run(d, ToSync(d.publishers[p], p)), p)
  {
    var x := d.publishers[p];
    var n := |x.contents| - x.phase.written;
    var e := Apply(d, Write(p, n));
    RunSnoc(d, [], Write(p, n));
    RunSnoc(d, [Write(p, n)], Sync(p));
    assert [] + [Write(p, n)] == [Write(p, n)] && [Write(p, n)] + [Sync(p)] == ToSync(x, p);
    assert Apply(e, Sync(p)).publishers == d.publishers[p := Apply(e, Sync(p)).publishers[p]];
  }

  lemma {:induction false} RunInTurn(d: Disk, xs: seq<Step>, ys: seq<Step>)
    ensures Run(d, xs + ys) == Run(Run(d, xs), ys)
    decreases |ys|
  {
    if ys == [] {
      assert xs + ys == xs;
    } else {
      var front := ys[..|ys| - 1];
      RunInTurn(d, xs, front);
      assert xs + ys == (xs + front) + [ys[|ys| - 1]];
      RunSnoc(d, xs + front, ys[|ys| - 1]);
    }
  }

  lemma ReachesSync(d: Disk, p: nat)
    requires Active(d, p) && Sound(d, p)
    ensures SyncedAlone(d, Run(d, ToSync(d.publishers[p], p)), p)
  {
    hide Run, Created;
    var x := d.publishers[p];
    match x.phase
    case Begun =>
      var e := Apply(d, Create(p));
      CreatedOpens(d, p);
      WritesOut(e, p);
      RunsOnce(d, Create(p));
      RunInTurn(d, [Create(p)], ToSync(e.publishers[p], p));
      assert [Create(p)] + ToSync(e.publishers[p], p) == ToSync(x, p);
    case Writing(_, _) => WritesOut(d, p);
    case Synced(_, _) => RunsNothing(d);
  }

  lemma RunsOnce(d: Disk, s: Step)
    ensures Run(d, [s]) == Apply(d, s)
  {
    RunSnoc(d, [], s);
    assert [] + [s] == [s];
  }

  lemma CreatedOpens(d: Disk, p: nat)
    requires p in d.publishers && d.publishers[p].phase.Begun?
    ensures
      var e := Apply(d, Create(p));
      var x := d.publishers[p];
      && x.pid in e.temps && e.published == d.published
      && e.publishers == d.publishers[p := x.(phase := Writing(e.temps[x.pid], 0))]
      && e.temps[x.pid] in e.data && e.data[e.temps[x.pid]] == []
  {
  }

  /** The second publish truncates the shared temporary file and writes some of its
      contents; then the first renames it into place. */
  lemma RenamesAnothers(d: Disk, p: nat, q: nat, n: nat)
    requires p in d.publishers && d.publishers[p].phase.Synced?
    requires q in d.publishers && d.publishers[q].phase.Begun? && d.publishers[q].pid == d.publishers[p].pid
    requires n <= |d.publishers[q].contents|
    ensures
      var e := Run(d, [Create(q), Write(q, n), Rename(p)]);
      && e.live.Some? && e.live.value in e.data && e.data[e.live.value] == d.publishers[q].contents[..n]
      && e.published == d.published
  {
    hide Run, Created;
    var b := d.publishers[q].contents;
    var d1 := Apply(d, Create(q));
    CreatedOpens(d, q);
    RunsOnce(d, Create(q));
    RunSnoc(d, [Create(q)], Write(q, n));
    RunSnoc(d, [Create(q), Write(q, n)], Rename(p));
    assert [Create(q)] + [Write(q, n)] == [Create(q), Write(q, n)];
    assert [Create(q), Write(q, n)] + [Rename(p)] == [Create(q), Write(q, n), Rename(p)];
    WritesOn([], b[0..n]);
    assert [] + b[0..n] == b[..n];
  }

  /** Another publish of the same process, begun while one may still rename, can
      tear the pointer. */
  lemma SecondPublisherTears(d: Disk, p: nat, q: nat, b: Bytes, n: nat) returns (steps: seq<Step>)
    requires Inv(d) && Active(d, p) && q !in d.publishers
    requires n <= |b| && b[..n] !in d.published + {b}
    ensures NobodyBegins(steps) && Torn(Run(Apply(d, Begin(q, d.publishers[p].pid, b)), steps))
  {
    hide Run, Created;
    var d1 := Apply(d, Begin(q, d.publishers[p].pid, b));
    var x := d.publishers[p];
    assert Owner(d, p) ==> OwnerOk(d, x);
    var first := ToSync(x, p);
    ReachesSync(d1, p);
    RenamesAnothers(Run(d1, first), p, q, n);
    var last := [Create(q), Write(q, n), Rename(p)];
    RunInTurn(d1, first, last);
    steps := first + last;
  }

  /** Whatever follows, short of one more beginning, the pointer is not torn. */
  ghost predicate NeverTears(d: Disk) {
    forall steps :: NobodyBegins(steps) ==> !Torn(Run(d, steps))
  }

  /** Wherever one publisher a process has led so far, beginning another publish is
      safe if no publish of its process may still rename; and unless every prefix
      of its contents has been published, it is safe exactly then. */
  lemma OneAtATimeIff(before: seq<Step>, q: nat, pid: Pid, b: Bytes, n: nat)
    requires AllAlone(before) && q !in Run(Empty, before).publishers && n <= |b|
    ensures
      var d := Run(Empty, before);
      var safe := NeverTears(Apply(d, Begin(q, pid, b)));
      var alone := forall p :: Active(d, p) ==> d.publishers[p].pid != pid;
      (alone ==> safe) && (b[..n] !in d.published + {b} ==> (safe <==> alone))
  {
    hide Inv, Torn, Run, Apply;
    var d := Run(Empty, before);
    RunKeeps(before);
    if p :| Active(d, p) && d.publishers[p].pid == pid {
      if b[..n] !in d.published + {b} {
        var steps := SecondPublisherTears(d, p, q, b, n);
      }
    } else {
      StepKeeps(d, Begin(q, pid, b));
      forall steps | NobodyBegins(steps) ensures !Torn(Run(Apply(d, Begin(q, pid, b)), steps)) {
        NoTearWithoutBegin(Apply(d, Begin(q, pid, b)), steps);
      }
    }
  }

  // ------------------------------------------------------------ two publishers, one process

  function AfterSync(pid: Pid, a: Bytes): Disk {
    Disk(None, map[pid := 0], map[0 := a], 1, map[0 := Publisher(pid, a, Synced(0, |a|))], {a})
  }

  lemma StepsToSync(pid: Pid, a: Bytes)
    ensures Apply(Apply(Apply(Apply(Empty, Begin(0, pid, a)), Create(0)), Write(0, |a|)), Sync(0)) == AfterSync(pid, a)
  {
    WritesOn([], a[0..|a|]);
    assert [] + a[0..|a|] == a;
    var d1 := Apply(Empty, Begin(0, pid, a));
    var d2 := Apply(d1, Create(0));
    assert d2 == Disk(None, map[pid := 0], map[0 := []], 1, map[0 := Publisher(pid, a, Writing(0, 0))], {a});
    var d3 := Apply(d2, Write(0, |a|));
    assert d3 == Disk(None, map[pid := 0], map[0 := a], 1, map[0 := Publisher(pid, a, Writing(0, |a|))], {a});
  }

  lemma RunsToSync(pid: Pid, a: Bytes)
    ensures Run(Empty, [Begin(0, pid, a), Create(0), Write(0, |a|), Sync(0)]) == AfterSync(pid, a)
  {
    hide Run, Apply, AfterSync;
    var s1, s2, s3 := [Begin(0, pid, a)], [Begin(0, pid, a), Create(0)], [Begin(0, pid, a), Create(0), Write(0, |a|)];
    RunSnoc(Empty, [], Begin(0, pid, a));
    RunSnoc(Empty, s1, Create(0));
    RunSnoc(Empty, s2, Write(0, |a|));
    RunSnoc(Empty, s3, Sync(0));
    assert [] + s1 == s1 && s1 + [Create(0)] == s2 && s2 + [Write(0, |a|)] == s3;
    assert s3 + [Sync(0)] == [Begin(0, pid, a), Create(0), Write(0, |a|), Sync(0)];
    RunsNothing(Empty);
    StepsToSync(pid, a);
  }

  /** Two publishers in one process share the temporary name: while the second has
      written only part of its contents the first can rename that part into place. */
  lemma SharedPidTearsPointer(pid: Pid, a: Bytes, b: Bytes, n: nat)
    requires n < |b| && b[..n] != a
    ensures
      var d := Run(Empty, [Begin(0, pid, a), Create(0), Write(0, |a|), Sync(0)]
                          + [Begin(1, pid, b)] + [Create(1)] + [Write(1, n)] + [Rename(0)]);
      d.live == Some(0) && 0 in d.data && d.data[0] == b[..n] && d.published == {a, b} && Torn(d)
  {
    hide Run;
    var s0 := [Begin(0, pid, a), Create(0), Write(0, |a|), Sync(0)];
    var s1 := s0 + [Begin(1, pid, b)];
    var s2 := s1 + [Create(1)];
    var s3 := s2 + [Write(1, n)];
    RunsToSync(pid, a);
    RunSnoc(Empty, s0, Begin(1, pid, b));
    RunSnoc(Empty, s1, Create(1));
    RunSnoc(Empty, s2, Write(1, n));
    RunSnoc(Empty, s3, Rename(0));
    WritesOn([], b[0..n]);
    assert [] + b[0..n] == b[..n];
  }
}
