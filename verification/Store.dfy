/**
 * The shared content store on one file system: any number of writers and
 * readers in any number of processes, crashes at any step, and a sweeper of
 * temporary files, as interleaved steps over directory entries and inodes.
 */
module Store {
  import opened Wrappers
  import opened Bytes

  type Key = string
  type Pid = nat
  type Ino = nat

  datatype File = Final(key: Key) | Temp(key: Key, pid: Pid, serial: nat)

  /** Where a `put` stands.  The sequence number names its temporary file; the
      inode is that of the file handle it writes through. */
  datatype Phase =
    | Begun
    | Checked
    | Named(serial: nat)
    | Writing(serial: nat, ino: Ino, written: nat)
    | Synced(serial: nat, ino: Ino, written: nat)
    | Failing(serial: nat)
    | RenameFailed(serial: nat)
    | Rechecking(serial: nat)
    | Done(ok: bool)

  datatype Writer = Writer(pid: Pid, key: Key, bytes: Bytes, phase: Phase)

  /** A reader keeps the inode it opened. */
  datatype Reader = Reading(key: Key, ino: Ino, got: Bytes) | Absent(key: Key)

  datatype World = World(
    dir: map<File, Ino>,
    data: map<Ino, Bytes>,
    nextIno: Ino,
    counters: map<Pid, nat>,
    writers: map<nat, Writer>,
    readers: map<nat, Reader>,
    puts: set<(Key, Bytes)>)

  const Empty: World := World(map[], map[], 0, map[], map[], map[], {})

  datatype Step =
    | StartProcess(pid: Pid)
    | Crash(pid: Pid)
    | BeginPut(w: nat, pid: Pid, key: Key, bytes: Bytes)
    | Exists(w: nat)
    | Name(w: nat)
    | Create(w: nat)
    | Write(w: nat, n: nat)
    | Sync(w: nat)
    | Error(w: nat)
    | Rename(w: nat)
    | Unlink(w: nat, removed: bool)
    | Recheck(w: nat)
    | Sweep(key: Key, pid: Pid, serial: nat)
    | OpenRead(r: nat, key: Key)
    | Read(r: nat, n: nat)

  predicate HasTemp(p: Phase) {
    p.Named? || p.Writing? || p.Synced? || p.Failing? || p.RenameFailed? || p.Rechecking?
  }

  predicate Owns(p: Phase) { p.Writing? || p.Synced? }

  function TempOf(w: Writer): File
    requires HasTemp(w.phase)
  {
    Temp(w.key, w.pid, w.phase.serial)
  }

  function To(w: World, id: nat, p: Phase): World
    requires id in w.writers
  {
    w.(writers := w.writers[id := w.writers[id].(phase := p)])
  }

  // ------------------------------------------------------------ the steps of a put

  function Created(w: World, id: nat): World
    requires id in w.writers && w.writers[id].phase.Named?
  {
    var t, s := TempOf(w.writers[id]), w.writers[id].phase.serial;
    if t in w.dir && w.dir[t] in w.data then
      To(w.(data := w.data[w.dir[t] := []]), id, Writing(s, w.dir[t], 0))
    else
      To(w.(dir := w.dir[t := w.nextIno], data := w.data[w.nextIno := []], nextIno := w.nextIno + 1),
         id, Writing(s, w.nextIno, 0))
  }

  function Wrote(w: World, id: nat, n: nat): World
    requires id in w.writers && w.writers[id].phase.Writing?
  {
    var p, bytes := w.writers[id].phase, w.writers[id].bytes;
    if p.ino in w.data && p.written + n <= |bytes| then
      To(w.(data := w.data[p.ino := w.data[p.ino] + bytes[p.written..p.written + n]]),
         id, Writing(p.serial, p.ino, p.written + n))
    else w
  }

  function Renamed(w: World, id: nat): World
    requires id in w.writers && w.writers[id].phase.Synced?
  {
    var t := TempOf(w.writers[id]);
    if t in w.dir then
      To(w.(dir := (w.dir - {t})[Final(w.writers[id].key) := w.dir[t]]), id, Done(true))
    else To(w, id, RenameFailed(w.writers[id].phase.serial))
  }

  function Failed(w: World, id: nat): World
    requires id in w.writers
  {
    match w.writers[id].phase
    case Checked => To(w, id, Done(false))
    case Named(s) => To(w, id, Failing(s))
    case Writing(s, _, _) => To(w, id, Failing(s))
    case Synced(s, _, _) => To(w, id, RenameFailed(s))
    case _ => w
  }

  function Unlinked(w: World, id: nat, removed: bool): World
    requires id in w.writers
  {
    var p := w.writers[id].phase;
    if p.Failing? || p.RenameFailed? then
      var w1 := if removed then w.(dir := w.dir - {TempOf(w.writers[id])}) else w;
      To(w1, id, if p.Failing? then Done(false) else Rechecking(p.serial))
    else w
  }

  /** One step; a step that is not enabled changes nothing. */
  function Apply(w: World, s: Step): World {
    match s
    case StartProcess(pid) => if pid in w.counters then w else w.(counters := w.counters[pid := 0])
    case Crash(pid) =>
      w.(counters := w.counters - {pid},
         writers := map id | id in w.writers && w.writers[id].pid != pid :: w.writers[id])
    case BeginPut(id, pid, key, bytes) =>
      if id in w.writers || pid !in w.counters then w
      else w.(writers := w.writers[id := Writer(pid, key, bytes, Begun)], puts := w.puts + {(key, bytes)})
    case Exists(id) =>
      if id in w.writers && w.writers[id].phase.Begun? then
        To(w, id, if Final(w.writers[id].key) in w.dir then Done(true) else Checked)
      else w
    case Name(id) =>
      if id in w.writers && w.writers[id].phase.Checked? && w.writers[id].pid in w.counters then
        var pid := w.writers[id].pid;
        To(w.(counters := w.counters[pid := w.counters[pid] + 1]), id, Named(w.counters[pid]))
      else w
    case Create(id) => if id in w.writers && w.writers[id].phase.Named? then Created(w, id) else w
    case Write(id, n) => if id in w.writers && w.writers[id].phase.Writing? then Wrote(w, id, n) else w
    case Sync(id) =>
      if id in w.writers && w.writers[id].phase.Writing? && w.writers[id].phase.written == |w.writers[id].bytes| then
        To(w, id, Synced(w.writers[id].phase.serial, w.writers[id].phase.ino, w.writers[id].phase.written))
      else w
    case Error(id) => if id in w.writers then Failed(w, id) else w
    case Rename(id) => if id in w.writers && w.writers[id].phase.Synced? then Renamed(w, id) else w
    case Unlink(id, removed) => if id in w.writers then Unlinked(w, id, removed) else w
    case Recheck(id) =>
      if id in w.writers && w.writers[id].phase.Rechecking? then
        To(w, id, Done(Final(w.writers[id].key) in w.dir))
      else w
    case Sweep(key, pid, serial) => w.(dir := w.dir - {Temp(key, pid, serial)})
    case OpenRead(r, key) =>
      if r in w.readers then w
      else
        var rd := if Final(key) in w.dir then Reading(key, w.dir[Final(key)], []) else Absent(key);
        w.(readers := w.readers[r := rd])
    case Read(r, n) =>
      if r in w.readers && w.readers[r].Reading? && w.readers[r].ino in w.data then
        var rd := w.readers[r];
        var all := w.data[rd.ino];
        if |rd.got| + n <= |all| then
          w.(readers := w.readers[r := rd.(got := rd.got + all[|rd.got|..|rd.got| + n])])
        else w
      else w
  }

  function Run(w: World, steps: seq<Step>): World {
    if steps == [] then w else Apply(Run(w, steps[..|steps| - 1]), steps[|steps| - 1])
  }

  // ------------------------------------------------------------ the invariant

  /** No writer's handle writes to this inode. */
  ghost predicate Unowned(w: World, i: Ino) {
    forall id :: Owner(w, id) ==> w.writers[id].phase.ino != i
  }

  /** Entries name existing inodes, each at most once. */
  ghost predicate DirOk(w: World) {
    && (forall f :: f in w.dir ==> w.dir[f] in w.data)
    && (forall i :: i in w.data ==> i < w.nextIno)
    && (forall f, g :: f in w.dir && g in w.dir && w.dir[f] == w.dir[g] ==> f == g)
  }

  /** A final file is the complete payload of some put of its key. */
  ghost predicate FinalsOk(w: World) {
    forall k :: Final(k) in w.dir ==>
      w.dir[Final(k)] in w.data && (k, w.data[w.dir[Final(k)]]) in w.puts && Unowned(w, w.dir[Final(k)])
  }

  ghost predicate PrefixOfPut(w: World, k: Key, part: Bytes) {
    exists b :: (k, b) in w.puts && part <= b
  }

  /** A temporary file holds a prefix of the payload of some put of its key. */
  ghost predicate TempsOk(w: World) {
    forall t :: t in w.dir && t.Temp? ==> w.dir[t] in w.data && PrefixOfPut(w, t.key, w.data[w.dir[t]])
  }

  ghost predicate WriterOk(w: World, x: Writer) {
    && (x.key, x.bytes) in w.puts
    && x.pid in w.counters
    && (HasTemp(x.phase) ==> x.phase.serial < w.counters[x.pid])
    && (Owns(x.phase) ==>
          && x.phase.ino in w.data
          && x.phase.written <= |x.bytes| && w.data[x.phase.ino] == x.bytes[..x.phase.written]
          && (x.phase.Synced? ==> x.phase.written == |x.bytes|)
          && (TempOf(x) in w.dir ==> w.dir[TempOf(x)] == x.phase.ino)
          && (forall f :: f in w.dir && w.dir[f] == x.phase.ino ==> f == TempOf(x)))
    && (x.phase == Done(true) ==> Final(x.key) in w.dir)
  }

  ghost predicate HasName(w: World, id: nat) { id in w.writers && HasTemp(w.writers[id].phase) }

  ghost predicate Owner(w: World, id: nat) { id in w.writers && Owns(w.writers[id].phase) }

  /** A temporary name has at most one live writer, and so has an inode. */
  ghost predicate Apart(w: World) {
    && (forall a, b :: HasName(w, a) && HasName(w, b) && a != b ==>
          w.writers[a].pid != w.writers[b].pid || w.writers[a].phase.serial != w.writers[b].phase.serial)
    && (forall a, b :: Owner(w, a) && Owner(w, b) && a != b ==>
          w.writers[a].phase.ino != w.writers[b].phase.ino)
  }

  /** What a reader has opened is complete and will not change. */
  ghost predicate ReaderOk(w: World, r: Reader) {
    r.Reading? ==>
      && r.ino in w.data && r.got <= w.data[r.ino] && (r.key, w.data[r.ino]) in w.puts && Unowned(w, r.ino)
      && (forall f :: f in w.dir && w.dir[f] == r.ino ==> f.Final?)
  }

  ghost predicate WritersOk(w: World) {
    forall id :: id in w.writers ==> WriterOk(w, w.writers[id])
  }

  ghost predicate ReadersOk(w: World) {
    forall r :: r in w.readers ==> ReaderOk(w, w.readers[r])
  }

  ghost predicate Inv(w: World) {
    DirOk(w) && FinalsOk(w) && TempsOk(w) && Apart(w) && WritersOk(w) && ReadersOk(w)
  }

  // ------------------------------------------------------------ steps keep it

  /** Files as they were, every name and inode in use was in use before. */
  ghost predicate FewerUsers(w: World, v: World) {
    && v.dir == w.dir && v.data == w.data && v.nextIno == w.nextIno && v.readers == w.readers && w.puts <= v.puts
    && (forall a :: Owner(v, a) ==> Owner(w, a) && v.writers[a].phase.ino == w.writers[a].phase.ino)
  }

  lemma FewerUsersKeepFiles(w: World, v: World)
    requires Inv(w) && FewerUsers(w, v)
    ensures DirOk(v) && FinalsOk(v) && TempsOk(v) && ReadersOk(v)
  {
    hide Apart, WritersOk;
    assert forall i :: Unowned(w, i) ==> Unowned(v, i);
    assert forall k, b :: PrefixOfPut(w, k, b) ==> PrefixOfPut(v, k, b);
  }

  /** A writer moves on without touching files: it takes no name and no inode. */
  lemma PhaseOnly(w: World, id: nat, p: Phase)
    requires Inv(w) && id in w.writers
    requires var q := w.writers[id].phase;
             && (HasTemp(p) ==> HasTemp(q) && p.serial == q.serial)
             && (Owns(p) ==> Owns(q) && p.ino == q.ino && p.written == q.written
                             && (p.Synced? ==> p.written == |w.writers[id].bytes|))
             && (p == Done(true) ==> Final(w.writers[id].key) in w.dir)
    ensures Inv(To(w, id, p))
  {
    hide DirOk, FinalsOk, TempsOk, ReadersOk, WriterOk;
    var v := To(w, id, p);
    assert forall a :: HasName(v, a) ==> HasName(w, a);
    FewerUsersKeepFiles(w, v);
    forall a | a in v.writers ensures WriterOk(v, v.writers[a]) {
      PhaseKeepsWriter(w, id, p, a);
    }
  }

  lemma PhaseKeepsWriter(w: World, id: nat, p: Phase, a: nat)
    requires id in w.writers && a in w.writers && WriterOk(w, w.writers[a])
    requires var q := w.writers[id].phase;
             && (HasTemp(p) ==> HasTemp(q) && p.serial == q.serial)
             && (Owns(p) ==> Owns(q) && p.ino == q.ino && p.written == q.written
                             && (p.Synced? ==> p.written == |w.writers[id].bytes|))
             && (p == Done(true) ==> Final(w.writers[id].key) in w.dir)
    ensures WriterOk(To(w, id, p), To(w, id, p).writers[a])
  {
  }

  /** A temporary entry disappears. */
  lemma TempGone(w: World, t: File)
    requires Inv(w) && t.Temp?
    ensures Inv(w.(dir := w.dir - {t}))
  {
    var v := w.(dir := w.dir - {t});
    assert forall i :: Unowned(w, i) ==> Unowned(v, i);
    assert forall k, b :: PrefixOfPut(w, k, b) ==> PrefixOfPut(v, k, b);
  }

  /** The name is new, or left behind by a dead process: then its inode is nobody's. */
  lemma CreatedParts(w: World, id: nat)
    requires Inv(w) && id in w.writers && w.writers[id].phase.Named?
    ensures
      var v := Created(w, id);
      var i := v.writers[id].phase.ino;
      && Unowned(w, i)
      && (forall j :: j != i && Unowned(w, j) ==> Unowned(v, j))
      && (forall j :: j in w.data && j != i ==> j in v.data && v.data[j] == w.data[j])
      && (forall k, b :: PrefixOfPut(w, k, b) ==> PrefixOfPut(v, k, b))
      && PrefixOfPut(v, w.writers[id].key, [])
      && i in v.data && v.data[i] == []
      && v.dir == w.dir[TempOf(w.writers[id]) := i]
      && (forall f :: f in w.dir && w.dir[f] == i ==> f == TempOf(w.writers[id]))
      && (i in w.data ==> TempOf(w.writers[id]) in w.dir && w.dir[TempOf(w.writers[id])] == i)
  {
    var x := w.writers[id];
    var v := Created(w, id);
    assert (x.key, x.bytes) in v.puts && [] <= x.bytes;
  }

  lemma CreatedKeepsDir(w: World, id: nat)
    requires Inv(w) && id in w.writers && w.writers[id].phase.Named?
    ensures DirOk(Created(w, id))
  {
    hide Unowned, PrefixOfPut, ReadersOk, WritersOk, Apart, FinalsOk, TempsOk;
    CreatedParts(w, id);
  }

  lemma CreatedKeepsFiles(w: World, id: nat)
    requires Inv(w) && id in w.writers && w.writers[id].phase.Named?
    ensures var v := Created(w, id); DirOk(v) && FinalsOk(v) && TempsOk(v)
  {
    hide Unowned, PrefixOfPut, ReadersOk, WritersOk, Apart;
    CreatedKeepsDir(w, id);
    CreatedParts(w, id);
  }

  lemma CreatedKeepsApart(w: World, id: nat)
    requires Inv(w) && id in w.writers && w.writers[id].phase.Named?
    ensures Apart(Created(w, id))
  {
    hide PrefixOfPut, DirOk, FinalsOk, TempsOk, ReadersOk;
    CreatedParts(w, id);
  }

  lemma CreatedKeepsReaders(w: World, id: nat)
    requires Inv(w) && id in w.writers && w.writers[id].phase.Named?
    ensures ReadersOk(Created(w, id))
  {
    hide PrefixOfPut, DirOk, FinalsOk, TempsOk, Apart, WritersOk, Unowned;
    CreatedParts(w, id);
  }

  lemma CreatedKeepsWriters(w: World, id: nat)
    requires Inv(w) && id in w.writers && w.writers[id].phase.Named?
    ensures WritersOk(Created(w, id))
  {
    hide PrefixOfPut, DirOk, FinalsOk, TempsOk, ReadersOk;
    CreatedParts(w, id);
  }

  lemma CreatedKeeps(w: World, id: nat)
    requires Inv(w) && id in w.writers && w.writers[id].phase.Named?
    ensures Inv(Created(w, id))
  {
    hide Created, DirOk, FinalsOk, TempsOk, Apart, WritersOk, ReadersOk;
    CreatedKeepsFiles(w, id);
    CreatedKeepsApart(w, id);
    CreatedKeepsReaders(w, id);
    CreatedKeepsWriters(w, id);
  }

  lemma WroteParts(w: World, id: nat, n: nat)
    requires Inv(w) && id in w.writers && w.writers[id].phase.Writing?
    requires w.writers[id].phase.written + n <= |w.writers[id].bytes|
    ensures
      var v := Wrote(w, id, n);
      var i := w.writers[id].phase.ino;
      && v.dir == w.dir && v.data == w.data[i := w.writers[id].bytes[..w.writers[id].phase.written + n]] && i in w.data
      && (forall a :: Owner(v, a) <==> Owner(w, a)) && (forall a :: HasName(v, a) <==> HasName(w, a))
      && (forall j :: Unowned(w, j) <==> Unowned(v, j)) && !Unowned(w, i)
      && (forall k, b :: PrefixOfPut(w, k, b) ==> PrefixOfPut(v, k, b))
      && PrefixOfPut(v, w.writers[id].key, v.data[i])
      && (forall f :: f in w.dir && w.dir[f] == i ==> f == TempOf(w.writers[id]))
  {
    hide DirOk, FinalsOk, TempsOk, Apart, ReadersOk;
    var x := w.writers[id];
    var v := Wrote(w, id, n);
    assert x.bytes[..x.phase.written] + x.bytes[x.phase.written..x.phase.written + n] == x.bytes[..x.phase.written + n];
    assert Owner(w, id);
    assert forall a :: Owner(w, a) <==> Owner(v, a);
    assert (x.key, x.bytes) in v.puts;
  }

  lemma WroteKeeps(w: World, id: nat, n: nat)
    requires Inv(w) && id in w.writers && w.writers[id].phase.Writing?
    ensures Inv(Wrote(w, id, n))
  {
    hide Unowned, PrefixOfPut, WriterOk, WritersOk;
    if w.writers[id].phase.written + n <= |w.writers[id].bytes| {
      WroteParts(w, id, n);
      WroteKeepsWriters(w, id, n);
    }
  }

  lemma WroteKeepsWriters(w: World, id: nat, n: nat)
    requires Inv(w) && id in w.writers && w.writers[id].phase.Writing?
    requires w.writers[id].phase.written + n <= |w.writers[id].bytes|
    ensures WritersOk(Wrote(w, id, n))
  {
    hide Unowned, PrefixOfPut, DirOk, FinalsOk, TempsOk, ReadersOk;
    WroteParts(w, id, n);
    var v := Wrote(w, id, n);
    forall a | a in v.writers ensures WriterOk(v, v.writers[a]) {
      assert WriterOk(w, w.writers[a]);
      if a != id && Owns(w.writers[a].phase) { assert Owner(w, a) && Owner(w, id); }
    }
  }

  /** The payload becomes visible whole, at the final path and nowhere else. */
  lemma RenamedParts(w: World, id: nat)
    requires Inv(w) && id in w.writers && w.writers[id].phase.Synced? && TempOf(w.writers[id]) in w.dir
    ensures
      var v := Renamed(w, id);
      var x := w.writers[id];
      && (forall j :: Unowned(w, j) ==> Unowned(v, j)) && Unowned(v, x.phase.ino)
      && (forall k, b :: PrefixOfPut(w, k, b) ==> PrefixOfPut(v, k, b))
      && x.phase.ino in w.data && w.data[x.phase.ino] == x.bytes && (x.key, x.bytes) in w.puts
      && v.dir == (w.dir - {TempOf(x)})[Final(x.key) := x.phase.ino]
      && v.data == w.data
      && (forall f :: f in w.dir && w.dir[f] == x.phase.ino ==> f == TempOf(x))
      && (forall a :: Owner(v, a) ==> Owner(w, a) && a != id)
      && (forall a :: HasName(v, a) ==> HasName(w, a) && a != id)
  {
    var x := w.writers[id];
    assert Owner(w, id);
    assert x.bytes[..x.phase.written] == x.bytes;
  }

  lemma RenamedKeepsFiles(w: World, id: nat)
    requires Inv(w) && id in w.writers && w.writers[id].phase.Synced? && TempOf(w.writers[id]) in w.dir
    ensures var v := Renamed(w, id); DirOk(v) && FinalsOk(v) && TempsOk(v)
  {
    hide Unowned, PrefixOfPut, ReaderOk, WriterOk, Apart, HasName, Owner;
    RenamedParts(w, id);
  }

  lemma RenamedKeepsUsers(w: World, id: nat)
    requires Inv(w) && id in w.writers && w.writers[id].phase.Synced? && TempOf(w.writers[id]) in w.dir
    ensures var v := Renamed(w, id); Apart(v) && ReadersOk(v)
  {
    hide PrefixOfPut, DirOk, FinalsOk, TempsOk, Unowned;
    RenamedParts(w, id);
  }

  lemma RenamedKeepsWriters(w: World, id: nat)
    requires Inv(w) && id in w.writers && w.writers[id].phase.Synced? && TempOf(w.writers[id]) in w.dir
    ensures WritersOk(Renamed(w, id))
  {
    hide PrefixOfPut, DirOk, FinalsOk, TempsOk, ReadersOk, Unowned;
    RenamedParts(w, id);
    var v := Renamed(w, id);
    forall a | a in v.writers && a != id ensures WriterOk(v, v.writers[a]) {
      assert WriterOk(w, w.writers[a]);
      assert Owner(w, id);
      if Owns(w.writers[a].phase) { assert Owner(w, a); }
      if HasTemp(w.writers[a].phase) { assert HasName(w, a) && HasName(w, id); }
    }
  }

  lemma RenamedKeeps(w: World, id: nat)
    requires Inv(w) && id in w.writers && w.writers[id].phase.Synced?
    ensures Inv(Renamed(w, id))
  {
    hide DirOk, FinalsOk, TempsOk, Apart, WritersOk, ReadersOk;
    if TempOf(w.writers[id]) in w.dir {
      RenamedKeepsFiles(w, id);
      RenamedKeepsUsers(w, id);
      RenamedKeepsWriters(w, id);
    } else {
      PhaseOnly(w, id, RenameFailed(w.writers[id].phase.serial));
    }
  }

  lemma NamedKeepsWriter(w: World, id: nat, a: nat)
    requires id in w.writers && w.writers[id].phase.Checked? && a in w.writers
    requires WriterOk(w, w.writers[a]) && WriterOk(w, w.writers[id])
    ensures WriterOk(Apply(w, Name(id)), Apply(w, Name(id)).writers[a])
  {
  }

  lemma NamesStayApart(w: World, id: nat)
    requires WritersOk(w) && Apart(w) && id in w.writers && w.writers[id].phase.Checked?
    ensures Apart(Apply(w, Name(id)))
  {
    var v := Apply(w, Name(id));
    assert forall a :: a != id && HasName(v, a) ==> HasName(w, a);
    assert forall a :: Owner(v, a) ==> Owner(w, a);
  }

  lemma NamedKeeps(w: World, id: nat)
    requires Inv(w) && id in w.writers && w.writers[id].phase.Checked?
    ensures Inv(Apply(w, Name(id)))
  {
    hide DirOk, FinalsOk, TempsOk, ReadersOk, WriterOk;
    var v := Apply(w, Name(id));
    assert forall a :: a != id && HasName(v, a) ==> HasName(w, a);
    FewerUsersKeepFiles(w, v);
    forall a | a in v.writers ensures WriterOk(v, v.writers[a]) {
      NamedKeepsWriter(w, id, a);
    }
    NamesStayApart(w, id);
  }

  lemma BegunKeepsWriter(w: World, id: nat, pid: Pid, key: Key, bytes: Bytes, a: nat)
    requires a in Apply(w, BeginPut(id, pid, key, bytes)).writers
    requires a in w.writers ==> WriterOk(w, w.writers[a])
    ensures WriterOk(Apply(w, BeginPut(id, pid, key, bytes)), Apply(w, BeginPut(id, pid, key, bytes)).writers[a])
  {
  }

  lemma BegunKeeps(w: World, id: nat, pid: Pid, key: Key, bytes: Bytes)
    requires Inv(w)
    ensures Inv(Apply(w, BeginPut(id, pid, key, bytes)))
  {
    hide DirOk, FinalsOk, TempsOk, ReadersOk, WriterOk;
    var v := Apply(w, BeginPut(id, pid, key, bytes));
    assert forall a :: HasName(v, a) ==> HasName(w, a);
    FewerUsersKeepFiles(w, v);
    forall a | a in v.writers ensures WriterOk(v, v.writers[a]) {
      BegunKeepsWriter(w, id, pid, key, bytes, a);
    }
  }

  lemma StartedKeeps(w: World, pid: Pid)
    requires Inv(w)
    ensures Inv(Apply(w, StartProcess(pid)))
  {
    hide DirOk, FinalsOk, TempsOk, ReadersOk;
    FewerUsersKeepFiles(w, Apply(w, StartProcess(pid)));
  }

  lemma CrashedKeeps(w: World, pid: Pid)
    requires Inv(w)
    ensures Inv(Apply(w, Crash(pid)))
  {
    hide DirOk, FinalsOk, TempsOk, ReadersOk;
    var v := Apply(w, Crash(pid));
    assert forall a :: HasName(v, a) ==> HasName(w, a);
    assert forall a :: Owner(v, a) ==> Owner(w, a);
    FewerUsersKeepFiles(w, v);
  }

  /** Reading changes nothing but the reader. */
  lemma ReadersOnly(w: World, v: World)
    requires Inv(w) && v == w.(readers := v.readers) && ReadersOk(v)
    ensures Inv(v)
  {
    assert forall a :: Owner(v, a) <==> Owner(w, a);
    assert forall a :: HasName(v, a) <==> HasName(w, a);
    assert forall i :: Unowned(w, i) <==> Unowned(v, i);
    assert forall k, b :: PrefixOfPut(w, k, b) ==> PrefixOfPut(v, k, b);
  }

  lemma OpenedOk(w: World, r: nat, key: Key)
    requires Inv(w)
    ensures ReadersOk(Apply(w, OpenRead(r, key)))
  {
    hide TempsOk, WritersOk, Apart;
    var v := Apply(w, OpenRead(r, key));
    assert forall a :: Owner(v, a) <==> Owner(w, a);
    assert forall i :: Unowned(w, i) ==> Unowned(v, i);
  }

  lemma ReadOk(w: World, r: nat, n: nat)
    requires Inv(w)
    ensures ReadersOk(Apply(w, Read(r, n)))
  {
    hide TempsOk, WritersOk, Apart, FinalsOk, DirOk;
    var v := Apply(w, Read(r, n));
    assert forall a :: Owner(v, a) <==> Owner(w, a);
    assert forall i :: Unowned(w, i) ==> Unowned(v, i);
  }

  lemma ReadKeeps(w: World, s: Step)
    requires Inv(w) && (s.OpenRead? || s.Read?)
    ensures Inv(Apply(w, s))
  {
    hide Inv, ReadersOk;
    if s.OpenRead? { OpenedOk(w, s.r, s.key); } else { ReadOk(w, s.r, s.n); }
    ReadersOnly(w, Apply(w, s));
  }

  lemma UnlinkedKeeps(w: World, id: nat, removed: bool)
    requires Inv(w) && id in w.writers
    ensures Inv(Unlinked(w, id, removed))
  {
    hide Inv;
    var p := w.writers[id].phase;
    if p.Failing? || p.RenameFailed? {
      var w1 := if removed then w.(dir := w.dir - {TempOf(w.writers[id])}) else w;
      if removed { TempGone(w, TempOf(w.writers[id])); }
      PhaseOnly(w1, id, if p.Failing? then Done(false) else Rechecking(p.serial));
    }
  }

  lemma FailedKeeps(w: World, id: nat)
    requires Inv(w) && id in w.writers
    ensures Inv(Failed(w, id))
  {
    hide Inv;
    if Failed(w, id) != w { PhaseOnly(w, id, Failed(w, id).writers[id].phase); }
  }

  lemma StepKeeps(w: World, s: Step)
    requires Inv(w)
    ensures Inv(Apply(w, s))
  {
    hide Inv, Created, Wrote, Renamed, Unlinked, Failed;
    match s
    case StartProcess(pid) => StartedKeeps(w, pid);
    case Crash(pid) => CrashedKeeps(w, pid);
    case BeginPut(id, pid, key, bytes) => BegunKeeps(w, id, pid, key, bytes);
    case Exists(id) =>
      if id in w.writers && w.writers[id].phase.Begun? {
        PhaseOnly(w, id, if Final(w.writers[id].key) in w.dir then Done(true) else Checked);
      }
    case Name(id) => if id in w.writers && w.writers[id].phase.Checked? { NamedKeeps(w, id); }
    case Create(id) => if id in w.writers && w.writers[id].phase.Named? { CreatedKeeps(w, id); }
    case Write(id, n) => if id in w.writers && w.writers[id].phase.Writing? { WroteKeeps(w, id, n); }
    case Sync(id) =>
      if id in w.writers && w.writers[id].phase.Writing? && w.writers[id].phase.written == |w.writers[id].bytes| {
        PhaseOnly(w, id, Synced(w.writers[id].phase.serial, w.writers[id].phase.ino, w.writers[id].phase.written));
      }
    case Error(id) => if id in w.writers { FailedKeeps(w, id); }
    case Rename(id) => if id in w.writers && w.writers[id].phase.Synced? { RenamedKeeps(w, id); }
    case Unlink(id, removed) => if id in w.writers { UnlinkedKeeps(w, id, removed); }
    case Recheck(id) =>
      if id in w.writers && w.writers[id].phase.Rechecking? {
        PhaseOnly(w, id, Done(Final(w.writers[id].key) in w.dir));
      }
    case Sweep(key, pid, serial) => TempGone(w, Temp(key, pid, serial));
    case OpenRead(_, _) => ReadKeeps(w, s);
    case Read(_, _) => ReadKeeps(w, s);
  }

  lemma {:induction false} RunKeeps(steps: seq<Step>)
    ensures Inv(Run(Empty, steps))
    decreases |steps|
  {
    hide Apply;
    if steps != [] {
      RunKeeps(steps[..|steps| - 1]);
      StepKeeps(Run(Empty, steps[..|steps| - 1]), steps[|steps| - 1]);
    }
  }

  // ------------------------------------------------------------ what callers see

  /** In every interleaving: a file at a final path is the complete payload of a
      put of its key; a temporary file holds a prefix of such a payload and has at
      most one live writer; a put that answered Ok left its key present; and a
      reader that reached the end holds the complete payload of a put. */
  lemma StoreIsSafe(steps: seq<Step>)
    ensures
      var w := Run(Empty, steps);
      && (forall k :: Final(k) in w.dir ==> w.dir[Final(k)] in w.data && (k, w.data[w.dir[Final(k)]]) in w.puts)
      && (forall t :: t in w.dir && t.Temp? ==>
            w.dir[t] in w.data && exists b :: (t.key, b) in w.puts && w.data[w.dir[t]] <= b)
      && (forall a, b :: HasName(w, a) && HasName(w, b) && TempOf(w.writers[a]) == TempOf(w.writers[b]) ==> a == b)
      && (forall id :: id in w.writers && w.writers[id].phase == Done(true) ==> Final(w.writers[id].key) in w.dir)
      && (forall r :: r in w.readers && w.readers[r].Reading? ==>
            && w.readers[r].ino in w.data && w.readers[r].got <= w.data[w.readers[r].ino]
            && (w.readers[r].key, w.data[w.readers[r].ino]) in w.puts)
  {
    RunKeeps(steps);
    var w := Run(Empty, steps);
    forall t | t in w.dir && t.Temp? ensures exists b :: (t.key, b) in w.puts && w.data[w.dir[t]] <= b {
      assert PrefixOfPut(w, t.key, w.data[w.dir[t]]);
    }
  }

  lemma FinalStays(w: World, s: Step, k: Key)
    requires Final(k) in w.dir
    ensures Final(k) in Apply(w, s).dir && w.puts <= Apply(w, s).puts
  {
  }

  /** A final path, once present, stays present, and puts are never forgotten. */
  lemma {:induction false} FinalsStay(w: World, steps: seq<Step>, k: Key)
    requires Final(k) in w.dir
    ensures Final(k) in Run(w, steps).dir
    ensures w.puts <= Run(w, steps).puts
    decreases |steps|
  {
    hide Apply;
    if steps != [] {
      FinalsStay(w, steps[..|steps| - 1], k);
      FinalStays(Run(w, steps[..|steps| - 1]), steps[|steps| - 1], k);
    }
  }

  /** With content-addressed keys, that is one payload a key, every final file is
      exactly that payload, every read a prefix of it, and a read that has reached
      the end of its file the whole. */
  lemma ContentAddressed(steps: seq<Step>, k: Key, b: Bytes)
    requires forall c :: (k, c) in Run(Empty, steps).puts ==> c == b
    ensures
      var w := Run(Empty, steps);
      && (Final(k) in w.dir ==> w.dir[Final(k)] in w.data && w.data[w.dir[Final(k)]] == b)
      && (forall r :: r in w.readers && w.readers[r].Reading? && w.readers[r].key == k ==>
            && w.readers[r].ino in w.data && w.readers[r].got <= b
            && (|w.readers[r].got| == |w.data[w.readers[r].ino]| ==> w.readers[r].got == b))
  {
    StoreIsSafe(steps);
  }

  /** Writer `id` of `w` once its temporary file is gone: it cannot come back, and
      no name leads to the inode it wrote. */
  ghost predicate Lost(w: World, id: nat, x: Writer) {
    && id in w.writers && HasTemp(x.phase)
    && w.writers[id] == x.(phase := w.writers[id].phase)
    && (w.writers[id].phase == x.phase || w.writers[id].phase == RenameFailed(x.phase.serial)
        || w.writers[id].phase == Rechecking(x.phase.serial) || w.writers[id].phase.Done?)
    && (!w.writers[id].phase.Done? ==> TempOf(x) !in w.dir)
  }

  ghost predicate Nameless(w: World, i: Ino) {
    i < w.nextIno && forall f :: f in w.dir ==> w.dir[f] != i
  }

  lemma NamelessStays(w: World, s: Step, i: Ino)
    requires Nameless(w, i)
    ensures Nameless(Apply(w, s), i)
  {
  }

  /** The steps that a put whose file is synced can still take. */
  predicate Own(s: Step, id: nat) {
    (s.Error? || s.Rename? || s.Unlink? || s.Recheck?) && s.w == id
  }

  lemma OwnStepKeepsLost(w: World, s: Step, id: nat, x: Writer)
    requires Lost(w, id, x) && x.phase.Synced? && Own(s, id)
    ensures Lost(Apply(w, s), id, x)
    ensures Apply(w, s).writers[id].phase.Done? && !w.writers[id].phase.Done? ==>
              s == Recheck(id) && Apply(w, s).writers[id].phase == Done(Final(x.key) in w.dir)
    ensures w.writers[id].phase.Done? ==> Apply(w, s).writers[id].phase == w.writers[id].phase
  {
  }

  /** A step of one writer. */
  predicate ByWriter(s: Step) {
    s.Exists? || s.Name? || s.Create? || s.Write? || s.Sync? || s.Error? || s.Rename? || s.Unlink? || s.Recheck?
  }

  lemma FileStepSpares(w: World, s: Step, id: nat)
    requires id in w.writers && (s.Create? || s.Write? || s.Rename? || s.Unlink?) && s.w != id
    ensures id in Apply(w, s).writers && Apply(w, s).writers[id] == w.writers[id]
  {
  }

  lemma WriterStepSpares(w: World, s: Step, id: nat)
    requires id in w.writers && ByWriter(s) && s.w != id
    ensures id in Apply(w, s).writers && Apply(w, s).writers[id] == w.writers[id]
  {
    if s.Create? || s.Write? || s.Rename? || s.Unlink? { FileStepSpares(w, s, id); }
  }

  lemma OtherStepSpares(w: World, s: Step, id: nat)
    requires id in w.writers && s != Crash(w.writers[id].pid) && !Own(s, id)
    requires var p := w.writers[id].phase; p.Synced? || p.RenameFailed? || p.Rechecking? || p.Done?
    ensures id in Apply(w, s).writers && Apply(w, s).writers[id] == w.writers[id]
  {
    if ByWriter(s) && s.w != id { WriterStepSpares(w, s, id); }
  }

  /** A temporary name appears only when a writer of that name creates its file. */
  lemma TempAppears(w: World, s: Step, t: File)
    requires t.Temp? && t !in w.dir && t in Apply(w, s).dir
    ensures s.Create? && s.w in w.writers && w.writers[s.w].phase.Named? && TempOf(w.writers[s.w]) == t
  {
  }

  /** No other writer has the name of the lost file. */
  lemma OtherStepKeepsLost(w: World, s: Step, id: nat, x: Writer)
    requires Apart(w) && Lost(w, id, x) && x.phase.Synced? && s != Crash(x.pid) && !Own(s, id)
    ensures Lost(Apply(w, s), id, x) && Apply(w, s).writers[id] == w.writers[id]
  {
    hide Apply;
    OtherStepSpares(w, s, id);
    if TempOf(x) in Apply(w, s).dir && !w.writers[id].phase.Done? {
      TempAppears(w, s, TempOf(x));
      assert false;
    }
  }

  lemma LostStays(w: World, s: Step, id: nat, x: Writer)
    requires Inv(w) && Lost(w, id, x) && x.phase.Synced? && s != Crash(x.pid)
    ensures Lost(Apply(w, s), id, x)
    ensures Apply(w, s).writers[id].phase.Done? && !w.writers[id].phase.Done? ==>
              s == Recheck(id) && Apply(w, s).writers[id].phase == Done(Final(x.key) in w.dir)
    ensures w.writers[id].phase.Done? ==> Apply(w, s).writers[id].phase == w.writers[id].phase
  {
    hide Apply, DirOk, FinalsOk, TempsOk, Apart, WritersOk, ReadersOk;
    if Own(s, id) { OwnStepKeepsLost(w, s, id, x); } else { OtherStepKeepsLost(w, s, id, x); }
  }

  /** The answer of a put that lost its temporary file is whether its key was
      present when it looked again. */
  ghost predicate Answered(w: World, steps: seq<Step>, id: nat, key: Key, ok: bool) {
    exists k :: 0 <= k < |steps| && steps[k] == Recheck(id) && ok == (Final(key) in Run(w, steps[..k]).dir)
  }

  lemma {:induction false} LostThroughout(w: World, steps: seq<Step>, id: nat)
    requires Inv(w) && id in w.writers && w.writers[id].phase.Synced? && TempOf(w.writers[id]) !in w.dir
    requires Crash(w.writers[id].pid) !in steps
    ensures
      var x, v := w.writers[id], Run(w, steps);
      && Inv(v) && Lost(v, id, x) && Nameless(v, x.phase.ino)
      && (v.writers[id].phase.Done? ==> Answered(w, steps, id, x.key, v.writers[id].phase.ok))
    decreases |steps|
  {
    hide Apply, Inv;
    var x := w.writers[id];
    if steps == [] {
      SyncedNameless(w, id);
    } else {
      var front, s := steps[..|steps| - 1], steps[|steps| - 1];
      var v := Run(w, front);
      LostThroughout(w, front, id);
      StepKeeps(v, s);
      LostStays(v, s, id, x);
      NamelessStays(v, s, x.phase.ino);
      if v.writers[id].phase.Done? {
        var k :| 0 <= k < |front| && front[k] == Recheck(id)
                 && v.writers[id].phase.ok == (Final(x.key) in Run(w, front[..k]).dir);
        assert steps[k] == front[k] && steps[..k] == front[..k];
      }
    }
  }

  lemma SyncedNameless(w: World, id: nat)
    requires Inv(w) && id in w.writers && w.writers[id].phase.Synced? && TempOf(w.writers[id]) !in w.dir
    ensures Nameless(w, w.writers[id].phase.ino)
  {
    assert WriterOk(w, w.writers[id]);
  }

  /** A put that loses its temporary file before its rename, whatever happens in
      between: its file never gets a name, and it answers, if it lives to, whether
      the key was present when it looked again; an Ok then leaves the complete
      payload of some put of that key. */
  lemma LostTempIsNeverTorn(before: seq<Step>, steps: seq<Step>, id: nat)
    requires id in Run(Empty, before).writers && Run(Empty, before).writers[id].phase.Synced?
    requires TempOf(Run(Empty, before).writers[id]) !in Run(Empty, before).dir
    requires Crash(Run(Empty, before).writers[id].pid) !in steps
    ensures
      var w := Run(Empty, before);
      var x, v := w.writers[id], Run(w, steps);
      && (forall f :: f in v.dir ==> v.dir[f] != x.phase.ino)
      && id in v.writers
      && (v.writers[id].phase.Done? ==>
            && Answered(w, steps, id, x.key, v.writers[id].phase.ok)
            && (v.writers[id].phase.ok ==>
                  && Final(x.key) in v.dir && v.dir[Final(x.key)] in v.data
                  && (x.key, v.data[v.dir[Final(x.key)]]) in v.puts))
  {
    hide Apply, DirOk, TempsOk, Apart, ReadersOk;
    RunKeeps(before);
    LostThroughout(Run(Empty, before), steps, id);
    var v := Run(Run(Empty, before), steps);
    assert WriterOk(v, v.writers[id]);
  }

  /** Which is what a sweep of its temporary file does to a put: it is synced as
      before, and no other file is touched. */
  lemma SweepTakesTheTemp(w: World, id: nat)
    requires id in w.writers && HasTemp(w.writers[id].phase)
    ensures
      var x := w.writers[id];
      var v := Apply(w, Sweep(x.key, x.pid, x.phase.serial));
      && v.writers == w.writers && v.data == w.data && TempOf(x) !in v.dir
      && forall f :: f != TempOf(x) ==> (f in v.dir <==> f in w.dir) && (f in v.dir ==> v.dir[f] == w.dir[f])
  {
  }

  /** A put that runs into an error cleans up behind itself and answers: with the
      error, unless it was the rename that failed, then with whether the key is
      there. */
  lemma ErrorIsAnswered(w: World, id: nat)
    requires id in w.writers
    requires var p := w.writers[id].phase; p.Checked? || p.Named? || p.Writing? || p.Synced?
    ensures
      var x := w.writers[id];
      var v := Run(w, [Error(id), Unlink(id, true), Recheck(id)]);
      && id in v.writers && v.writers[id].phase == Done(x.phase.Synced? && Final(x.key) in w.dir)
      && (HasTemp(x.phase) ==> TempOf(x) !in v.dir)
      && forall k :: Final(k) in v.dir <==> Final(k) in w.dir
  {
    RunsThree(w, Error(id), Unlink(id, true), Recheck(id));
    ErrorMoves(w, id);
    hide *;
  }

  lemma ErrorMoves(w: World, id: nat)
    requires id in w.writers
    requires var p := w.writers[id].phase; p.Checked? || p.Named? || p.Writing? || p.Synced?
    ensures
      var x := w.writers[id];
      var v := Apply(Apply(Apply(w, Error(id)), Unlink(id, true)), Recheck(id));
      && id in v.writers && v.writers[id].phase == Done(x.phase.Synced? && Final(x.key) in w.dir)
      && (HasTemp(x.phase) ==> TempOf(x) !in v.dir)
      && forall k :: Final(k) in v.dir <==> Final(k) in w.dir
  {
    var x, p := w.writers[id], w.writers[id].phase;
    var w1 := Apply(w, Error(id));
    assert w1.dir == w.dir && w1.writers[id] == x.(phase := w1.writers[id].phase);
    var w2 := Apply(w1, Unlink(id, true));
    assert w2.dir == if HasTemp(p) then w.dir - {TempOf(x)} else w.dir;
    assert w2.writers[id] == x.(phase := if p.Synced? then Rechecking(p.serial) else Done(false));
  }

  lemma RunsThree(w: World, a: Step, b: Step, c: Step)
    ensures Run(w, [a, b, c]) == Apply(Apply(Apply(w, a), b), c)
  {
    hide Apply;
    assert [a][..0] == [] && [a, b][..1] == [a] && [a, b, c][..2] == [a, b];
    assert Run(w, [a]) == Apply(w, a);
    assert Run(w, [a, b]) == Apply(Apply(w, a), b);
  }

  /** A process that takes the id of a dead one counts from zero again, so it meets
      the temporary names that were left behind. */
  lemma NamesComeBack(w: World, pid: Pid)
    ensures
      var v := Apply(Apply(w, Crash(pid)), StartProcess(pid));
      && pid in v.counters && v.counters[pid] == 0 && v.dir == w.dir
      && forall id :: id in v.writers ==> v.writers[id].pid != pid
  {
  }

  // ------------------------------------------------------------ getting what was put

  /** A reader finds a key exactly when its final file is there as it opens it. */
  lemma OpenFindsIff(w: World, r: nat, k: Key)
    requires r !in w.readers
    ensures
      var v := Apply(w, OpenRead(r, k));
      && r in v.readers && v.readers[r].key == k
      && (v.readers[r].Absent? <==> Final(k) !in w.dir)
      && (v.readers[r].Reading? ==> v.readers[r].ino == w.dir[Final(k)] && v.readers[r].got == [])
  {
  }

  lemma ReaderStays(w: World, s: Step, r: nat)
    requires r in w.readers && w.readers[r].Reading?
    ensures
      var v := Apply(w, s);
      && r in v.readers && v.readers[r].Reading?
      && v.readers[r].key == w.readers[r].key && v.readers[r].ino == w.readers[r].ino
  {
  }

  lemma {:induction false} ReaderStaysThroughout(w: World, steps: seq<Step>, r: nat)
    requires r in w.readers && w.readers[r].Reading?
    ensures
      var v := Run(w, steps);
      && r in v.readers && v.readers[r].Reading?
      && v.readers[r].key == w.readers[r].key && v.readers[r].ino == w.readers[r].ino
    decreases |steps|
  {
    hide Apply;
    if steps != [] {
      ReaderStaysThroughout(w, steps[..|steps| - 1], r);
      ReaderStays(Run(w, steps[..|steps| - 1]), steps[|steps| - 1], r);
    }
  }

  lemma {:induction false} RunsInTurn(w: World, xs: seq<Step>, ys: seq<Step>)
    ensures Run(w, xs + ys) == Run(Run(w, xs), ys)
    decreases |ys|
  {
    hide Apply;
    if ys == [] {
      assert xs + ys == xs;
    } else {
      assert (xs + ys)[..|xs + ys| - 1] == xs + ys[..|ys| - 1];
      RunsInTurn(w, xs, ys[..|ys| - 1]);
    }
  }

  lemma ReadsToTheEnd(w: World, r: nat)
    requires Inv(w) && r in w.readers && w.readers[r].Reading?
    ensures
      var all := w.data[w.readers[r].ino];
      && w.readers[r].got <= all
      && Apply(w, Read(r, |all| - |w.readers[r].got|)).readers[r].got == all
  {
    var rd := w.readers[r];
    assert ReaderOk(w, rd);
    var all := w.data[rd.ino];
    assert rd.got + all[|rd.got|..] == all;
  }

  /** Once a put of a key has answered Ok, with one payload a key, a reader that
      opens the key finds it, and reading to the end gives exactly that payload,
      whatever happens before, in between and since. */
  lemma GetsWhatWasPut(before: seq<Step>, id: nat, r: nat, steps: seq<Step>, b: Bytes)
    requires id in Run(Empty, before).writers && Run(Empty, before).writers[id].phase == Done(true)
    requires r !in Run(Empty, before).readers
    requires
      var k := Run(Empty, before).writers[id].key;
      forall c :: (k, c) in Run(Empty, before + [OpenRead(r, k)] + steps).puts ==> c == b
    ensures
      var k := Run(Empty, before).writers[id].key;
      var w := Run(Empty, before + [OpenRead(r, k)] + steps);
      && r in w.readers && w.readers[r].Reading? && w.readers[r].key == k && w.readers[r].got <= b
      && Apply(w, Read(r, |b| - |w.readers[r].got|)).readers[r].got == b
  {
    hide Apply, Inv;
    var w0 := Run(Empty, before);
    var k := w0.writers[id].key;
    StoreIsSafe(before);
    OpenFindsIff(w0, r, k);
    var through := before + [OpenRead(r, k)];
    assert through[..|before|] == before;
    RunsInTurn(Empty, through, steps);
    ReaderStaysThroughout(Run(Empty, through), steps, r);
    StoreIsSafe(through + steps);
    RunKeeps(through + steps);
    ReadsToTheEnd(Run(Empty, through + steps), r);
  }

  // ------------------------------------------------------------ a put with nothing in its way

  /** What can keep a put from storing its key: an error of its own, the death of its
      process, or the loss of its temporary file. */
  predicate Hinders(s: Step, id: nat, x: Writer) {
    s == Error(id) || s == Crash(x.pid) || (s.Sweep? && s.key == x.key && s.pid == x.pid)
  }

  /** A put that has not failed and will not: its temporary file, if written, is there. */
  ghost predicate OnCourse(w: World, id: nat, x: Writer) {
    && id in w.writers && w.writers[id] == x.(phase := w.writers[id].phase)
    && var p := w.writers[id].phase;
       && (p.Begun? || p.Checked? || p.Named? || p.Writing? || p.Synced? || p == Done(true))
       && (Owns(p) ==> TempOf(w.writers[id]) in w.dir)
  }

  /** How far along a put is. */
  function Stage(p: Phase): nat {
    match p
    case Begun => 0
    case Checked => 1
    case Named(_) => 2
    case Writing(_, _, _) => 3
    case Synced(_, _, _) => 4
    case _ => 5
  }

  /** What the put does next. */
  function NextOf(id: nat, x: Writer): Step {
    match x.phase
    case Begun => Exists(id)
    case Checked => Name(id)
    case Named(_) => Create(id)
    case Writing(_, _, written) =>
      if written < |x.bytes| then Write(id, |x.bytes| - written) else Sync(id)
    case _ => Rename(id)
  }

  predicate Forward(s: Step, id: nat) {
    (s.Exists? || s.Name? || s.Create? || s.Write? || s.Sync? || s.Rename?) && s.w == id
  }

  lemma OwnForward(w: World, s: Step, id: nat, x: Writer)
    requires OnCourse(w, id, x) && Forward(s, id)
    ensures OnCourse(Apply(w, s), id, x) && Stage(w.writers[id].phase) <= Stage(Apply(w, s).writers[id].phase)
  {
  }

  lemma OwnBackward(w: World, s: Step, id: nat, x: Writer)
    requires OnCourse(w, id, x) && (s.Unlink? || s.Recheck?) && s.w == id
    ensures Apply(w, s) == w
  {
  }

  /** No other writer takes the name of its temporary file away. */
  lemma OtherWriterKeepsTemp(w: World, s: Step, id: nat)
    requires Apart(w) && id in w.writers && Owns(w.writers[id].phase) && TempOf(w.writers[id]) in w.dir
    requires ByWriter(s) && s.w != id
    ensures TempOf(w.writers[id]) in Apply(w, s).dir
  {
    assert HasName(w, id);
    assert s.w in w.writers && HasTemp(w.writers[s.w].phase) ==> HasName(w, s.w);
  }

  lemma OtherKeepsCourse(w: World, s: Step, id: nat, x: Writer)
    requires Apart(w) && OnCourse(w, id, x) && !Hinders(s, id, x)
    requires ByWriter(s) ==> s.w != id
    ensures OnCourse(Apply(w, s), id, x) && Apply(w, s).writers[id] == w.writers[id]
  {
    if ByWriter(s) {
      WriterStepSpares(w, s, id);
      if Owns(w.writers[id].phase) { OtherWriterKeepsTemp(w, s, id); }
      hide Apply;
    }
  }

  lemma CourseStep(w: World, s: Step, id: nat, x: Writer)
    requires Inv(w) && OnCourse(w, id, x) && !Hinders(s, id, x)
    ensures OnCourse(Apply(w, s), id, x) && Stage(w.writers[id].phase) <= Stage(Apply(w, s).writers[id].phase)
  {
    hide Apply, OnCourse, DirOk, FinalsOk, TempsOk, Apart, WritersOk, ReadersOk;
    if ByWriter(s) && s.w == id {
      if Forward(s, id) { OwnForward(w, s, id, x); } else if !s.Error? { OwnBackward(w, s, id, x); }
    } else {
      OtherKeepsCourse(w, s, id, x);
    }
  }

  /** From every stage the put's next step is there to be taken, and it advances. */
  lemma NextAdvances(w: World, id: nat, x: Writer)
    requires Inv(w) && OnCourse(w, id, x) && !w.writers[id].phase.Done?
    ensures
      var v := Apply(w, NextOf(id, w.writers[id]));
      id in v.writers && v.writers[id].phase != w.writers[id].phase
  {
    hide DirOk, FinalsOk, TempsOk, Apart, ReadersOk;
    assert WriterOk(w, w.writers[id]);
  }

  lemma {:induction false} CourseThroughout(w: World, steps: seq<Step>, id: nat, x: Writer)
    requires Inv(w) && OnCourse(w, id, x) && forall k :: 0 <= k < |steps| ==> !Hinders(steps[k], id, x)
    ensures Inv(Run(w, steps)) && OnCourse(Run(w, steps), id, x)
    decreases |steps|
  {
    hide Apply, OnCourse, Inv;
    if steps != [] {
      var front := steps[..|steps| - 1];
      CourseThroughout(w, front, id, x);
      CourseStep(Run(w, front), steps[|steps| - 1], id, x);
      StepKeeps(Run(w, front), steps[|steps| - 1]);
    }
  }

  lemma BeginsOnCourse(w: World, id: nat, pid: Pid, key: Key, bytes: Bytes)
    requires id !in w.writers && pid in w.counters
    ensures OnCourse(Apply(w, BeginPut(id, pid, key, bytes)), id, Writer(pid, key, bytes, Begun))
  {
  }

  /** A put that nothing hinders cannot fail, whatever the others do: at every moment
      it has either answered Ok, with its key present, or can take its next step and
      advance by it. */
  lemma UnhinderedPutSucceeds(before: seq<Step>, id: nat, pid: Pid, key: Key, bytes: Bytes, steps: seq<Step>)
    requires id !in Run(Empty, before).writers && pid in Run(Empty, before).counters
    requires forall k :: 0 <= k < |steps| ==> !Hinders(steps[k], id, Writer(pid, key, bytes, Begun))
    ensures
      var w := Run(Apply(Run(Empty, before), BeginPut(id, pid, key, bytes)), steps);
      && id in w.writers && w.writers[id].key == key && w.writers[id].bytes == bytes
      && (if w.writers[id].phase.Done? then w.writers[id].phase == Done(true) && Final(key) in w.dir
          else id in Apply(w, NextOf(id, w.writers[id])).writers
               && Apply(w, NextOf(id, w.writers[id])).writers[id].phase != w.writers[id].phase)
  {
    hide Apply, DirOk, FinalsOk, TempsOk, Apart, ReadersOk;
    var w0 := Run(Empty, before);
    var x := Writer(pid, key, bytes, Begun);
    BeginsOnCourse(w0, id, pid, key, bytes);
    RunKeeps(before);
    StepKeeps(w0, BeginPut(id, pid, key, bytes));
    CourseThroughout(Apply(w0, BeginPut(id, pid, key, bytes)), steps, id, x);
    var w := Run(Apply(w0, BeginPut(id, pid, key, bytes)), steps);
    if w.writers[id].phase.Done? { assert WriterOk(w, w.writers[id]); } else { NextAdvances(w, id, x); }
  }

  // ------------------------------------------------------------ the sweeper's loop

  /** One directory entry as the sweeper finds it: its age if it can be told, and
      whether its removal goes through. */
  datatype Listed = Listed(file: File, regular: bool, age: Option<nat>, removable: bool)

  datatype Listing = Entries(entries: seq<Listed>) | Missing | Unreadable(error: string)

  predicate Sweepable(e: Listed, olderThan: nat) {
    e.file.Temp? && e.regular && e.age.Some? && e.age.value >= olderThan && e.removable
  }

  predicate Swept(listing: seq<Listed>, n: nat, f: File, olderThan: nat)
    requires n <= |listing|
  {
    exists j :: 0 <= j < n && listing[j].file == f && Sweepable(listing[j], olderThan)
  }

  lemma SweptStep(listing: seq<Listed>, n: nat, olderThan: nat)
    requires n < |listing|
    ensures forall f :: Swept(listing, n + 1, f, olderThan) <==>
              Swept(listing, n, f, olderThan) || (f == listing[n].file && Sweepable(listing[n], olderThan))
  {
    forall f | Swept(listing, n, f, olderThan) ensures Swept(listing, n + 1, f, olderThan) {
      var j :| 0 <= j < n && listing[j].file == f && Sweepable(listing[j], olderThan);
      assert Sweepable(listing[j], olderThan);
    }
    if Sweepable(listing[n], olderThan) { assert Swept(listing, n + 1, listing[n].file, olderThan); }
  }

  /** Removes exactly the old temporary files listed, those that will not go
      excepted, counts them, and leaves every final file where it was.  A missing
      directory holds nothing to remove, an unreadable one is an error. */
  method SweepTmpOrphans(dir: map<File, Ino>, listing: Listing, olderThan: nat)
    returns (left: map<File, Ino>, removed: Result<nat, string>)
    ensures removed.Err? <==> listing.Unreadable?
    ensures listing.Unreadable? ==> removed.error == listing.error
    ensures !listing.Entries? ==> left == dir
    ensures listing.Entries? ==> forall f :: f in left <==>
              f in dir && !Swept(listing.entries, |listing.entries|, f, olderThan)
    ensures forall f :: f in left ==> left[f] == dir[f]
    ensures forall k :: Final(k) in dir ==> Final(k) in left
    ensures removed.Ok? ==> removed.value + |left.Keys| == |dir.Keys|
  {
    match listing {
      case Missing => return dir, Ok(0);
      case Unreadable(error) => return dir, Err(error);
      case Entries(entries) =>
        var count;
        left, count := SweepEntries(dir, entries, olderThan);
        removed := Ok(count);
    }
  }

  method SweepEntries(dir: map<File, Ino>, listing: seq<Listed>, olderThan: nat)
    returns (left: map<File, Ino>, removed: nat)
    ensures forall f :: f in left <==> f in dir && !Swept(listing, |listing|, f, olderThan)
    ensures forall f :: f in left ==> left[f] == dir[f]
    ensures forall k :: Final(k) in dir ==> Final(k) in left
    ensures removed + |left.Keys| == |dir.Keys|
  {
    left, removed := dir, 0;
    for k := 0 to |listing|
      invariant forall f :: f in left <==> f in dir && !Swept(listing, k, f, olderThan)
      invariant forall f :: f in left ==> left[f] == dir[f]
      invariant removed + |left.Keys| == |dir.Keys|
    {
      var e := listing[k];
      SweptStep(listing, k, olderThan);
      if Sweepable(e, olderThan) && e.file in left {
        assert left.Keys == (left - {e.file}).Keys + {e.file};
        left := left - {e.file};
        removed := removed + 1;
      }
    }
  }
}
