/**
 * The build publisher: compile only what the store lacks, and move the
 * latest-green pointer only to an artifact that can be served.
 */
module Publisher {
  import opened Wrappers
  import opened Bytes
  import opened Artifact

  type Key = string

  datatype Outcome = Compiled | Deduplicated | Failed(reason: string)

  function LookupFailed(e: string): string { "CAS lookup failed: " + e }
  function StoreFailed(e: string): string { "CAS store failed: " + e }
  function VerifyFailed(e: string): string { "CAS verify failed: " + e }
  function Absent(): string { "CAS reported store success but artifact is absent" }
  function PointerStuck(e: string): string { "artifact built but could not advance latest-green pointer: " + e }

  /** The compiler's output directory. */
  datatype Dist = Dist(files: Files)

  /** What the world does during one run: the compiler's answer, another process
      storing the key in between, an eviction, and which operations fail. */
  datatype World = World(
    lookup: Option<string>,
    compile: Result<Dist, string>,
    raced: Option<Dist>,
    put: Option<string>,
    evicted: bool,
    verify: Option<string>,
    publish: Option<string>)

  /** The store and the pointer; `calls` lists the keys the compiler was run for,
      and `built` the tree that was packed under each stored key. */
  datatype Shop = Shop(store: map<Key, Bytes>, pointer: Option<Key>, calls: seq<Key>, built: map<Key, Dist>)

  const Bare: Shop := Shop(map[], None, [], map[])

  function Stored(s: Shop, k: Key, dist: Dist): Shop {
    if k in s.store then s else s.(store := s.store[k := Pack(dist.files)], built := s.built[k := dist])
  }

  function Published(s: Shop, k: Key, w: World, outcome: Outcome): (Shop, Outcome) {
    match w.publish
    case None => (s.(pointer := Some(k)), outcome)
    case Some(e) => (s, Failed(PointerStuck(e)))
  }

  /** One build request for the key of its inputs. */
  function Ran(s: Shop, k: Key, w: World): (Shop, Outcome) {
    if w.lookup.Some? then (s, Failed(LookupFailed(w.lookup.value)))
    else if k in s.store then Published(s, k, w, Deduplicated)
    else
      var called := s.(calls := s.calls + [k]);
      if w.compile.Err? then (called, Failed(w.compile.error))
      else
        var raced := if w.raced.Some? then Stored(called, k, w.raced.value) else called;
        if w.put.Some? then (raced, Failed(StoreFailed(w.put.value)))
        else
          var full := Stored(raced, k, w.compile.value);
          var left := if w.evicted then full.(store := full.store - {k}, built := full.built - {k}) else full;
          if w.verify.Some? then (left, Failed(VerifyFailed(w.verify.value)))
          else if k !in left.store then (left, Failed(Absent()))
          else Published(left, k, w, Compiled)
  }

  class BuildOrchestrator {
    var store: map<Key, Bytes>
    var pointer: Option<Key>
    var calls: seq<Key>
    ghost var built: map<Key, Dist>

    ghost function Model(): Shop
      reads this
    {
      Shop(store, pointer, calls, built)
    }

    constructor ()
      ensures Model() == Bare
    {
      store := map[];
      pointer := None;
      calls := [];
      built := map[];
    }

    method Put(k: Key, dist: Dist)
      modifies this`store, this`built
      ensures Model() == Stored(old(Model()), k, dist)
    {
      if k !in store {
        var blob := PackDir(dist.files);
        store := store[k := blob];
        built := built[k := dist];
      }
    }

    method PublishAndReport(k: Key, w: World, green: Outcome) returns (outcome: Outcome)
      modifies this`pointer
      ensures (Model(), outcome) == Published(old(Model()), k, w, green)
    {
      if w.publish.Some? {
        return Failed(PointerStuck(w.publish.value));
      }
      pointer := Some(k);
      outcome := green;
    }

    method Run(k: Key, w: World) returns (outcome: Outcome)
      modifies this
      ensures (Model(), outcome) == Ran(old(Model()), k, w)
    {
      hide Pack, Stored, LookupFailed, StoreFailed, VerifyFailed, Absent, PointerStuck;
      if w.lookup.Some? { return Failed(LookupFailed(w.lookup.value)); }
      if k in store {
        outcome := PublishAndReport(k, w, Deduplicated);
        return;
      }
      calls := calls + [k];
      if w.compile.Err? { return Failed(w.compile.error); }
      if w.raced.Some? { Put(k, w.raced.value); }
      if w.put.Some? { return Failed(StoreFailed(w.put.value)); }
      Put(k, w.compile.value);
      if w.evicted {
        store := store - {k};
        built := built - {k};
      }
      if w.verify.Some? { return Failed(VerifyFailed(w.verify.value)); }
      if k !in store { return Failed(Absent()); }
      outcome := PublishAndReport(k, w, Compiled);
    }
  }

  // ------------------------------------------------------------ whole runs

  datatype Request = Request(key: Key, world: World)

  function AfterAll(s: Shop, rs: seq<Request>): Shop {
    if rs == [] then s else Ran(AfterAll(s, rs[..|rs| - 1]), rs[|rs| - 1].key, rs[|rs| - 1].world).0
  }

  /** The store evicts nothing. */
  predicate NonEvicting(rs: seq<Request>) {
    forall k :: 0 <= k < |rs| ==> !rs[k].world.evicted
  }

  ghost predicate ShopOk(s: Shop) {
    && s.store.Keys == s.built.Keys
    && (forall k :: k in s.store ==> s.store[k] == Pack(s.built[k].files))
    && (s.pointer.Some? ==> s.pointer.value in s.store)
  }

  lemma RanKeeps(s: Shop, k: Key, w: World)
    requires ShopOk(s) && !w.evicted
    ensures ShopOk(Ran(s, k, w).0)
  {
    hide Pack, Stored, ShopOk, LookupFailed, StoreFailed, VerifyFailed, Absent, PointerStuck;
    var called := s.(calls := s.calls + [k]);
    CallsDoNotMatter(s, called);
    if w.raced.Some? { StoredKeeps(called, k, w.raced.value); }
    var raced := if w.raced.Some? then Stored(called, k, w.raced.value) else called;
    if w.compile.Ok? {
      StoredKeeps(raced, k, w.compile.value);
      PublishedKeeps(Stored(raced, k, w.compile.value), k, w, Compiled);
    }
    PublishedKeeps(s, k, w, Deduplicated);
  }

  lemma CallsDoNotMatter(s: Shop, t: Shop)
    requires t == s.(calls := t.calls)
    ensures ShopOk(t) <==> ShopOk(s)
  {
  }

  lemma OtherKeysKept(s: Shop, k: Key, dist: Dist, j: Key)
    requires s.store.Keys == s.built.Keys && j in s.store
    ensures
      var t := Stored(s, k, dist);
      j in t.store && j in t.built && t.store[j] == s.store[j] && t.built[j] == s.built[j]
  {
    hide Pack;
  }

  lemma NewKeyStored(s: Shop, k: Key, dist: Dist)
    requires k !in s.store && s.store.Keys == s.built.Keys
    ensures
      var t := Stored(s, k, dist);
      && t.store.Keys == s.store.Keys + {k} && t.built.Keys == s.built.Keys + {k}
      && t.store[k] == Pack(t.built[k].files) && t.pointer == s.pointer
  {
    hide Pack;
  }

  lemma AlreadyStored(s: Shop, k: Key, dist: Dist)
    requires k in s.store
    ensures Stored(s, k, dist) == s
  {
    hide Pack;
  }

  lemma StoredKeeps(s: Shop, k: Key, dist: Dist)
    requires ShopOk(s)
    ensures ShopOk(Stored(s, k, dist)) && k in Stored(s, k, dist).store
  {
    hide Pack, Stored, ShopOk;
    if k in s.store { AlreadyStored(s, k, dist); } else { NewStoredKeeps(s, k, dist); }
  }

  lemma NewStoredKeeps(s: Shop, k: Key, dist: Dist)
    requires ShopOk(s) && k !in s.store
    ensures ShopOk(Stored(s, k, dist)) && k in Stored(s, k, dist).store
  {
    hide Pack, Stored;
    NewKeyStored(s, k, dist);
    var t := Stored(s, k, dist);
    forall j | j in t.store ensures t.store[j] == Pack(t.built[j].files) {
      if j != k { OtherKeysKept(s, k, dist, j); }
    }
  }

  lemma PublishedKeeps(s: Shop, k: Key, w: World, outcome: Outcome)
    requires ShopOk(s)
    ensures k in s.store ==> ShopOk(Published(s, k, w, outcome).0)
  {
    hide Pack;
  }

  lemma StoredMeans(s: Shop, k: Key, dist: Dist)
    ensures
      var t := Stored(s, k, dist);
      && t.calls == s.calls && t.pointer == s.pointer && k in t.store
      && (forall j :: j in s.store ==> j in t.store && t.store[j] == s.store[j])
  {
    hide Pack;
  }

  /** One run: the compiler is called at most once, only for the requested key and
      only if it is not stored; stored artifacts stay; and the pointer moves exactly
      when the outcome is not a failure, to this run's key, which is stored. */
  lemma RanMeans(s: Shop, k: Key, w: World)
    ensures
      var (t, outcome) := Ran(s, k, w);
      && (t.calls == s.calls || (t.calls == s.calls + [k] && k !in s.store))
      && (outcome.Failed? ==> t.pointer == s.pointer)
      && (!outcome.Failed? ==> t.pointer == Some(k) && k in t.store)
      && (outcome.Deduplicated? ==> k in s.store && t.calls == s.calls)
      && (outcome.Compiled? ==> k !in s.store)
      && (!w.evicted ==> forall j :: j in s.store ==> j in t.store && t.store[j] == s.store[j])
  {
    hide Pack, Stored, LookupFailed, StoreFailed, VerifyFailed, Absent, PointerStuck;
    var called := s.(calls := s.calls + [k]);
    if w.raced.Some? { StoredMeans(called, k, w.raced.value); }
    var raced := if w.raced.Some? then Stored(called, k, w.raced.value) else called;
    if w.compile.Ok? { StoredMeans(raced, k, w.compile.value); }
  }

  /** When a run fails: on a stored key exactly when its lookup or publication does;
      on any other exactly when one of its steps does or the artifact is evicted. */
  predicate Fails(s: Shop, k: Key, w: World) {
    || w.lookup.Some? || w.publish.Some?
    || (k !in s.store && (w.compile.Err? || w.put.Some? || w.verify.Some? || w.evicted))
  }

  /** A run fails exactly then, and otherwise latest-green is its key: found in the
      store if it was there before, else compiled by this run, which calls the
      compiler exactly when the lookup finds nothing. */
  lemma RunFailsIff(s: Shop, k: Key, w: World)
    ensures
      var (t, outcome) := Ran(s, k, w);
      && (outcome.Failed? <==> Fails(s, k, w))
      && (outcome.Deduplicated? <==> !Fails(s, k, w) && k in s.store)
      && (outcome.Compiled? <==> !Fails(s, k, w) && k !in s.store)
      && (!Fails(s, k, w) ==> t.pointer == Some(k) && k in t.store)
      && t.calls == (if w.lookup.None? && k !in s.store then s.calls + [k] else s.calls)
  {
    hide Pack, Stored, LookupFailed, StoreFailed, VerifyFailed, Absent, PointerStuck;
    var called := s.(calls := s.calls + [k]);
    if w.raced.Some? { StoredMeans(called, k, w.raced.value); }
    var raced := if w.raced.Some? then Stored(called, k, w.raced.value) else called;
    if w.compile.Ok? { StoredMeans(raced, k, w.compile.value); }
  }

  lemma StoredIs(s: Shop, k: Key, dist: Dist)
    ensures
      var t := Stored(s, k, dist);
      && (forall j :: j in t.store <==> j in s.store || j == k)
      && (forall j :: j in s.store ==> t.store[j] == s.store[j])
      && (k !in s.store ==> t.store[k] == Pack(dist.files))
  {
    hide Pack;
  }

  /** The store after a run that compiled: with another process's artifact, with its
      own put behind that, and without what was evicted. */
  lemma RanLeaves(s: Shop, k: Key, w: World)
    requires k !in s.store && w.lookup.None? && w.compile.Ok?
    ensures
      var t := Ran(s, k, w).0;
      var raced := if w.raced.Some? then Stored(s, k, w.raced.value) else s;
      var full := Stored(raced, k, w.compile.value);
      t.store == if w.put.Some? then raced.store else if w.evicted then full.store - {k} else full.store
  {
    hide Pack, LookupFailed, StoreFailed, VerifyFailed, Absent, PointerStuck;
  }

  lemma RanLeavesAlone(s: Shop, k: Key, w: World)
    requires k in s.store || w.lookup.Some? || w.compile.Err?
    ensures Ran(s, k, w).0.store == s.store
  {
    hide Pack, LookupFailed, StoreFailed, VerifyFailed, Absent, PointerStuck;
  }

  /** What a run leaves in the store: other keys as they were; its own key as it was
      if it was there; otherwise the artifact of whoever was first to put it, another
      process or this one, unless the compiler or this put failed or it was evicted. */
  lemma RunStores(s: Shop, k: Key, w: World)
    ensures
      var t := Ran(s, k, w).0;
      && (forall j :: j != k ==> (j in t.store <==> j in s.store) && (j in t.store ==> t.store[j] == s.store[j]))
      && (k in s.store ==> k in t.store && t.store[k] == s.store[k])
      && (k !in s.store ==>
            && (k in t.store <==> w.lookup.None? && w.compile.Ok?
                                  && (if w.put.Some? then w.raced.Some? else !w.evicted))
            && (k in t.store ==>
                  t.store[k] == Pack((if w.raced.Some? then w.raced.value else w.compile.value).files)))
  {
    hide Pack, Stored, Ran;
    if k in s.store || w.lookup.Some? || w.compile.Err? {
      RanLeavesAlone(s, k, w);
    } else {
      RanLeaves(s, k, w);
      if w.raced.Some? { StoredIs(s, k, w.raced.value); }
      StoredIs(if w.raced.Some? then Stored(s, k, w.raced.value) else s, k, w.compile.value);
    }
  }

  lemma Reasons(e: string)
    ensures LookupFailed(e) == "CAS lookup failed: " + e && StoreFailed(e) == "CAS store failed: " + e
    ensures VerifyFailed(e) == "CAS verify failed: " + e
    ensures Absent() == "CAS reported store success but artifact is absent"
    ensures PointerStuck(e) == "artifact built but could not advance latest-green pointer: " + e
  {
  }

  /** The reason of a failure is the compiler's own error, or names the step that
      failed and carries its error; an earlier failure hides a later one. */
  lemma FailureNamesItsStep(s: Shop, k: Key, w: World, e: string)
    ensures
      var outcome := Ran(s, k, w).1;
      && (w.lookup == Some(e) ==> outcome == Failed("CAS lookup failed: " + e))
      && (w.lookup.None? && k !in s.store ==>
            && (w.compile == Err(e) ==> outcome == Failed(e))
            && (w.compile.Ok? && w.put == Some(e) ==> outcome == Failed("CAS store failed: " + e))
            && (w.compile.Ok? && w.put.None? ==>
                  && (w.verify == Some(e) ==> outcome == Failed("CAS verify failed: " + e))
                  && (w.verify.None? && w.evicted ==>
                        outcome == Failed("CAS reported store success but artifact is absent"))))
      && (w.publish == Some(e) && !Fails(s, k, w.(publish := None)) ==>
            outcome == Failed("artifact built but could not advance latest-green pointer: " + e))
  {
    Reasons(e);
    hide Pack, Stored, LookupFailed, StoreFailed, VerifyFailed, Absent, PointerStuck;
    var called := s.(calls := s.calls + [k]);
    if w.raced.Some? { StoredMeans(called, k, w.raced.value); }
    var raced := if w.raced.Some? then Stored(called, k, w.raced.value) else called;
    if w.compile.Ok? { StoredMeans(raced, k, w.compile.value); }
  }

  function Calls(calls: seq<Key>, k: Key): nat {
    if calls == [] then 0 else Calls(calls[..|calls| - 1], k) + (if calls[|calls| - 1] == k then 1 else 0)
  }

  lemma CallsAppend(calls: seq<Key>, j: Key, k: Key)
    ensures Calls(calls + [j], k) == Calls(calls, k) + (if j == k then 1 else 0)
  {
    assert (calls + [j])[..|calls|] == calls;
  }

  /** Once a key is stored no later request runs the compiler for it, and its
      bytes never change. */
  lemma {:induction false} NeverRecompiled(s: Shop, rs: seq<Request>, k: Key)
    requires k in s.store && NonEvicting(rs)
    ensures
      var t := AfterAll(s, rs);
      k in t.store && t.store[k] == s.store[k] && Calls(t.calls, k) == Calls(s.calls, k)
    decreases |rs|
  {
    hide Ran;
    if rs != [] {
      var front, r := rs[..|rs| - 1], rs[|rs| - 1];
      NeverRecompiled(s, front, k);
      var t := AfterAll(s, front);
      RanMeans(t, r.key, r.world);
      CallsAppend(t.calls, r.key, k);
    }
  }

  lemma {:induction false} RunsKeep(rs: seq<Request>)
    requires NonEvicting(rs)
    ensures ShopOk(AfterAll(Bare, rs))
    decreases |rs|
  {
    hide Ran;
    if rs != [] {
      RunsKeep(rs[..|rs| - 1]);
      RanKeeps(AfterAll(Bare, rs[..|rs| - 1]), rs[|rs| - 1].key, rs[|rs| - 1].world);
    }
  }

  // ------------------------------------------------------------ reading it back

  /** Which reads fail: an unreadable or corrupt pointer, an unreadable store. */
  datatype Reads = Reads(pointer: Option<string>, get: Option<string>)

  const Readable := Reads(None, None)

  datatype Materialized =
    | NoGreen
    | Evicted(key: Key)
    | Materialized(key: Key)
    | Unreadable(error: string)
    | Broken(failure: Failure)

  ghost function Materialize(s: Shop, w: Reads, isUtf8: Bytes -> bool, tree: Tree): (Tree, Materialized) {
    if w.pointer.Some? then (tree, Unreadable(w.pointer.value))
    else if s.pointer.None? then (tree, NoGreen)
    else if w.get.Some? then (tree, Unreadable(w.get.value))
    else if s.pointer.value !in s.store then (tree, Evicted(s.pointer.value))
    else match Unpack(isUtf8, s.store[s.pointer.value], tree)
      case (left, None) => (left, Materialized.Materialized(s.pointer.value))
      case (left, Some(f)) => (left, Broken(f))
  }

  method MaterializeLatestGreen(orchestrator: BuildOrchestrator, w: Reads, isUtf8: Bytes -> bool, outDir: Tree)
    returns (tree: Tree, r: Materialized)
    ensures (tree, r) == Materialize(orchestrator.Model(), w, isUtf8, outDir)
    ensures r.NoGreen? || r.Evicted? || r.Unreadable? ==> tree == outDir
    ensures r.Broken? ==> tree == Laid(outDir, Written(isUtf8, orchestrator.store[orchestrator.pointer.value], outDir))
  {
    hide Unpack, Written, Laid;
    if w.pointer.Some? { return outDir, Unreadable(w.pointer.value); }
    if orchestrator.pointer.None? { return outDir, NoGreen; }
    if w.get.Some? { return outDir, Unreadable(w.get.value); }
    var k := orchestrator.pointer.value;
    if k !in orchestrator.store { return outDir, Evicted(k); }
    var failure;
    tree, failure := UnpackArtifact(isUtf8, orchestrator.store[k], outDir);
    r := match failure case None => Materialized.Materialized(k) case Some(f) => Broken(f);
    if failure.Some? { NothingWrittenIff(isUtf8, orchestrator.store[k], outDir); }
  }

  /** What materializing answers: nothing green exactly without a pointer, evicted
      exactly when latest-green names a key that is not stored, and otherwise the key,
      or that its blob is broken; an error in reading either comes first. */
  lemma MaterializeAnswers(s: Shop, w: Reads, isUtf8: Bytes -> bool, tree: Tree)
    ensures
      var (left, r) := Materialize(s, w, isUtf8, tree);
      && (r.NoGreen? <==> w.pointer.None? && s.pointer.None?)
      && (r.Unreadable? <==> w.pointer.Some? || (s.pointer.Some? && w.get.Some?))
      && (forall k :: r == Evicted(k) <==> w == Readable && s.pointer == Some(k) && k !in s.store)
      && (forall k :: r == Materialized.Materialized(k) <==>
            && w == Readable && s.pointer == Some(k) && k in s.store
            && Unpack(isUtf8, s.store[k], tree).1.None?)
  {
    hide Unpack;
  }

  /** Over any sequence of requests on a store that evicts nothing: whatever
      latest-green names is stored, and materializing it lays exactly the packed tree
      over the output directory. */
  lemma PublisherEndToEnd(rs: seq<Request>, isUtf8: Bytes -> bool, tree: Tree)
    requires NonEvicting(rs)
    ensures
      var s := AfterAll(Bare, rs);
      match s.pointer
      case None => Materialize(s, Readable, isUtf8, tree) == (tree, NoGreen)
      case Some(k) =>
        && k in s.store && k in s.built && s.store[k] == Pack(s.built[k].files)
        && (Servable(isUtf8, s.built[k].files, tree) ==>
              Materialize(s, Readable, isUtf8, tree) == (Over(tree, s.built[k].files), Materialized.Materialized(k)))
  {
    hide Ran, Pack, Unpack, Servable, Over;
    RunsKeep(rs);
    var s := AfterAll(Bare, rs);
    if s.pointer.Some? && Servable(isUtf8, s.built[s.pointer.value].files, tree) {
      UnpackInvertsPack(isUtf8, s.built[s.pointer.value].files, tree);
    }
  }

  /** Right after a run that compiled without another process storing the key, the
      tree that is served is the one this run's compiler produced. */
  lemma CompiledIsServed(rs: seq<Request>, k: Key, w: World, isUtf8: Bytes -> bool, tree: Tree)
    requires NonEvicting(rs) && !w.evicted && w.raced.None?
    requires Ran(AfterAll(Bare, rs), k, w).1 == Compiled
    requires Servable(isUtf8, w.compile.value.files, tree)
    ensures Materialize(Ran(AfterAll(Bare, rs), k, w).0, Readable, isUtf8, tree)
            == (Over(tree, w.compile.value.files), Materialized.Materialized(k))
  {
    hide Pack, Unpack, Servable, Over;
    UnpackInvertsPack(isUtf8, w.compile.value.files, tree);
  }
}
