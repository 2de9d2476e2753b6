/**
 * Overlay candidates against their exact base: the operations applied to the
 * base must reproduce the candidate, and then nothing about them is free.
 */
module CandidateOverlay {
  import opened Wrappers
  import opened Bytes
  import opened GitObject
  import opened Candidate
  import opened CandidateDigest
  import opened CandidateManifest

  type Entries = map<Bytes, Entry>

  // ------------------------------------------------------------ applying operations

  function UpsertedEntry(op: Operation): Entry
    requires op.Upsert?
  {
    Entry(op.path, op.mode, op.blobOid, op.size, op.sha256)
  }

  function Applied(resolved: Entries, op: Operation): Result<Entries, Code> {
    match op
    case Delete(path, mode, oid) =>
      if path !in resolved then Err(DeleteMissing)
      else if !RegularMode(resolved[path].mode) then Err(OverlayModeUnsupported)
      else if resolved[path].mode != mode || resolved[path].blobOid != oid then Err(DeletePreconditionMismatch)
      else Ok(resolved - {path})
    case Upsert(path, mode, oid, _, _, _) =>
      if path in resolved && !RegularMode(resolved[path].mode) then Err(OverlayModeUnsupported)
      else if path in resolved && resolved[path].mode == mode && resolved[path].blobOid == oid then Err(OperationNoop)
      else Ok(resolved[path := UpsertedEntry(op)])
  }

  function AppliedAll(resolved: Entries, ops: seq<Operation>): Result<Entries, Code>
    decreases |ops|
  {
    if ops == [] then Ok(resolved)
    else match Applied(resolved, ops[0])
      case Err(code) => Err(code)
      case Ok(next) => AppliedAll(next, ops[1..])
  }

  method ApplyOperations(base: Entries, ops: seq<Operation>) returns (r: Result<Entries, Code>)
    ensures r == AppliedAll(base, ops)
  {
    hide Applied;
    var resolved := base;
    for k := 0 to |ops|
      invariant AppliedAll(base, ops) == AppliedAll(resolved, ops[k..])
    {
      assert ops[k..][0] == ops[k] && ops[k..][1..] == ops[k + 1..];
      match Applied(resolved, ops[k]) {
        case Err(code) => return Err(code);
        case Ok(next) => resolved := next;
      }
    }
    assert ops[|ops|..] == [];
    return Ok(resolved);
  }

  // ------------------------------------------------------------ the full check

  /** A resolved map: every key names its own well-formed entry.  Keys are taken
      in byte order, as the program's ordered map yields them. */
  function MapListVerdict(env: Env, names: seq<Bytes>, entries: Entries, format: Format): Verdict
    requires forall x :: x in names ==> x in entries
  {
    if names == [] then None
    else
      var path, e := names[0], entries[names[0]];
      First(if path == e.path then None else Some(EntriesMismatch),
      First(PathVerdict(env, e.path),
      First(EntryVerdict(e, format), MapListVerdict(env, names[1..], entries, format))))
  }

  function MapVerdict(env: Env, entries: Entries, format: Format): Verdict {
    if |entries| > MAX_ENTRIES then Some(LimitExceeded)
    else MapListVerdict(env, SortedSet(entries.Keys), entries, format)
  }

  lemma {:induction false} MapListIff(env: Env, names: seq<Bytes>, entries: Entries, format: Format)
    requires forall x :: x in names ==> x in entries
    ensures MapListVerdict(env, names, entries, format).None? <==>
            forall x :: x in names ==>
              entries[x].path == x && PathOk(env, entries[x].path) && EntryOk(entries[x], format)
  {
    hide PathOk, EntryOk, EntryVerdict;
    if names != [] {
      MapListIff(env, names[1..], entries, format);
      EntryIff(entries[names[0]], format);
      assert names == [names[0]] + names[1..];
    }
  }

  /** A resolved map is accepted exactly when it is within the limit and every key
      is the canonical path of its own well-formed entry. */
  lemma MapAcceptedIff(env: Env, entries: Entries, format: Format)
    ensures MapVerdict(env, entries, format).None? <==>
            |entries| <= MAX_ENTRIES
            && forall x :: x in entries ==>
                 entries[x].path == x && PathOk(env, entries[x].path) && EntryOk(entries[x], format)
  {
    hide PathOk, EntryOk, MapListVerdict;
    MapListIff(env, SortedSet(entries.Keys), entries, format);
  }

  /** The map of a list of entries; a later entry replaces an earlier one. */
  function EntryMap(entries: seq<Entry>): Entries {
    if entries == [] then map[]
    else EntryMap(entries[..|entries| - 1])[entries[|entries| - 1].path := entries[|entries| - 1]]
  }

  function AgainstMaps(env: Env, m: Manifest, base: Option<Entries>, candidate: Entries): Verdict {
    var advertised := EntryMap(m.candidate.entries);
    First(ManifestVerdict(env, m),
    First(MapVerdict(env, candidate, m.format),
          if candidate != advertised then Some(EntriesMismatch)
          else if !m.candidate.Overlay? then None
          else if base.None? then Some(BaseCommitMissing)
          else
            First(MapVerdict(env, base.value, m.format),
                  match AppliedAll(base.value, m.candidate.operations)
                  case Err(code) => Some(code)
                  case Ok(resolved) => if resolved == advertised then None else Some(EntriesMismatch))))
  }

  method ValidateAgainstMaps(env: Env, m: Manifest, base: Option<Entries>, candidate: Entries) returns (v: Verdict)
    ensures v == AgainstMaps(env, m, base, candidate)
  {
    hide ManifestVerdict, MapVerdict, EntryMap, AppliedAll;
    v := ValidateManifest(env, m);
    if v.Some? { return; }
    v := MapVerdict(env, candidate, m.format);
    if v.Some? { return; }
    var advertised := EntryMap(m.candidate.entries);
    if candidate != advertised { return Some(EntriesMismatch); }
    if !m.candidate.Overlay? { return None; }
    if base.None? { return Some(BaseCommitMissing); }
    v := MapVerdict(env, base.value, m.format);
    if v.Some? { return; }
    var resolved := ApplyOperations(base.value, m.candidate.operations);
    match resolved {
      case Err(code) => return Some(code);
      case Ok(entries) => if entries != advertised { return Some(EntriesMismatch); }
    }
    return None;
  }

  // ------------------------------------------------------------ what an operation did

  function Lookup(entries: Entries, path: Bytes): Option<Entry> {
    if path in entries then Some(entries[path]) else None
  }

  /** One operation, read off the maps before and after all of them. */
  ghost predicate Did(base: Entries, after: Entries, op: Operation) {
    match op
    case Delete(path, mode, oid) =>
      path in base && RegularMode(base[path].mode) && base[path].mode == mode && base[path].blobOid == oid
      && path !in after
    case Upsert(path, mode, oid, _, _, _) =>
      (path in base ==> RegularMode(base[path].mode) && !(base[path].mode == mode && base[path].blobOid == oid))
      && path in after && after[path] == UpsertedEntry(op)
  }

  lemma {:induction false} AppliedAllDid(base: Entries, ops: seq<Operation>)
    requires Ascending(OperationPaths(ops)) && AppliedAll(base, ops).Ok?
    ensures
      var after := AppliedAll(base, ops).value;
      && (forall op :: op in ops ==> Did(base, after, op))
      && (forall p :: p !in OperationPaths(ops) ==> Lookup(after, p) == Lookup(base, p))
    decreases |ops|
  {
    hide RegularMode;
    if ops != [] {
      var op, rest := ops[0], ops[1..];
      var next := Applied(base, op).value;
      var after := AppliedAll(base, ops).value;
      var paths := OperationPaths(ops);
      assert paths[1..] == OperationPaths(rest);
      AppliedAllDid(next, rest);
      InTail(paths, op.path);
      assert Lookup(after, op.path) == Lookup(next, op.path);
      forall o | o in ops ensures Did(base, after, o) {
        if o != op {
          assert o in rest;
          var k :| 0 <= k < |rest| && rest[k] == o;
          assert paths[k + 1] == o.path && Less(paths[0], paths[k + 1]);
          LessIrreflexive(o.path);
          assert Lookup(next, o.path) == Lookup(base, o.path);
        }
      }
      forall p | p !in paths ensures Lookup(after, p) == Lookup(base, p) {
        InTail(paths, p);
        assert paths[0] in paths;
      }
    }
  }

  /** The operations touch exactly the paths where base and candidate differ. */
  lemma OperationsAreTheDifference(base: Entries, ops: seq<Operation>, after: Entries)
    requires Ascending(OperationPaths(ops)) && AppliedAll(base, ops) == Ok(after)
    ensures forall p :: p in OperationPaths(ops) <==> Lookup(base, p) != Lookup(after, p)
  {
    hide RegularMode, AppliedAll;
    AppliedAllDid(base, ops);
    forall p | p in OperationPaths(ops) ensures Lookup(base, p) != Lookup(after, p) {
      var k :| 0 <= k < |ops| && OperationPaths(ops)[k] == p;
      assert ops[k] in ops;
    }
  }

  lemma SameChange(base: Entries, after: Entries, a: Operation, b: Operation)
    requires Did(base, after, a) && Did(base, after, b) && a.path == b.path
    ensures SameOperation(a, b)
  {
  }

  /** Between the same two maps there is one list of operations, up to payload text. */
  lemma OneDifference(base: Entries, a: seq<Operation>, b: seq<Operation>, after: Entries)
    requires Ascending(OperationPaths(a)) && AppliedAll(base, a) == Ok(after)
    requires Ascending(OperationPaths(b)) && AppliedAll(base, b) == Ok(after)
    ensures SameOperations(a, b)
  {
    hide AppliedAll, Did, SameOperation;
    OperationsAreTheDifference(base, a, after);
    OperationsAreTheDifference(base, b, after);
    AscendingUnique(OperationPaths(a), OperationPaths(b));
    AppliedAllDid(base, a);
    AppliedAllDid(base, b);
    forall k | 0 <= k < |a| ensures SameOperation(a[k], b[k]) {
      assert OperationPaths(a)[k] == OperationPaths(b)[k];
      assert a[k] in a && b[k] in b;
      SameChange(base, after, a[k], b[k]);
    }
  }

  // ------------------------------------------------------------ which differences can be written

  /** A path whose entries differ in something an operation can express. */
  predicate Expressible(base: Entries, after: Entries, p: Bytes) {
    && (p in base ==> RegularMode(base[p].mode))
    && (p in base && p in after ==> base[p].mode != after[p].mode || base[p].blobOid != after[p].blobOid)
  }

  ghost predicate Keyed(entries: Entries) {
    forall p :: p in entries ==> entries[p].path == p
  }

  function Differing(base: Entries, after: Entries): set<Bytes> {
    set p | p in base.Keys + after.Keys && Lookup(base, p) != Lookup(after, p)
  }

  /** The operation for one differing path, with whatever payload it carries. */
  function Change(base: Entries, after: Entries, payload: Bytes -> Payload, p: Bytes): Operation
    requires Lookup(base, p) != Lookup(after, p) && Keyed(base) && Keyed(after)
  {
    if p in after then
      Upsert(after[p].path, after[p].mode, after[p].blobOid, after[p].size, after[p].sha256, payload(p))
    else Delete(base[p].path, base[p].mode, base[p].blobOid)
  }

  function Delta(base: Entries, after: Entries, payload: Bytes -> Payload, paths: seq<Bytes>): seq<Operation>
    requires Keyed(base) && Keyed(after)
    requires forall p :: p in paths ==> Lookup(base, p) != Lookup(after, p)
  {
    if paths == [] then [] else [Change(base, after, payload, paths[0])] + Delta(base, after, payload, paths[1..])
  }

  lemma {:induction false} DeltaPaths(base: Entries, after: Entries, payload: Bytes -> Payload, paths: seq<Bytes>)
    requires Keyed(base) && Keyed(after)
    requires forall p :: p in paths ==> Lookup(base, p) != Lookup(after, p)
    ensures OperationPaths(Delta(base, after, payload, paths)) == paths
  {
    if paths != [] {
      DeltaPaths(base, after, payload, paths[1..]);
      var ops := Delta(base, after, payload, paths);
      assert paths[0] in paths;
      assert ops[0] == Change(base, after, payload, paths[0]) && ops[1..] == Delta(base, after, payload, paths[1..]);
      assert ops[0].path == paths[0];
      assert OperationPaths(ops)[1..] == OperationPaths(ops[1..]);
      assert paths == [paths[0]] + paths[1..];
    }
  }

  /** Applying the operations of the remaining paths to a map that already has the
      others right yields the candidate. */
  lemma {:induction false} DeltaApplies(
      base: Entries, after: Entries, payload: Bytes -> Payload, paths: seq<Bytes>, resolved: Entries)
    requires Keyed(base) && Keyed(after) && Ascending(paths)
    requires forall p :: p in paths ==> Lookup(base, p) != Lookup(after, p) && Expressible(base, after, p)
    requires forall p :: Lookup(resolved, p) == if p in paths then Lookup(base, p) else Lookup(after, p)
    ensures AppliedAll(resolved, Delta(base, after, payload, paths)) == Ok(after)
    decreases |paths|
  {
    hide RegularMode;
    if paths == [] {
      assert resolved == after by {
        forall p ensures p in resolved <==> p in after { assert Lookup(resolved, p) == Lookup(after, p); }
        forall p | p in resolved ensures resolved[p] == after[p] { assert Lookup(resolved, p) == Lookup(after, p); }
      }
    } else {
      var p := paths[0];
      assert p in paths;
      assert Lookup(resolved, p) == Lookup(base, p);
      var next := Applied(resolved, Change(base, after, payload, p)).value;
      forall q ensures Lookup(next, q) == if q in paths[1..] then Lookup(base, q) else Lookup(after, q) {
        InTail(paths, q);
        assert Lookup(resolved, q) == if q in paths then Lookup(base, q) else Lookup(after, q);
      }
      assert forall q :: q in paths[1..] ==> q in paths;
      DeltaApplies(base, after, payload, paths[1..], next);
    }
  }

  /** Some strictly ordered operations turn the base into the candidate exactly
      when every difference is expressible: its base side, if any, is a regular
      file, and not only the size or digest fields changed. */
  lemma DeltaExistsIff(base: Entries, after: Entries, payload: Bytes -> Payload)
    requires Keyed(base) && Keyed(after)
    ensures (exists ops :: Ascending(OperationPaths(ops)) && AppliedAll(base, ops) == Ok(after))
            <==> forall p :: p in Differing(base, after) ==> Expressible(base, after, p)
  {
    hide RegularMode, AppliedAll;
    var paths := SortedSet(Differing(base, after));
    SortedSetAscending(Differing(base, after));
    if ops :| Ascending(OperationPaths(ops)) && AppliedAll(base, ops) == Ok(after) {
      OperationsAreTheDifference(base, ops, after);
      AppliedAllDid(base, ops);
      forall p | p in Differing(base, after) ensures Expressible(base, after, p) {
        assert p in OperationPaths(ops);
        var k :| 0 <= k < |ops| && OperationPaths(ops)[k] == p;
        assert ops[k] in ops;
      }
    }
    if forall p :: p in Differing(base, after) ==> Expressible(base, after, p) {
      DeltaPaths(base, after, payload, paths);
      forall p | p !in paths ensures Lookup(base, p) == Lookup(after, p) {
        if p in base || p in after { assert p !in Differing(base, after); }
      }
      DeltaApplies(base, after, payload, paths, base);
    }
  }

  // ------------------------------------------------------------ the theorem on manifests

  ghost predicate Resolves(env: Env, m: Manifest, base: Entries, candidate: Entries) {
    m.candidate.Overlay? && AgainstMaps(env, m, Some(base), candidate).None?
  }

  lemma ResolvesMeans(env: Env, m: Manifest, base: Entries, candidate: Entries)
    requires Resolves(env, m, base, candidate)
    ensures m.candidate.Overlay? && Accepted(env, m)
    ensures OperationsOk(env, m.candidate.operationCount, m.candidate.operations, m.format)
    ensures EntryMap(m.candidate.entries) == candidate
    ensures AppliedAll(base, m.candidate.operations) == Ok(candidate)
  {
    hide ManifestVerdict, MapVerdict, EntryMap, AppliedAll, OperationsOk, EntriesOk, TreeOidOf, SnapshotDigest,
         ManifestDigest, SCHEMA_V1;
    AcceptedMeans(env, m);
  }

  /** An overlay that resolves lists exactly the paths where base and candidate
      differ. */
  lemma OverlayListsTheDifference(env: Env, m: Manifest, base: Entries, candidate: Entries)
    requires Resolves(env, m, base, candidate)
    ensures forall p :: p in OperationPaths(m.candidate.operations) <==> Lookup(base, p) != Lookup(candidate, p)
  {
    hide Resolves, Accepted, AppliedAll, PathOk, OperationOk, EntryMap, Lookup, TotalPayload;
    ResolvesMeans(env, m, base, candidate);
    OperationsAreTheDifference(base, m.candidate.operations, candidate);
  }

  /** Two overlays that resolve the same base to the same candidate carry the same
      operations, payload texts included, unless SHA-256 collides on payloads. */
  lemma OverlayIsCanonical(env: Env, a: Manifest, b: Manifest, base: Entries, candidate: Entries)
    requires Resolves(env, a, base, candidate) && Resolves(env, b, base, candidate) && a.format == b.format
    requires CollisionFree(env.hashes.sha256, Payloads(a.candidate) + Payloads(b.candidate))
    ensures a.candidate.operations == b.candidate.operations
  {
    hide Resolves, Accepted, AppliedAll, PathOk, OperationOk, Payloads, CollisionFree, SameOperation, DecodedPayload,
         EntryMap, TotalPayload;
    ResolvesMeans(env, a, base, candidate);
    ResolvesMeans(env, b, base, candidate);
    OneDifference(base, a.candidate.operations, b.candidate.operations, candidate);
    PayloadsAreListed(env, a.candidate, a.format);
    PayloadsAreListed(env, b.candidate, b.format);
    SamePayloads(env, a.candidate.operations, b.candidate.operations, a.format,
                 Payloads(a.candidate) + Payloads(b.candidate));
  }
}
