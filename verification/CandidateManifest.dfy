/**
 * Whole manifests: acceptance, and what an accepted manifest's identifiers pin
 * down.
 */
module CandidateManifest {
  import opened Wrappers
  import opened Bytes
  import opened GitObject
  import opened Candidate
  import opened CandidateDigest
  import opened GitTree
  import opened GitMerkle
  import opened GitTrie
  import Base64
  import Hex
  import Paths

  // ------------------------------------------------------------ the root tree id

  function TreeOidOf(h: Hashes, entries: seq<Entry>, format: Format): Result<Bytes, Code> {
    match Built(entries, format)
    case Err(code) => Err(code)
    case Ok(root) => Ok(Hex.Encode(Oid(h, format, root)))
  }

  method ComputeCandidateTreeOid(h: Hashes, entries: seq<Entry>, format: Format) returns (r: Result<Bytes, Code>)
    ensures r == TreeOidOf(h, entries, format)
  {
    hide Inserted, Oid, Hex.Encode;
    var root := new TreeNode();
    assert entries[..0] == [];
    for k := 0 to |entries|
      invariant fresh(root.Repr) && root.Valid()
      invariant Built(entries[..k], format) == Ok(root.Model())
    {
      assert entries[..k + 1][..k] == entries[..k];
      var parts := Paths.Split(entries[k].path);
      var failure := root.Insert(parts, entries[k].mode, entries[k].blobOid, format);
      if failure.Some? {
        FailsOnward(entries, k + 1, format);
        return Err(failure.value);
      }
    }
    assert entries[..|entries|] == entries;
    var oid := root.ObjectId(h, format);
    return Ok(Hex.Encode(oid));
  }

  lemma {:induction false} FailsOnward(entries: seq<Entry>, k: nat, format: Format)
    requires k <= |entries| && Built(entries[..k], format).Err?
    ensures Built(entries, format) == Built(entries[..k], format)
    decreases |entries| - k
  {
    hide Inserted;
    if k == |entries| {
      assert entries[..k] == entries;
    } else {
      assert entries[..k + 1][..k] == entries[..k];
      FailsOnward(entries, k + 1, format);
    }
  }

  // ------------------------------------------------------------ acceptance

  function ShapeVerdict(env: Env, c: Snapshot, format: Format): Verdict {
    First(if c.Tree? then OidVerdict(c.commitSha, format) else TreeRefVerdict(c.base, format),
    First(OidVerdict(c.treeOid, format),
    First(EntriesVerdict(env, c.entryCount, c.entries, format),
    First(DigestVerdict(c.snapshotDigest),
          if c.Overlay? then OperationsVerdict(env, c.operationCount, c.operations, format) else None))))
  }

  /** A recomputed identifier against the advertised one. */
  function Matches(computed: Result<Bytes, Code>, advertised: Text, mismatch: Code): Verdict {
    match computed
    case Err(code) => Some(code)
    case Ok(text) => if text == advertised then None else Some(mismatch)
  }

  function ManifestVerdict(env: Env, m: Manifest): Verdict {
    var c := m.candidate;
    First(if m.schema == SCHEMA_V1 then None else Some(SchemaUnsupported),
    First(TreeRefVerdict(m.comparisonBase, m.format),
    First(ShapeVerdict(env, c, m.format),
    First(Matches(TreeOidOf(env.hashes, c.entries, m.format), c.treeOid, TreeOidMismatch),
    First(Matches(SnapshotDigest(env.hashes, m.format, c), c.snapshotDigest, SnapshotDigestMismatch),
    First(DigestVerdict(m.manifestDigest),
          Matches(ManifestDigest(env.hashes, m), m.manifestDigest, ManifestDigestMismatch)))))))
  }

  method ValidateManifest(env: Env, m: Manifest) returns (v: Verdict)
    ensures v == ManifestVerdict(env, m)
  {
    hide EntriesVerdict, OperationsVerdict, TreeRefVerdict, OidVerdict, DigestVerdict, TreeOidOf,
         SnapshotDigest, ManifestDigest, SCHEMA_V1;
    if m.schema != SCHEMA_V1 { return Some(SchemaUnsupported); }
    v := TreeRefVerdict(m.comparisonBase, m.format);
    if v.Some? { return; }
    v := ValidateShape(env, m.candidate, m.format);
    if v.Some? { return; }
    var tree := ComputeCandidateTreeOid(env.hashes, m.candidate.entries, m.format);
    v := Matches(tree, m.candidate.treeOid, TreeOidMismatch);
    if v.Some? { return; }
    var snapshot := ComputeSnapshotDigest(env.hashes, m.format, m.candidate);
    v := Matches(snapshot, m.candidate.snapshotDigest, SnapshotDigestMismatch);
    if v.Some? { return; }
    v := DigestVerdict(m.manifestDigest);
    if v.Some? { return; }
    var manifest := ComputeManifestDigest(env.hashes, m);
    v := Matches(manifest, m.manifestDigest, ManifestDigestMismatch);
  }

  method ValidateShape(env: Env, c: Snapshot, format: Format) returns (v: Verdict)
    ensures v == ShapeVerdict(env, c, format)
  {
    hide EntriesVerdict, OperationsVerdict, TreeRefVerdict, OidVerdict, DigestVerdict;
    v := if c.Tree? then OidVerdict(c.commitSha, format) else TreeRefVerdict(c.base, format);
    if v.Some? { return; }
    v := OidVerdict(c.treeOid, format);
    if v.Some? { return; }
    v := ValidateEntries(env, c.entryCount, c.entries, format);
    if v.Some? { return; }
    v := DigestVerdict(c.snapshotDigest);
    if v.Some? { return; }
    if c.Overlay? { v := ValidateOperations(env, c.operationCount, c.operations, format); }
  }

  ghost predicate Accepted(env: Env, m: Manifest) {
    ManifestVerdict(env, m).None?
  }

  /** A candidate of the right shape: object ids and digests of the right form,
      entries and operations as validation wants them. */
  ghost predicate ShapeOk(env: Env, c: Snapshot, format: Format) {
    && (if c.Tree? then OidOk(c.commitSha, format) else TreeRefOk(c.base, format))
    && OidOk(c.treeOid, format)
    && EntriesOk(env, c.entryCount, c.entries, format)
    && DigestOk(c.snapshotDigest)
    && (c.Overlay? ==> OperationsOk(env, c.operationCount, c.operations, format))
  }

  lemma ShapeIff(env: Env, c: Snapshot, format: Format)
    ensures ShapeVerdict(env, c, format).None? <==> ShapeOk(env, c, format)
  {
    hide EntriesVerdict, OperationsVerdict, OidOk, DigestOk, EntriesOk, OperationsOk;
    EntriesAcceptedIff(env, c.entryCount, c.entries, format);
    if c.Overlay? { OperationsAcceptedIff(env, c.operationCount, c.operations, format); }
  }

  /** A manifest is accepted exactly when it has the schema and shape of version 1
      and each of its three identifiers is the one computed from its content. */
  lemma AcceptedIff(env: Env, m: Manifest)
    ensures Accepted(env, m) <==>
            && m.schema == SCHEMA_V1
            && TreeRefOk(m.comparisonBase, m.format)
            && ShapeOk(env, m.candidate, m.format)
            && TreeOidOf(env.hashes, m.candidate.entries, m.format) == Ok(m.candidate.treeOid)
            && SnapshotDigest(env.hashes, m.format, m.candidate) == Ok(m.candidate.snapshotDigest)
            && DigestOk(m.manifestDigest)
            && ManifestDigest(env.hashes, m) == Ok(m.manifestDigest)
  {
    hide ShapeVerdict, ShapeOk, OidOk, DigestOk, TreeOidOf, SnapshotDigest, ManifestDigest, SCHEMA_V1;
    ShapeIff(env, m.candidate, m.format);
  }

  /** What later results use of it. */
  lemma AcceptedMeans(env: Env, m: Manifest)
    requires Accepted(env, m)
    ensures m.schema == SCHEMA_V1
    ensures EntriesOk(env, m.candidate.entryCount, m.candidate.entries, m.format)
    ensures m.candidate.Overlay? ==> OperationsOk(env, m.candidate.operationCount, m.candidate.operations, m.format)
    ensures Counted(m.candidate)
    ensures TreeOidOf(env.hashes, m.candidate.entries, m.format) == Ok(m.candidate.treeOid)
    ensures SnapshotDigest(env.hashes, m.format, m.candidate) == Ok(m.candidate.snapshotDigest)
    ensures ManifestDigest(env.hashes, m) == Ok(m.manifestDigest)
  {
    hide Accepted, TreeRefOk, OidOk, DigestOk, TreeOidOf, SnapshotDigest, ManifestDigest, SCHEMA_V1;
    AcceptedIff(env, m);
  }

  // ------------------------------------------------------------ the tree id pins down the files

  lemma ModesArePlain(mode: Text)
    requires mode == REGULAR || mode == EXECUTABLE || mode == SYMLINK
    ensures 32 !in mode && mode != DIRECTORY
  {
    assert |DIRECTORY| == 5 && |REGULAR| == 6 && |EXECUTABLE| == 6 && |SYMLINK| == 6;
  }

  lemma {:induction false} PartsAvoid(s: Bytes, c: byte)
    requires c !in s
    ensures forall p :: p in Paths.Split(s) ==> c !in p
  {
    if s != [] {
      assert s == [s[0]] + s[1..];
      PartsAvoid(s[1..], c);
    }
  }

  /** Components of an accepted path are fit to be tree item names. */
  lemma PartsArePlain(env: Env, path: Text)
    requires PathOk(env, path)
    ensures forall p :: p in Paths.Split(path) ==> 0 !in p && Paths.SLASH !in p
  {
    Paths.JoinOfSplit(path);
    assert 0 !in path;
    PartsAvoid(path, 0);
  }

  lemma {:induction false} InsertedNodeOk(node: Node, parts: seq<Bytes>, mode: Text, oid: Text, format: Format)
    requires node.Directory? && parts != [] && NodeOk(node, format) && OidOk(oid, format)
    requires forall p :: p in parts ==> 0 !in p && Paths.SLASH !in p
    requires 32 !in mode && mode != DIRECTORY
    requires Inserted(node, parts, mode, oid, format).Ok?
    ensures NodeOk(Inserted(node, parts, mode, oid, format).value, format)
    decreases |parts|
  {
    hide OidOk, DIRECTORY, Hex.Decode;
    OidDecodes(oid, format);
    assert parts[0] in parts;
    if |parts| > 1 {
      var child := if parts[0] in node.children then node.children[parts[0]] else NoEntries;
      assert forall p :: p in parts[1..] ==> p in parts;
      InsertedNodeOk(child, parts[1..], mode, oid, format);
    }
  }

  lemma {:induction false} BuiltNodeOk(env: Env, entries: seq<Entry>, format: Format)
    requires forall e :: e in entries ==> PathOk(env, e.path) && EntryOk(e, format)
    requires Built(entries, format).Ok?
    ensures NodeOk(Built(entries, format).value, format)
    decreases |entries|
  {
    hide OidOk, PathOk, Inserted, DIRECTORY, REGULAR, EXECUTABLE, SYMLINK;
    if entries != [] {
      var front, e := entries[..|entries| - 1], entries[|entries| - 1];
      assert e in entries && forall d :: d in front ==> d in entries;
      BuiltNodeOk(env, front, format);
      PartsArePlain(env, e.path);
      ModesArePlain(e.mode);
      InsertedNodeOk(Built(front, format).value, Paths.Split(e.path), e.mode, e.blobOid, format);
    }
  }

  /** Everything hashed to compute the tree id of a list of entries. */
  ghost function TreeObjects(h: Hashes, entries: seq<Entry>, format: Format): set<Bytes> {
    match Built(entries, format)
    case Err(_) => {}
    case Ok(root) => Hashed(h, format, root)
  }

  lemma SameRoot(env: Env, es: seq<Entry>, ds: seq<Entry>, format: Format)
    requires forall e :: e in es ==> PathOk(env, e.path) && EntryOk(e, format)
    requires forall e :: e in ds ==> PathOk(env, e.path) && EntryOk(e, format)
    requires FixedLength(env.hashes)
    requires CollisionFree(HashOf(env.hashes, format),
                           TreeObjects(env.hashes, es, format) + TreeObjects(env.hashes, ds, format))
    requires TreeOidOf(env.hashes, es, format).Ok?
    requires TreeOidOf(env.hashes, es, format) == TreeOidOf(env.hashes, ds, format)
    ensures Built(es, format).Ok? && Built(es, format) == Built(ds, format)
  {
    hide PathOk, EntryOk, NodeOk, Hashed, Oid, Built, FixedLength, CollisionFree, Hex.Encode;
    var a, b := Built(es, format).value, Built(ds, format).value;
    BuiltNodeOk(env, es, format);
    BuiltNodeOk(env, ds, format);
    Hex.DecodeOfEncode(Oid(env.hashes, format, a));
    Hex.DecodeOfEncode(Oid(env.hashes, format, b));
    RootDeterminesTree(env.hashes, format, a, b);
  }

  /** One path, mode and blob at every position. */
  predicate SameLeaves(es: seq<Entry>, ds: seq<Entry>) {
    |es| == |ds| &&
    forall k :: 0 <= k < |es| ==>
      es[k].path == ds[k].path && es[k].mode == ds[k].mode && es[k].blobOid == ds[k].blobOid
  }

  lemma SharedLeaf(es: seq<Entry>, ds: seq<Entry>, format: Format, e: Entry) returns (d: Entry)
    requires OidsOk(es, format) && OidsOk(ds, format) && e in es
    requires Built(es, format).Ok? && Built(es, format) == Built(ds, format)
    ensures d in ds && d.path == e.path && d.mode == e.mode && d.blobOid == e.blobOid
  {
    hide OidOk, Built;
    BuiltIff(es, format);
    BuiltIff(ds, format);
    var root := Built(es, format).value;
    assert At(root, Paths.Split(e.path)).Some?;
    d :| d in ds && Paths.Split(d.path) == Paths.Split(e.path);
    Paths.SplitInjective(d.path, e.path);
    OidDecodes(d.blobOid, format);
    OidDecodes(e.blobOid, format);
    HexInjective(d.blobOid, e.blobOid);
  }

  /** Two accepted manifests of one object format with equal tree ids list the
      same paths, modes and blobs, unless two of their tree objects collide. */
  lemma TreeIdPinsFiles(env: Env, a: Manifest, b: Manifest)
    requires Accepted(env, a) && Accepted(env, b)
    requires a.format == b.format && a.candidate.treeOid == b.candidate.treeOid
    requires FixedLength(env.hashes)
    requires CollisionFree(HashOf(env.hashes, a.format),
                           TreeObjects(env.hashes, a.candidate.entries, a.format)
                           + TreeObjects(env.hashes, b.candidate.entries, a.format))
    ensures SameLeaves(a.candidate.entries, b.candidate.entries)
  {
    hide Accepted, PathOk, OidOk, IsLowerHex, TreeOidOf, FixedLength, CollisionFree, TreeObjects, Built, Counted,
         OperationsOk, SnapshotDigest, ManifestDigest, SCHEMA_V1, REGULAR, EXECUTABLE, SYMLINK;
    AcceptedMeans(env, a);
    AcceptedMeans(env, b);
    SameRoot(env, a.candidate.entries, b.candidate.entries, a.format);
    SameTrieSameLeaves(a.candidate.entries, b.candidate.entries, a.format);
  }

  lemma PathsShared(es: seq<Entry>, ds: seq<Entry>, format: Format)
    requires OidsOk(es, format) && OidsOk(ds, format)
    requires Built(es, format).Ok? && Built(es, format) == Built(ds, format)
    ensures forall x :: x in EntryPaths(es) ==> x in EntryPaths(ds)
  {
    hide OidsOk, Built;
    var p := EntryPaths(es);
    forall x | x in p ensures x in EntryPaths(ds) {
      var k :| 0 <= k < |p| && p[k] == x;
      var d := SharedLeaf(es, ds, format, es[k]);
      Listed(ds, d);
    }
  }

  lemma SameTrieSameLeaves(es: seq<Entry>, ds: seq<Entry>, format: Format)
    requires OidsOk(es, format) && OidsOk(ds, format)
    requires Ascending(EntryPaths(es)) && Ascending(EntryPaths(ds))
    requires Built(es, format).Ok? && Built(es, format) == Built(ds, format)
    ensures SameLeaves(es, ds)
  {
    hide OidOk, Built;
    var p, q := EntryPaths(es), EntryPaths(ds);
    PathsShared(es, ds, format);
    PathsShared(ds, es, format);
    AscendingUnique(p, q);
    forall k | 0 <= k < |es|
      ensures es[k].path == ds[k].path && es[k].mode == ds[k].mode && es[k].blobOid == ds[k].blobOid
    {
      assert p[k] == q[k];
      var d := SharedLeaf(es, ds, format, es[k]);
      var j :| 0 <= j < |ds| && ds[j] == d;
      assert q[j] == q[k];
      LessIrreflexive(q[k]);
    }
  }

  lemma Listed(ds: seq<Entry>, d: Entry)
    requires d in ds
    ensures d.path in EntryPaths(ds)
  {
    var j :| 0 <= j < |ds| && ds[j] == d;
    assert EntryPaths(ds)[j] == d.path;
  }

  // ------------------------------------------------------------ the digest pins down the manifest

  /** The decoded payloads of a candidate. */
  ghost function Payloads(c: Snapshot): set<Bytes> {
    set op | op in c.Ops() && op.Upsert? && DecodedPayload(op.payload).Some? :: DecodedPayload(op.payload).value
  }

  ghost function ManifestTexts(m: Manifest): set<Bytes> {
    (match ManifestPreimage(m) case Ok(p) => {p} case Err(_) => {}) + Payloads(m.candidate)
  }

  lemma DigestTextInjective(h: Hashes, p: Bytes, q: Bytes)
    requires DigestText(h, Ok(p)) == DigestText(h, Ok(q))
    ensures h.sha256(p) == h.sha256(q)
  {
    hide Hex.Encode, SHA256_PREFIX;
    SamePrefix(SHA256_PREFIX, Hex.Encode(h.sha256(p)), Hex.Encode(h.sha256(q)));
    Hex.DecodeOfEncode(h.sha256(p));
    Hex.DecodeOfEncode(h.sha256(q));
  }

  /** Upserts that agree but for payload text, both validated, agree in that too. */
  lemma SamePayload(env: Env, a: Operation, b: Operation, format: Format, texts: set<Bytes>)
    requires OperationOk(env, a, format) && OperationOk(env, b, format) && SameOperation(a, b)
    requires a.Upsert? ==> DecodedPayload(a.payload).value in texts && DecodedPayload(b.payload).value in texts
    requires CollisionFree(env.hashes.sha256, texts)
    ensures a == b
  {
    hide Hex.Encode, Base64.Decode, OidOk, IsLowerHex, ObjectHash, BASE64;
    if a.Upsert? {
      var x, y := DecodedPayload(a.payload).value, DecodedPayload(b.payload).value;
      Hex.DecodeOfEncode(env.hashes.sha256(x));
      Hex.DecodeOfEncode(env.hashes.sha256(y));
      assert x == y;
      Base64.OneTextPerPayload(a.payload.data, b.payload.data);
    }
  }

  lemma SamePayloads(env: Env, a: seq<Operation>, b: seq<Operation>, format: Format, texts: set<Bytes>)
    requires SameOperations(a, b)
    requires forall op :: op in a || op in b ==>
               OperationOk(env, op, format) && (op.Upsert? ==> DecodedPayload(op.payload).value in texts)
    requires CollisionFree(env.hashes.sha256, texts)
    ensures a == b
  {
    hide OperationOk, CollisionFree, DecodedPayload;
    forall k | 0 <= k < |a| ensures a[k] == b[k] {
      assert a[k] in a && b[k] in b;
      SamePayload(env, a[k], b[k], format, texts);
    }
  }

  lemma PayloadsAreListed(env: Env, c: Snapshot, format: Format)
    requires c.Overlay? ==> OperationsOk(env, c.operationCount, c.operations, format)
    ensures forall op :: op in c.Ops() ==>
              && OperationOk(env, op, format)
              && (op.Upsert? ==>
                    && DecodedPayload(op.payload).Some?
                    && DecodedPayload(op.payload).value in Payloads(c))
  {
    hide PathOk, DecodedPayload, TotalPayload, OidOk, IsLowerHex, Hex.Encode, ObjectHash;
  }

  /** Two accepted manifests with the same manifest digest are the same manifest,
      payload texts included, unless SHA-256 collides on their preimages or
      payloads. */
  lemma DigestIdentifiesManifest(env: Env, a: Manifest, b: Manifest)
    requires Accepted(env, a) && Accepted(env, b) && a.manifestDigest == b.manifestDigest
    requires CollisionFree(env.hashes.sha256, ManifestTexts(a) + ManifestTexts(b))
    ensures a == b
  {
    hide Accepted, EntriesOk, OperationsOk, TreeOidOf, SnapshotDigest, ManifestPreimage, Payloads, OperationOk,
         DecodedPayload, SCHEMA_V1, Counted;
    AcceptedMeans(env, a);
    AcceptedMeans(env, b);
    var p, q := ManifestPreimage(a).value, ManifestPreimage(b).value;
    DigestTextInjective(env.hashes, p, q);
    assert p in ManifestTexts(a) && q in ManifestTexts(b);
    ManifestPreimageInjective(a, b);
    PayloadsAreListed(env, a.candidate, a.format);
    PayloadsAreListed(env, b.candidate, b.format);
    if a.candidate.Overlay? {
      SamePayloads(env, a.candidate.operations, b.candidate.operations, a.format, ManifestTexts(a) + ManifestTexts(b));
    }
  }
}
