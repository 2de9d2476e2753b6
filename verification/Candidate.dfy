/**
 * Candidate snapshot manifests and the checks that need no repository: every
 * verdict is the code of the first failing check, in the program's order.
 */
module Candidate {
  import opened Wrappers
  import opened Bytes
  import opened GitObject
  import Paths
  import Hex
  import Base64

  datatype TreeRef = TreeRef(commitSha: Text, treeOid: Text)

  datatype Entry = Entry(path: Text, mode: Text, blobOid: Text, size: U64, sha256: Text)

  datatype Payload = Payload(encoding: Text, data: Text)

  datatype Operation =
    | Delete(path: Text, baseMode: Text, baseBlobOid: Text)
    | Upsert(path: Text, mode: Text, blobOid: Text, size: U64, sha256: Text, payload: Payload)

  datatype Snapshot =
    | Tree(commitSha: Text, treeOid: Text, entryCount: U64, entries: seq<Entry>, snapshotDigest: Text)
    | Index(base: TreeRef, treeOid: Text, entryCount: U64, entries: seq<Entry>, snapshotDigest: Text)
    | Overlay(base: TreeRef, treeOid: Text, entryCount: U64, entries: seq<Entry>, snapshotDigest: Text,
              operationCount: U64, operations: seq<Operation>)
  {
    function OpCount(): U64 { if Overlay? then operationCount else 0 }
    function Ops(): seq<Operation> { if Overlay? then operations else [] }
  }

  datatype Manifest = Manifest(
    schema: Text,
    format: Format,
    comparisonBase: TreeRef,
    candidate: Snapshot,
    manifestDigest: Text)

  datatype Code =
    | LimitExceeded | SchemaUnsupported | TreeOidMismatch | SnapshotDigestMismatch | ManifestDigestMismatch
    | EntriesMismatch | BaseCommitMissing | DeleteMissing | OverlayModeUnsupported | DeletePreconditionMismatch
    | OperationNoop | FieldInvalid | PayloadBase64Invalid | EntryDuplicate | EntryOrder | GitlinkUnsupported
    | ModeUnsupported | OperationDuplicate | OperationOrder | PayloadSizeMismatch | PayloadSha256Mismatch
    | PayloadOidMismatch | PathNoncanonical | OidInvalid

  /** The first failing check, or none. */
  type Verdict = Option<Code>

  function First(a: Verdict, b: Verdict): Verdict {
    if a.Some? then a else b
  }

  /** What a check depends on besides its input: the hashes, and whether a text
      is in Unicode normalization form C. */
  datatype Env = Env(hashes: Hashes, isNfc: Text -> bool)

  const MAX_ENTRIES: nat := 1_000_000
  const MAX_OPERATIONS: nat := 65_536
  const MAX_UPSERT_BYTES: nat := 32 * 1024 * 1024
  const MAX_TOTAL_UPSERT_BYTES: nat := 64 * 1024 * 1024
  const MAX_PATH_BYTES: nat := 4096
  const MAX_JSON_INTEGER: nat := 9_007_199_254_740_991

  const SCHEMA_V1: Text := Ascii("cargoless-candidate-snapshot/1")
  const BLOB: Text := Ascii("blob")
  const TREE: Text := Ascii("tree")
  const BASE64: Text := Ascii("base64")
  const SHA256_PREFIX: Text := Ascii("sha256:")
  const DOT: Text := Ascii(".")
  const DOT_DOT: Text := Ascii("..")
  const DOT_GIT: Text := Ascii(".git")

  const REGULAR: Text := Ascii("100644")
  const EXECUTABLE: Text := Ascii("100755")
  const SYMLINK: Text := Ascii("120000")
  const GITLINK: Text := Ascii("160000")

  // ------------------------------------------------------------ single fields

  function Lowered(s: Bytes): Bytes {
    seq(|s|, k requires 0 <= k < |s| => if 65 <= s[k] <= 90 then s[k] + 32 else s[k])
  }

  predicate ComponentOk(c: Bytes) {
    c != [] && c != DOT && c != DOT_DOT && Lowered(c) != DOT_GIT
  }

  predicate PathOk(env: Env, path: Text) {
    && 0 < |path| <= MAX_PATH_BYTES
    && path[0] != Paths.SLASH && path[|path| - 1] != Paths.SLASH
    && (forall k :: 0 <= k < |path| ==> path[k] != 92 && 31 < path[k] != 127)
    && env.isNfc(path)
    && (forall c :: c in Paths.Split(path) ==> ComponentOk(c))
  }

  function PathVerdict(env: Env, path: Text): Verdict {
    if PathOk(env, path) then None else Some(PathNoncanonical)
  }

  predicate IsLowerHex(t: Text) {
    forall k :: 0 <= k < |t| ==> Hex.Nibble(t[k]).Some?
  }

  function OidHexLen(format: Format): nat {
    match format case Sha1 => 40 case Sha256 => 64
  }

  predicate OidOk(oid: Text, format: Format) {
    |oid| == OidHexLen(format) && IsLowerHex(oid)
  }

  function OidVerdict(oid: Text, format: Format): Verdict {
    if OidOk(oid, format) then None else Some(OidInvalid)
  }

  predicate Sha256HexOk(t: Text) { |t| == 64 && IsLowerHex(t) }

  function Sha256HexVerdict(t: Text): Verdict {
    if Sha256HexOk(t) then None else Some(FieldInvalid)
  }

  predicate DigestOk(t: Text) {
    SHA256_PREFIX <= t && Sha256HexOk(t[|SHA256_PREFIX|..])
  }

  function DigestVerdict(t: Text): Verdict {
    if DigestOk(t) then None else Some(FieldInvalid)
  }

  function JsonIntegerVerdict(n: U64): Verdict {
    if n > MAX_JSON_INTEGER then Some(LimitExceeded) else None
  }

  function TreeRefVerdict(r: TreeRef, format: Format): Verdict {
    First(OidVerdict(r.commitSha, format), OidVerdict(r.treeOid, format))
  }

  predicate TreeRefOk(r: TreeRef, format: Format) {
    OidOk(r.commitSha, format) && OidOk(r.treeOid, format)
  }

  // ------------------------------------------------------------ entries

  predicate EntryOk(e: Entry, format: Format) {
    && (e.mode == REGULAR || e.mode == EXECUTABLE || e.mode == SYMLINK)
    && OidOk(e.blobOid, format)
    && e.size <= MAX_JSON_INTEGER
    && Sha256HexOk(e.sha256)
  }

  function EntryVerdict(e: Entry, format: Format): Verdict {
    if e.mode == REGULAR || e.mode == EXECUTABLE || e.mode == SYMLINK then
      First(OidVerdict(e.blobOid, format), First(JsonIntegerVerdict(e.size), Sha256HexVerdict(e.sha256)))
    else if e.mode == GITLINK then Some(GitlinkUnsupported)
    else Some(ModeUnsupported)
  }

  /** How a path must follow the one before it. */
  function OrderVerdict(previous: Option<Text>, path: Text, duplicate: Code, order: Code): Verdict {
    match previous
    case None => None
    case Some(p) => if p == path then Some(duplicate) else if Less(p, path) then None else Some(order)
  }

  function EntryListVerdict(env: Env, previous: Option<Text>, entries: seq<Entry>, format: Format): Verdict
    decreases |entries|
  {
    if entries == [] then None
    else
      var e := entries[0];
      First(PathVerdict(env, e.path),
      First(OrderVerdict(previous, e.path, EntryDuplicate, EntryOrder),
      First(EntryVerdict(e, format),
            EntryListVerdict(env, Some(e.path), entries[1..], format))))
  }

  function EntriesVerdict(env: Env, count: U64, entries: seq<Entry>, format: Format): Verdict {
    if count > MAX_JSON_INTEGER || |entries| > MAX_ENTRIES then Some(LimitExceeded)
    else if count != |entries| then Some(EntriesMismatch)
    else EntryListVerdict(env, None, entries, format)
  }

  function EntryPaths(entries: seq<Entry>): (paths: seq<Bytes>)
    ensures |paths| == |entries| && forall k :: 0 <= k < |paths| ==> paths[k] == entries[k].path
  {
    seq(|entries|, k requires 0 <= k < |entries| => entries[k].path)
  }

  /** What accepted entries are: counted, each well formed, strictly by path. */
  ghost predicate EntriesOk(env: Env, count: U64, entries: seq<Entry>, format: Format) {
    && count == |entries| <= MAX_ENTRIES
    && Ascending(EntryPaths(entries))
    && forall e :: e in entries ==> PathOk(env, e.path) && EntryOk(e, format)
  }

  // ------------------------------------------------------------ operations

  predicate RegularMode(mode: Text) { mode == REGULAR || mode == EXECUTABLE }

  function DecodedPayload(p: Payload): Option<Bytes> {
    if p.encoding != BASE64 then None else Base64.Decode(p.data)
  }

  function PayloadSize(op: Operation): nat {
    if op.Upsert? && DecodedPayload(op.payload).Some? then |DecodedPayload(op.payload).value| else 0
  }

  predicate UpsertOk(env: Env, op: Operation, format: Format)
    requires op.Upsert?
  {
    && RegularMode(op.mode)
    && OidOk(op.blobOid, format)
    && op.size <= MAX_JSON_INTEGER
    && Sha256HexOk(op.sha256)
    && |op.payload.data| <= (MAX_UPSERT_BYTES + 2) / 3 * 4
    && DecodedPayload(op.payload).Some?
    && var bytes := DecodedPayload(op.payload).value;
       && op.size == |bytes| <= MAX_UPSERT_BYTES
       && op.sha256 == Hex.Encode(env.hashes.sha256(bytes))
       && op.blobOid == Hex.Encode(ObjectHash(env.hashes, format, BLOB, bytes))
  }

  predicate OperationOk(env: Env, op: Operation, format: Format) {
    match op
    case Delete(_, mode, oid) => RegularMode(mode) && OidOk(oid, format)
    case Upsert(_, _, _, _, _, _) => UpsertOk(env, op, format)
  }

  function OverlayModeVerdict(mode: Text): Verdict {
    if RegularMode(mode) then None else Some(OverlayModeUnsupported)
  }

  /** The checks on one decoded payload, after `total` bytes of earlier ones. */
  function PayloadVerdict(env: Env, op: Operation, bytes: Bytes, total: nat, format: Format): Verdict
    requires op.Upsert?
  {
    if |bytes| > MAX_UPSERT_BYTES || total + |bytes| > MAX_TOTAL_UPSERT_BYTES then Some(LimitExceeded)
    else if op.size != |bytes| then Some(PayloadSizeMismatch)
    else if Hex.Encode(env.hashes.sha256(bytes)) != op.sha256 then Some(PayloadSha256Mismatch)
    else if Hex.Encode(ObjectHash(env.hashes, format, BLOB, bytes)) != op.blobOid then Some(PayloadOidMismatch)
    else None
  }

  function OperationVerdict(env: Env, op: Operation, total: nat, format: Format): Verdict {
    match op
    case Delete(_, mode, oid) => First(OverlayModeVerdict(mode), OidVerdict(oid, format))
    case Upsert(_, mode, oid, size, sha256, payload) =>
      First(OverlayModeVerdict(mode),
      First(OidVerdict(oid, format),
      First(JsonIntegerVerdict(size),
      First(Sha256HexVerdict(sha256),
            if |payload.data| > (MAX_UPSERT_BYTES + 2) / 3 * 4 then Some(LimitExceeded)
            else match DecodedPayload(payload)
              case None => Some(PayloadBase64Invalid)
              case Some(bytes) => PayloadVerdict(env, op, bytes, total, format)))))
  }

  function OperationListVerdict(env: Env, previous: Option<Text>, total: nat, ops: seq<Operation>,
                                format: Format): Verdict
    decreases |ops|
  {
    if ops == [] then None
    else
      var op := ops[0];
      First(PathVerdict(env, op.path),
      First(OrderVerdict(previous, op.path, OperationDuplicate, OperationOrder),
      First(OperationVerdict(env, op, total, format),
            OperationListVerdict(env, Some(op.path), total + PayloadSize(op), ops[1..], format))))
  }

  function OperationsVerdict(env: Env, count: U64, ops: seq<Operation>, format: Format): Verdict {
    if count > MAX_JSON_INTEGER || |ops| > MAX_OPERATIONS then Some(LimitExceeded)
    else if count != |ops| then Some(EntriesMismatch)
    else if ops == [] then Some(OperationNoop)
    else OperationListVerdict(env, None, 0, ops, format)
  }

  function OperationPaths(ops: seq<Operation>): (paths: seq<Bytes>)
    ensures |paths| == |ops| && forall k :: 0 <= k < |paths| ==> paths[k] == ops[k].path
  {
    seq(|ops|, k requires 0 <= k < |ops| => ops[k].path)
  }

  function TotalPayload(ops: seq<Operation>): nat {
    if ops == [] then 0 else PayloadSize(ops[0]) + TotalPayload(ops[1..])
  }

  ghost predicate OperationsOk(env: Env, count: U64, ops: seq<Operation>, format: Format) {
    && 0 < count == |ops| <= MAX_OPERATIONS
    && Ascending(OperationPaths(ops))
    && (forall op :: op in ops ==> PathOk(env, op.path) && OperationOk(env, op, format))
    && TotalPayload(ops) <= MAX_TOTAL_UPSERT_BYTES
  }

  // ------------------------------------------------------------ what acceptance means

  /** The list follows `previous` in strict path order. */
  ghost predicate Follows(previous: Option<Text>, paths: seq<Bytes>) {
    Ascending(paths) && (previous.Some? && paths != [] ==> Less(previous.value, paths[0]))
  }

  lemma FollowsStep(previous: Option<Text>, paths: seq<Bytes>, p: Text)
    requires paths != [] && p == paths[0]
    ensures Follows(previous, paths) <==>
            (previous.Some? ==> Less(previous.value, paths[0])) && Follows(Some(p), paths[1..])
  {
    if (previous.Some? ==> Less(previous.value, paths[0])) && Follows(Some(p), paths[1..]) {
      forall j, k | 0 <= j < k < |paths| ensures Less(paths[j], paths[k]) {
        if j > 0 {
          assert Less(paths[1..][j - 1], paths[1..][k - 1]);
        } else if k > 1 {
          assert Less(paths[1..][0], paths[1..][k - 1]);
          LessTransitive(paths[0], paths[1], paths[k]);
        }
      }
    }
  }

  lemma FollowsNothing(previous: Option<Text>)
    ensures Follows(previous, [])
  {
  }

  lemma OrderedIff(previous: Option<Text>, path: Text, duplicate: Code, order: Code)
    ensures OrderVerdict(previous, path, duplicate, order).None? <==> (previous.Some? ==> Less(previous.value, path))
  {
    LessIrreflexive(path);
  }

  lemma {:induction false} EntryListIff(env: Env, previous: Option<Text>, entries: seq<Entry>, format: Format)
    ensures EntryListVerdict(env, previous, entries, format).None? <==>
            && Follows(previous, EntryPaths(entries))
            && forall e :: e in entries ==> PathOk(env, e.path) && EntryOk(e, format)
    decreases |entries|
  {
    hide PathOk, EntryOk, OrderVerdict, EntryVerdict;
    if entries != [] {
      var e, rest := entries[0], entries[1..];
      EntryListIff(env, Some(e.path), rest, format);
      OrderedIff(previous, e.path, EntryDuplicate, EntryOrder);
      EntryIff(e, format);
      assert EntryPaths(entries)[1..] == EntryPaths(rest);
      FollowsStep(previous, EntryPaths(entries), e.path);
      assert entries == [e] + rest;
    }
  }

  lemma EntryIff(e: Entry, format: Format)
    ensures EntryVerdict(e, format).None? <==> EntryOk(e, format)
  {
    hide IsLowerHex;
  }

  /** Entries are accepted exactly when they are counted, within the limit, well
      formed, and strictly ascending by path bytes. */
  lemma EntriesAcceptedIff(env: Env, count: U64, entries: seq<Entry>, format: Format)
    ensures EntriesVerdict(env, count, entries, format).None? <==> EntriesOk(env, count, entries, format)
  {
    hide PathOk, EntryOk;
    EntryListIff(env, None, entries, format);
  }

  lemma OperationIff(env: Env, op: Operation, total: nat, format: Format)
    ensures OperationVerdict(env, op, total, format).None? && total <= MAX_TOTAL_UPSERT_BYTES <==>
            OperationOk(env, op, format) && total + PayloadSize(op) <= MAX_TOTAL_UPSERT_BYTES
  {
    hide IsLowerHex, ObjectHash, Hex.Encode, Base64.Decode;
  }

  lemma {:induction false} OperationListIff(env: Env, previous: Option<Text>, total: nat, ops: seq<Operation>,
                                            format: Format)
    requires total <= MAX_TOTAL_UPSERT_BYTES
    ensures OperationListVerdict(env, previous, total, ops, format).None? <==>
            && Follows(previous, OperationPaths(ops))
            && (forall op :: op in ops ==> PathOk(env, op.path) && OperationOk(env, op, format))
            && total + TotalPayload(ops) <= MAX_TOTAL_UPSERT_BYTES
    decreases |ops|
  {
    hide PathOk, OperationOk, OrderVerdict, OperationVerdict, PayloadSize, Follows;
    FollowsNothing(previous);
    assert ops == [] ==> OperationPaths(ops) == [];
    if ops != [] {
      var op, rest := ops[0], ops[1..];
      if total + PayloadSize(op) <= MAX_TOTAL_UPSERT_BYTES {
        OperationListIff(env, Some(op.path), total + PayloadSize(op), rest, format);
      }
      OrderedIff(previous, op.path, OperationDuplicate, OperationOrder);
      OperationIff(env, op, total, format);
      assert OperationPaths(ops)[1..] == OperationPaths(rest);
      FollowsStep(previous, OperationPaths(ops), op.path);
      assert ops == [op] + rest;
    }
  }

  /** Operations are accepted exactly when they are a counted, non-empty, strictly
      ordered list of well-formed changes whose payloads match their hashes. */
  lemma OperationsAcceptedIff(env: Env, count: U64, ops: seq<Operation>, format: Format)
    ensures OperationsVerdict(env, count, ops, format).None? <==> OperationsOk(env, count, ops, format)
  {
    hide PathOk, OperationOk, TotalPayload;
    OperationListIff(env, None, 0, ops, format);
  }

  // ------------------------------------------------------------ the checks as loops

  method ValidateEntries(env: Env, count: U64, entries: seq<Entry>, format: Format) returns (v: Verdict)
    ensures v == EntriesVerdict(env, count, entries, format)
  {
    hide EntryVerdict, PathVerdict;
    if count > MAX_JSON_INTEGER { return Some(LimitExceeded); }
    if |entries| > MAX_ENTRIES { return Some(LimitExceeded); }
    if count != |entries| { return Some(EntriesMismatch); }
    var previous: Option<Text> := None;
    for k := 0 to |entries|
      invariant EntryListVerdict(env, None, entries, format) == EntryListVerdict(env, previous, entries[k..], format)
    {
      var e := entries[k];
      assert entries[k..][0] == e && entries[k..][1..] == entries[k + 1..];
      v := PathVerdict(env, e.path);
      if v.Some? { return; }
      if previous.Some? {
        if previous.value == e.path { return Some(EntryDuplicate); }
        if !Less(previous.value, e.path) { return Some(EntryOrder); }
      }
      previous := Some(e.path);
      v := EntryVerdict(e, format);
      if v.Some? { return; }
    }
    assert entries[|entries|..] == [];
    v := None;
  }

  method ValidateOperations(env: Env, count: U64, ops: seq<Operation>, format: Format) returns (v: Verdict)
    ensures v == OperationsVerdict(env, count, ops, format)
  {
    hide PathVerdict, OperationVerdict;
    if count > MAX_JSON_INTEGER { return Some(LimitExceeded); }
    if |ops| > MAX_OPERATIONS { return Some(LimitExceeded); }
    if count != |ops| { return Some(EntriesMismatch); }
    if ops == [] { return Some(OperationNoop); }
    var total: nat := 0;
    var previous: Option<Text> := None;
    for k := 0 to |ops|
      invariant OperationListVerdict(env, None, 0, ops, format)
                == OperationListVerdict(env, previous, total, ops[k..], format)
    {
      var op := ops[k];
      assert ops[k..][0] == op && ops[k..][1..] == ops[k + 1..];
      v := PathVerdict(env, op.path);
      if v.Some? { return; }
      if previous.Some? {
        if previous.value == op.path { return Some(OperationDuplicate); }
        if !Less(previous.value, op.path) { return Some(OperationOrder); }
      }
      previous := Some(op.path);
      v := OperationVerdict(env, op, total, format);
      if v.Some? { return; }
      total := total + PayloadSize(op);
    }
    assert ops[|ops|..] == [];
    v := None;
  }
}
