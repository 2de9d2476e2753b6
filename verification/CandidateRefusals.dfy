/**
 * Why a candidate is refused: every code names something that is wrong, and
 * nothing that is looked for earlier is.
 */
module CandidateRefusals {
  import opened Wrappers
  import opened Bytes
  import opened GitObject
  import opened Candidate
  import opened CandidateDigest
  import opened GitTree
  import opened CandidateManifest
  import opened CandidateOverlay
  import Hex

  /** What can be wrong with one entry or operation, in the order it is looked for. */
  datatype Fault =
    | BadPath | Repeated | OutOfOrder | Gitlink | BadMode | BadOid | HugeSize | BadSha256
    | LongText | NotBase64 | TooMuch | WrongSize | WrongSha256 | WrongOid

  function Rank(f: Fault): nat {
    match f
    case BadPath => 0
    case Repeated => 1
    case OutOfOrder => 2
    case Gitlink => 3
    case BadMode => 4
    case BadOid => 5
    case HugeSize => 6
    case BadSha256 => 7
    case LongText => 8
    case NotBase64 => 9
    case TooMuch => 10
    case WrongSize => 11
    case WrongSha256 => 12
    case WrongOid => 13
  }

  function EntryCode(f: Fault): Code {
    match f
    case BadPath => PathNoncanonical
    case Repeated => EntryDuplicate
    case OutOfOrder => EntryOrder
    case Gitlink => GitlinkUnsupported
    case BadMode => ModeUnsupported
    case BadOid => OidInvalid
    case HugeSize => LimitExceeded
    case _ => FieldInvalid
  }

  function OperationCode(f: Fault): Code {
    match f
    case BadPath => PathNoncanonical
    case Repeated => OperationDuplicate
    case OutOfOrder => OperationOrder
    case BadMode => OverlayModeUnsupported
    case BadOid => OidInvalid
    case HugeSize => LimitExceeded
    case LongText => LimitExceeded
    case NotBase64 => PayloadBase64Invalid
    case TooMuch => LimitExceeded
    case WrongSize => PayloadSizeMismatch
    case WrongSha256 => PayloadSha256Mismatch
    case WrongOid => PayloadOidMismatch
    case _ => FieldInvalid
  }

  // ------------------------------------------------------------ entries

  ghost predicate EntryHas(env: Env, entries: seq<Entry>, format: Format, k: nat, f: Fault)
    requires k < |entries|
  {
    var e := entries[k];
    match f
    case BadPath => !PathOk(env, e.path)
    case Repeated => k > 0 && e.path == entries[k - 1].path
    case OutOfOrder => k > 0 && Less(e.path, entries[k - 1].path)
    case Gitlink => e.mode == Ascii("160000")
    case BadMode =>
      e.mode != Ascii("100644") && e.mode != Ascii("100755") && e.mode != Ascii("120000") && e.mode != Ascii("160000")
    case BadOid => !OidOk(e.blobOid, format)
    case HugeSize => e.size > 9_007_199_254_740_991
    case BadSha256 => !Sha256HexOk(e.sha256)
    case _ => false
  }

  /** The first fault of the first faulty entry, counting from `from`. */
  ghost predicate EntryBlamed(env: Env, entries: seq<Entry>, format: Format, from: nat, k: nat, f: Fault) {
    && from <= k < |entries| && EntryHas(env, entries, format, k, f)
    && (forall g :: EntryHas(env, entries, format, k, g) ==> Rank(f) <= Rank(g))
    && (forall j: nat, g :: from <= j < k ==> !EntryHas(env, entries, format, j, g))
  }

  function EntryBefore(entries: seq<Entry>, k: nat): Option<Text>
    requires k <= |entries|
  {
    if k == 0 then None else Some(entries[k - 1].path)
  }

  /** One entry on its own. */
  function OneEntry(env: Env, entries: seq<Entry>, format: Format, k: nat): Verdict
    requires k < |entries|
  {
    var e := entries[k];
    First(PathVerdict(env, e.path),
    First(OrderVerdict(EntryBefore(entries, k), e.path, EntryDuplicate, EntryOrder), EntryVerdict(e, format)))
  }

  lemma OneEntryIs(env: Env, entries: seq<Entry>, format: Format, k: nat) returns (f: Fault)
    requires k < |entries|
    ensures
      match OneEntry(env, entries, format, k)
      case None => forall g :: !EntryHas(env, entries, format, k, g)
      case Some(code) =>
        && EntryHas(env, entries, format, k, f) && code == EntryCode(f)
        && forall g :: EntryHas(env, entries, format, k, g) ==> Rank(f) <= Rank(g)
  {
    hide PathOk, IsLowerHex, Ascii, Less;
    var e := entries[k];
    if k > 0 { LessIrreflexive(e.path); LessTotal(e.path, entries[k - 1].path); }
    if !PathOk(env, e.path) { f := BadPath; }
    else if k > 0 && e.path == entries[k - 1].path { f := Repeated; }
    else if k > 0 && Less(e.path, entries[k - 1].path) { f := OutOfOrder; }
    else if EntryHas(env, entries, format, k, BadMode) { f := BadMode; }
    else if EntryHas(env, entries, format, k, Gitlink) { f := Gitlink; LinkModeDiffers(); }
    else if !OidOk(e.blobOid, format) { f := BadOid; }
    else if e.size > 9_007_199_254_740_991 { f := HugeSize; }
    else { f := BadSha256; }
  }

  lemma LinkModeDiffers()
    ensures Ascii("160000") != Ascii("100644") && Ascii("160000") != Ascii("100755")
    ensures Ascii("160000") != Ascii("120000")
  {
    assert Ascii("160000")[1] == 54 && Ascii("100644")[1] == 48 && Ascii("100755")[1] == 48;
    assert Ascii("120000")[1] == 50;
  }

  lemma {:induction false} EntryListBlames(env: Env, entries: seq<Entry>, format: Format, from: nat)
    returns (k: nat, f: Fault)
    requires from <= |entries|
    ensures
      match EntryListVerdict(env, EntryBefore(entries, from), entries[from..], format)
      case None => forall j: nat, g :: from <= j < |entries| ==> !EntryHas(env, entries, format, j, g)
      case Some(code) => EntryBlamed(env, entries, format, from, k, f) && code == EntryCode(f)
    decreases |entries| - from
  {
    hide PathVerdict, OrderVerdict, EntryVerdict, EntryHas;
    k, f := from, BadPath;
    if from < |entries| {
      assert entries[from..][0] == entries[from] && entries[from..][1..] == entries[from + 1..];
      f := OneEntryIs(env, entries, format, from);
      if OneEntry(env, entries, format, from).None? {
        k, f := EntryListBlames(env, entries, format, from + 1);
      }
    }
  }

  /** At most one fault is to blame. */
  lemma EntryBlamedOnce(env: Env, entries: seq<Entry>, format: Format, j: nat, f: Fault, k: nat, g: Fault)
    requires EntryBlamed(env, entries, format, 0, j, f) && EntryBlamed(env, entries, format, 0, k, g)
    ensures j == k && f == g
  {
    hide EntryHas;
  }

  /** Entries are refused for being too many, then for being miscounted, then for the
      first fault, in the order of the checks, of the first entry that has one: the
      code names that fault, and without a fault there is no refusal. */
  lemma EntriesRefusedIff(env: Env, count: U64, entries: seq<Entry>, format: Format)
    ensures
      var v := EntriesVerdict(env, count, entries, format);
      if count > 9_007_199_254_740_991 || |entries| > 1_000_000 then v == Some(LimitExceeded)
      else if count != |entries| then v == Some(EntriesMismatch)
      else
        && (v.None? <==> forall k: nat, f :: k < |entries| ==> !EntryHas(env, entries, format, k, f))
        && (forall code :: v == Some(code) <==>
              exists k, f :: EntryBlamed(env, entries, format, 0, k, f) && code == EntryCode(f))
  {
    hide EntryHas, EntryCode;
    var v := EntriesVerdict(env, count, entries, format);
    if count <= MAX_JSON_INTEGER && |entries| <= MAX_ENTRIES && count == |entries| {
      assert entries[0..] == entries;
      var k, f := EntryListBlames(env, entries, format, 0);
      if v.Some? {
        assert EntryHas(env, entries, format, k, f);
        forall j, g | EntryBlamed(env, entries, format, 0, j, g) ensures j == k && g == f {
          EntryBlamedOnce(env, entries, format, k, f, j, g);
        }
      }
    }
  }

  // ------------------------------------------------------------ operations

  function ModeOf(op: Operation): Text {
    match op case Delete(_, mode, _) => mode case Upsert(_, mode, _, _, _, _) => mode
  }

  function IdOf(op: Operation): Text {
    match op case Delete(_, _, oid) => oid case Upsert(_, _, oid, _, _, _) => oid
  }

  ghost predicate PayloadHas(env: Env, op: Operation, format: Format, before: nat, f: Fault)
    requires op.Upsert? && DecodedPayload(op.payload).Some?
  {
    var bytes := DecodedPayload(op.payload).value;
    match f
    case TooMuch => |bytes| > 33_554_432 || before + |bytes| > 67_108_864
    case WrongSize => op.size != |bytes|
    case WrongSha256 => op.sha256 != Hex.Encode(env.hashes.sha256(bytes))
    case WrongOid => op.blobOid != Hex.Encode(ObjectHash(env.hashes, format, Ascii("blob"), bytes))
    case _ => false
  }

  /** What is wrong with a change itself, after `before` bytes of earlier payloads. */
  ghost predicate ChangeHas(env: Env, op: Operation, format: Format, before: nat, f: Fault) {
    match f
    case BadPath => false
    case Repeated => false
    case OutOfOrder => false
    case Gitlink => false
    case BadMode => ModeOf(op) != Ascii("100644") && ModeOf(op) != Ascii("100755")
    case BadOid => !OidOk(IdOf(op), format)
    case HugeSize => op.Upsert? && op.size > 9_007_199_254_740_991
    case BadSha256 => op.Upsert? && !Sha256HexOk(op.sha256)
    case LongText => op.Upsert? && |op.payload.data| > 44_739_244
    case NotBase64 => op.Upsert? && DecodedPayload(op.payload).None?
    case _ =>
      op.Upsert? && DecodedPayload(op.payload).Some? && PayloadHas(env, op, format, before, f)
  }

  ghost predicate OperationHas(env: Env, ops: seq<Operation>, format: Format, k: nat, f: Fault)
    requires k < |ops|
  {
    var op := ops[k];
    match f
    case BadPath => !PathOk(env, op.path)
    case Repeated => k > 0 && op.path == ops[k - 1].path
    case OutOfOrder => k > 0 && Less(op.path, ops[k - 1].path)
    case _ => ChangeHas(env, op, format, TotalPayload(ops[..k]), f)
  }

  ghost predicate OperationBlamed(env: Env, ops: seq<Operation>, format: Format, from: nat, k: nat, f: Fault) {
    && from <= k < |ops| && OperationHas(env, ops, format, k, f)
    && (forall g :: OperationHas(env, ops, format, k, g) ==> Rank(f) <= Rank(g))
    && (forall j: nat, g :: from <= j < k ==> !OperationHas(env, ops, format, j, g))
  }

  function OperationBefore(ops: seq<Operation>, k: nat): Option<Text>
    requires k <= |ops|
  {
    if k == 0 then None else Some(ops[k - 1].path)
  }

  function OneOperation(env: Env, ops: seq<Operation>, format: Format, k: nat): Verdict
    requires k < |ops|
  {
    var op := ops[k];
    First(PathVerdict(env, op.path),
    First(OrderVerdict(OperationBefore(ops, k), op.path, OperationDuplicate, OperationOrder),
          OperationVerdict(env, op, TotalPayload(ops[..k]), format)))
  }

  lemma {:induction false} TotalSnoc(ops: seq<Operation>, op: Operation)
    ensures TotalPayload(ops + [op]) == TotalPayload(ops) + PayloadSize(op)
    decreases |ops|
  {
    hide PayloadSize;
    if ops == [] {
      assert [op][1..] == [];
    } else {
      assert (ops + [op])[1..] == ops[1..] + [op];
      TotalSnoc(ops[1..], op);
    }
  }

  lemma PayloadIs(env: Env, op: Operation, format: Format, before: nat) returns (f: Fault)
    requires op.Upsert? && DecodedPayload(op.payload).Some?
    ensures
      match PayloadVerdict(env, op, DecodedPayload(op.payload).value, before, format)
      case None => forall g :: !PayloadHas(env, op, format, before, g)
      case Some(code) =>
        && PayloadHas(env, op, format, before, f) && code == OperationCode(f)
        && forall g :: PayloadHas(env, op, format, before, g) ==> Rank(f) <= Rank(g)
  {
    hide Ascii, ObjectHash, Hex.Encode, DecodedPayload;
    if PayloadHas(env, op, format, before, TooMuch) { f := TooMuch; }
    else if PayloadHas(env, op, format, before, WrongSize) { f := WrongSize; }
    else if PayloadHas(env, op, format, before, WrongSha256) { f := WrongSha256; }
    else { f := WrongOid; }
  }

  lemma UpsertIs(env: Env, op: Operation, format: Format, before: nat) returns (f: Fault)
    requires op.Upsert? && RegularMode(op.mode) && OidOk(op.blobOid, format)
    ensures
      match OperationVerdict(env, op, before, format)
      case None => forall g :: !ChangeHas(env, op, format, before, g)
      case Some(code) =>
        && ChangeHas(env, op, format, before, f) && code == OperationCode(f)
        && forall g :: ChangeHas(env, op, format, before, g) ==> Rank(f) <= Rank(g)
  {
    hide IsLowerHex, Ascii, DecodedPayload, PayloadVerdict, PayloadHas;
    if op.size > MAX_JSON_INTEGER { f := HugeSize; }
    else if !Sha256HexOk(op.sha256) { f := BadSha256; }
    else if |op.payload.data| > 44_739_244 { f := LongText; }
    else if DecodedPayload(op.payload).None? { f := NotBase64; }
    else {
      f := PayloadIs(env, op, format, before);
      PayloadFaults(env, op, format, before);
    }
  }

  lemma ChangeIs(env: Env, op: Operation, format: Format, before: nat) returns (f: Fault)
    ensures
      match OperationVerdict(env, op, before, format)
      case None => forall g :: !ChangeHas(env, op, format, before, g)
      case Some(code) =>
        && ChangeHas(env, op, format, before, f) && code == OperationCode(f)
        && forall g :: ChangeHas(env, op, format, before, g) ==> Rank(f) <= Rank(g)
  {
    hide IsLowerHex, Ascii, DecodedPayload, PayloadVerdict, PayloadHas;
    if !RegularMode(ModeOf(op)) { f := BadMode; }
    else if !OidOk(IdOf(op), format) { f := BadOid; }
    else if op.Delete? { f := BadPath; }
    else { f := UpsertIs(env, op, format, before); }
  }

  lemma LaterFaults(env: Env, op: Operation, format: Format, before: nat)
    ensures forall g :: ChangeHas(env, op, format, before, g) ==> Rank(g) > 2
  {
    hide IsLowerHex, Ascii, DecodedPayload, PayloadHas;
  }

  lemma OneOperationIs(env: Env, ops: seq<Operation>, format: Format, k: nat) returns (f: Fault)
    requires k < |ops|
    ensures
      match OneOperation(env, ops, format, k)
      case None => forall g :: !OperationHas(env, ops, format, k, g)
      case Some(code) =>
        && OperationHas(env, ops, format, k, f) && code == OperationCode(f)
        && forall g :: OperationHas(env, ops, format, k, g) ==> Rank(f) <= Rank(g)
  {
    hide PathOk, Less, TotalPayload, ChangeHas, OperationVerdict;
    var op := ops[k];
    LaterFaults(env, op, format, TotalPayload(ops[..k]));
    if k > 0 { LessIrreflexive(op.path); LessTotal(op.path, ops[k - 1].path); }
    if !PathOk(env, op.path) { f := BadPath; }
    else if k > 0 && op.path == ops[k - 1].path { f := Repeated; }
    else if k > 0 && Less(op.path, ops[k - 1].path) { f := OutOfOrder; }
    else { f := ChangeIs(env, op, format, TotalPayload(ops[..k])); }
  }

  lemma PayloadFaults(env: Env, op: Operation, format: Format, before: nat)
    requires op.Upsert? && DecodedPayload(op.payload).Some?
    ensures forall g :: PayloadHas(env, op, format, before, g) ==>
              g.TooMuch? || g.WrongSize? || g.WrongSha256? || g.WrongOid?
  {
  }

  lemma {:induction false} OperationListBlames(env: Env, ops: seq<Operation>, format: Format, from: nat)
    returns (k: nat, f: Fault)
    requires from <= |ops|
    ensures
      match OperationListVerdict(env, OperationBefore(ops, from), TotalPayload(ops[..from]), ops[from..], format)
      case None => forall j: nat, g :: from <= j < |ops| ==> !OperationHas(env, ops, format, j, g)
      case Some(code) => OperationBlamed(env, ops, format, from, k, f) && code == OperationCode(f)
    decreases |ops| - from
  {
    hide PathVerdict, OrderVerdict, OperationVerdict, OperationHas, TotalPayload, PayloadSize;
    k, f := from, BadPath;
    if from < |ops| {
      assert ops[from..][0] == ops[from] && ops[from..][1..] == ops[from + 1..];
      assert ops[..from + 1] == ops[..from] + [ops[from]];
      TotalSnoc(ops[..from], ops[from]);
      f := OneOperationIs(env, ops, format, from);
      if OneOperation(env, ops, format, from).None? {
        k, f := OperationListBlames(env, ops, format, from + 1);
      }
    }
  }

  lemma OperationBlamedOnce(env: Env, ops: seq<Operation>, format: Format, j: nat, f: Fault, k: nat, g: Fault)
    requires OperationBlamed(env, ops, format, 0, j, f) && OperationBlamed(env, ops, format, 0, k, g)
    ensures j == k && f == g
  {
    hide OperationHas;
  }

  lemma NothingTotalled()
    ensures TotalPayload([]) == 0
  {
  }

  /** Operations are refused for being too many, miscounted or none at all, then for
      the first fault of the first operation that has one; a payload's size counts
      towards the total together with those before it. */
  lemma OperationsRefusedIff(env: Env, count: U64, ops: seq<Operation>, format: Format)
    ensures
      var v := OperationsVerdict(env, count, ops, format);
      if count > 9_007_199_254_740_991 || |ops| > 65_536 then v == Some(LimitExceeded)
      else if count != |ops| then v == Some(EntriesMismatch)
      else if ops == [] then v == Some(OperationNoop)
      else
        && (v.None? <==> forall k: nat, f :: k < |ops| ==> !OperationHas(env, ops, format, k, f))
        && (forall code :: v == Some(code) <==>
              exists k, f :: OperationBlamed(env, ops, format, 0, k, f) && code == OperationCode(f))
  {
    hide OperationHas, OperationCode, TotalPayload;
    var v := OperationsVerdict(env, count, ops, format);
    if count <= MAX_JSON_INTEGER && |ops| <= MAX_OPERATIONS && count == |ops| && ops != [] {
      assert ops[0..] == ops && ops[..0] == [];
      NothingTotalled();
      var k, f := OperationListBlames(env, ops, format, 0);
      if v.Some? {
        assert OperationHas(env, ops, format, k, f);
        forall j, g | OperationBlamed(env, ops, format, 0, j, g) ensures j == k && g == f {
          OperationBlamedOnce(env, ops, format, k, f, j, g);
        }
      }
    }
  }

  // ------------------------------------------------------------ manifests

  /** The codes that only a whole manifest can be refused with. */
  predicate OfManifest(code: Code) {
    code.SchemaUnsupported? || code.TreeOidMismatch? || code.SnapshotDigestMismatch? || code.ManifestDigestMismatch?
  }

  lemma FaultCodes(f: Fault)
    ensures !OfManifest(EntryCode(f)) && !OfManifest(OperationCode(f))
  {
  }

  lemma EntryCodes(env: Env, count: U64, entries: seq<Entry>, format: Format)
    ensures EntriesVerdict(env, count, entries, format).Some? ==>
              !OfManifest(EntriesVerdict(env, count, entries, format).value)
  {
    hide EntryCode, EntryListVerdict;
    assert entries[0..] == entries;
    var k, f := EntryListBlames(env, entries, format, 0);
    FaultCodes(f);
  }

  lemma OperationCodes(env: Env, count: U64, ops: seq<Operation>, format: Format)
    ensures OperationsVerdict(env, count, ops, format).Some? ==>
              !OfManifest(OperationsVerdict(env, count, ops, format).value)
  {
    hide OperationCode, OperationListVerdict, TotalPayload;
    assert ops[0..] == ops && ops[..0] == [];
    NothingTotalled();
    var k, f := OperationListBlames(env, ops, format, 0);
    FaultCodes(f);
  }

  lemma ShapeCodes(env: Env, c: Snapshot, format: Format)
    ensures ShapeVerdict(env, c, format).Some? ==> !OfManifest(ShapeVerdict(env, c, format).value)
  {
    hide EntriesVerdict, OperationsVerdict, OidOk, DigestOk;
    EntryCodes(env, c.entryCount, c.entries, format);
    if c.Overlay? { OperationCodes(env, c.operationCount, c.operations, format); }
  }

  lemma TreeCodes(h: Hashes, entries: seq<Entry>, format: Format)
    requires OidsOk(entries, format)
    ensures TreeOidOf(h, entries, format).Err? ==> TreeOidOf(h, entries, format).error == PathNoncanonical
  {
    hide Built;
    BuiltIff(entries, format);
  }

  lemma DigestCodes(h: Hashes, m: Manifest)
    ensures SnapshotDigest(h, m.format, m.candidate).Err? ==>
              SnapshotDigest(h, m.format, m.candidate).error == FieldInvalid
    ensures ManifestDigest(h, m).Err? ==> ManifestDigest(h, m).error == FieldInvalid
  {
    hide FieldsOf, FieldsBytes, Hex.Encode;
  }

  /** A manifest of the right schema and form, its identifiers aside. */
  ghost predicate Formed(env: Env, m: Manifest) {
    m.schema == SCHEMA_V1 && TreeRefOk(m.comparisonBase, m.format)
    && ShapeOk(env, m.candidate, m.format)
  }

  /** A recomputed identifier that is not the advertised one. */
  predicate Differs(computed: Result<Bytes, Code>, advertised: Text) {
    computed.Ok? && computed.value != advertised
  }

  function TreeOf(env: Env, m: Manifest): Result<Bytes, Code> {
    TreeOidOf(env.hashes, m.candidate.entries, m.format)
  }

  function SnapshotOf(env: Env, m: Manifest): Result<Bytes, Code> {
    SnapshotDigest(env.hashes, m.format, m.candidate)
  }

  ghost predicate TreeRight(env: Env, m: Manifest) {
    Formed(env, m) && TreeOf(env, m) == Ok(m.candidate.treeOid)
  }

  ghost predicate SnapshotRight(env: Env, m: Manifest) {
    TreeRight(env, m) && SnapshotOf(env, m) == Ok(m.candidate.snapshotDigest)
  }

  lemma FieldCodes(r: TreeRef, format: Format, digest: Text)
    ensures TreeRefVerdict(r, format) == if TreeRefOk(r, format) then None else Some(OidInvalid)
    ensures DigestVerdict(digest) == if DigestOk(digest) then None else Some(FieldInvalid)
  {
    hide IsLowerHex;
  }

  /** A manifest is refused for its schema exactly when it has another one, and for
      an identifier exactly when it is in form, the identifiers checked before are the
      computed ones, and this one is not: no other failure is reported that way. */
  lemma ManifestRefusedIff(env: Env, m: Manifest)
    ensures ManifestVerdict(env, m) == Some(SchemaUnsupported) <==> m.schema != SCHEMA_V1
    ensures ManifestVerdict(env, m) == Some(TreeOidMismatch) <==>
            Formed(env, m) && Differs(TreeOf(env, m), m.candidate.treeOid)
    ensures ManifestVerdict(env, m) == Some(SnapshotDigestMismatch) <==>
            TreeRight(env, m) && Differs(SnapshotOf(env, m), m.candidate.snapshotDigest)
    ensures ManifestVerdict(env, m) == Some(ManifestDigestMismatch) <==>
            && SnapshotRight(env, m) && DigestOk(m.manifestDigest)
            && Differs(ManifestDigest(env.hashes, m), m.manifestDigest)
  {
    hide ShapeVerdict, ShapeOk, TreeRefVerdict, TreeRefOk, DigestVerdict, DigestOk, TreeOidOf, SnapshotDigest,
         ManifestDigest, SCHEMA_V1;
    ShapeIff(env, m.candidate, m.format);
    ShapeCodes(env, m.candidate, m.format);
    FieldCodes(m.comparisonBase, m.format, m.manifestDigest);
    DigestCodes(env.hashes, m);
    if ShapeOk(env, m.candidate, m.format) {
      ShapeHasIds(env, m.candidate, m.format);
      TreeCodes(env.hashes, m.candidate.entries, m.format);
    }
  }

  lemma ShapeHasIds(env: Env, c: Snapshot, format: Format)
    requires ShapeOk(env, c, format)
    ensures OidsOk(c.entries, format)
  {
    hide PathOk, OidOk, DigestOk, OperationsOk;
  }

  // ------------------------------------------------------------ operations against their base

  /** Why an operation does not fit the base. */
  predicate Misfits(base: Entries, op: Operation, code: Code) {
    match code
    case DeleteMissing => op.Delete? && op.path !in base
    case OverlayModeUnsupported =>
      op.path in base && base[op.path].mode != Ascii("100644") && base[op.path].mode != Ascii("100755")
    case DeletePreconditionMismatch =>
      op.Delete? && op.path in base && RegularMode(base[op.path].mode)
      && (base[op.path].mode != op.baseMode || base[op.path].blobOid != op.baseBlobOid)
    case OperationNoop =>
      op.Upsert? && op.path in base && RegularMode(base[op.path].mode)
      && base[op.path].mode == op.mode && base[op.path].blobOid == op.blobOid
    case _ => false
  }

  lemma AppliedMisfits(resolved: Entries, op: Operation)
    ensures
      match Applied(resolved, op)
      case Ok(_) => forall code :: !Misfits(resolved, op, code)
      case Err(code) => forall c :: Misfits(resolved, op, c) <==> c == code
  {
    hide Ascii;
  }

  /** The first operation that does not fit, and why. */
  ghost predicate MisfitAt(base: Entries, ops: seq<Operation>, k: nat, code: Code) {
    && k < |ops| && Misfits(base, ops[k], code)
    && forall j: nat, c :: j < k ==> !Misfits(base, ops[j], c)
  }

  lemma OthersUnmoved(base: Entries, op: Operation, other: Operation)
    requires Applied(base, op).Ok? && op.path != other.path
    ensures forall code :: Misfits(Applied(base, op).value, other, code) <==> Misfits(base, other, code)
  {
    hide RegularMode, Ascii;
  }

  lemma {:induction false} AppliedAllMisfits(base: Entries, ops: seq<Operation>) returns (k: nat)
    requires Ascending(OperationPaths(ops))
    ensures
      match AppliedAll(base, ops)
      case Ok(_) => forall j: nat, c :: j < |ops| ==> !Misfits(base, ops[j], c)
      case Err(code) => MisfitAt(base, ops, k, code)
    decreases |ops|
  {
    hide Applied, Misfits;
    k := 0;
    if ops != [] {
      AppliedMisfits(base, ops[0]);
      if Applied(base, ops[0]).Ok? {
        var next, rest := Applied(base, ops[0]).value, ops[1..];
        var paths := OperationPaths(ops);
        assert paths[1..] == OperationPaths(rest);
        k := AppliedAllMisfits(next, rest);
        forall j: nat, c | 0 < j < |ops| ensures Misfits(base, ops[j], c) <==> Misfits(next, rest[j - 1], c) {
          assert Less(paths[0], paths[j]);
          LessIrreflexive(paths[0]);
          OthersUnmoved(base, ops[0], ops[j]);
        }
        k := k + 1;
      }
    }
  }

  /** Operations on distinct paths in order apply to their base unless one of them
      does not fit the base itself, as it was before any of them; the first such one
      decides the code. */
  lemma ApplyingFailsIff(base: Entries, ops: seq<Operation>)
    requires Ascending(OperationPaths(ops))
    ensures AppliedAll(base, ops).Ok? <==> forall k: nat, code :: k < |ops| ==> !Misfits(base, ops[k], code)
    ensures forall code :: AppliedAll(base, ops) == Err(code) <==> exists k :: MisfitAt(base, ops, k, code)
  {
    hide Misfits, AppliedAll;
    var k := AppliedAllMisfits(base, ops);
    if AppliedAll(base, ops).Err? {
      forall j, code | MisfitAt(base, ops, j, code) ensures AppliedAll(base, ops) == Err(code) {
        OneReason(base, ops[k]);
        assert j == k;
      }
    }
  }

  lemma OneReason(base: Entries, op: Operation)
    ensures forall c, d :: Misfits(base, op, c) && Misfits(base, op, d) ==> c == d
  {
    hide Ascii, Applied;
    AppliedMisfits(base, op);
  }

  ghost predicate MapOk(env: Env, entries: Entries, format: Format) {
    |entries| <= MAX_ENTRIES
    && forall x :: x in entries ==> entries[x].path == x && PathOk(env, entries[x].path) && EntryOk(entries[x], format)
  }

  /** What the whole check comes to: the manifest is accepted, the candidate map is
      in order and is the advertised one, and for an overlay there is a base, in
      order, that the operations turn into the candidate. */
  lemma AgainstMapsAcceptedIff(env: Env, m: Manifest, base: Option<Entries>, candidate: Entries)
    ensures AgainstMaps(env, m, base, candidate).None? <==>
            && Accepted(env, m) && MapOk(env, candidate, m.format) && candidate == EntryMap(m.candidate.entries)
            && (m.candidate.Overlay? ==>
                  && base.Some? && MapOk(env, base.value, m.format)
                  && AppliedAll(base.value, m.candidate.operations) == Ok(candidate))
  {
    hide ManifestVerdict, MapVerdict, EntryMap, AppliedAll, PathOk, EntryOk;
    MapAcceptedIff(env, candidate, m.format);
    if base.Some? { MapAcceptedIff(env, base.value, m.format); }
  }

  /** An accepted manifest whose candidate map is right is refused for its overlay
      alone: for want of a base exactly when there is none, for an operation exactly
      when one does not fit the base, and as a mismatch exactly when all fit and yet
      lead elsewhere. */
  lemma OverlayRefusedIff(env: Env, m: Manifest, base: Option<Entries>, candidate: Entries)
    requires Accepted(env, m) && m.candidate.Overlay?
    requires MapOk(env, candidate, m.format) && candidate == EntryMap(m.candidate.entries)
    requires base.Some? ==> MapOk(env, base.value, m.format)
    ensures
      var v, ops := AgainstMaps(env, m, base, candidate), m.candidate.operations;
      if base.None? then v == Some(BaseCommitMissing)
      else
        && (v == Some(EntriesMismatch) <==>
              && (forall k: nat, code :: k < |ops| ==> !Misfits(base.value, ops[k], code))
              && AppliedAll(base.value, ops) != Ok(candidate))
        && (forall code :: code != EntriesMismatch ==>
              (v == Some(code) <==> exists k :: MisfitAt(base.value, ops, k, code)))
  {
    hide ManifestVerdict, MapVerdict, EntryMap, AppliedAll, PathOk, EntryOk, Misfits;
    MapAcceptedIff(env, candidate, m.format);
    if base.Some? {
      MapAcceptedIff(env, base.value, m.format);
      AcceptedInOrder(env, m);
      ApplyingFailsIff(base.value, m.candidate.operations);
      NeverMismatch(base.value, m.candidate.operations);
      forall code | code != EntriesMismatch
        ensures AgainstMaps(env, m, base, candidate) == Some(code) <==>
                AppliedAll(base.value, m.candidate.operations) == Err(code)
      {
      }
    }
  }

  lemma AcceptedInOrder(env: Env, m: Manifest)
    requires Accepted(env, m) && m.candidate.Overlay?
    ensures Ascending(OperationPaths(m.candidate.operations))
  {
    hide Accepted, PathOk, OperationOk, TotalPayload, TreeOidOf, SnapshotDigest, ManifestDigest, EntriesOk, SCHEMA_V1;
    AcceptedMeans(env, m);
  }

  lemma NeverMismatch(base: Entries, ops: seq<Operation>)
    ensures forall k :: !MisfitAt(base, ops, k, EntriesMismatch)
  {
  }
}
