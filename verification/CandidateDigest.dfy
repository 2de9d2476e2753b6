/**
 * The preimages behind a manifest's digests.  They are written field by field,
 * and a reader that inverts the writer shows that equal preimages mean equal
 * manifests, up to what the preimage leaves out.
 */
module CandidateDigest {
  import opened Wrappers
  import opened Bytes
  import opened GitObject
  import opened Records
  import opened Candidate
  import Hex

  // ------------------------------------------------------------ fields in binary

  datatype RefFields = RefFields(commit: Text, tree: Text)

  datatype EntryFields = EntryFields(path: Text, mode: Text, oid: Text, size: U64, sha256: Text)

  datatype OpFields =
    | DeleteFields(path: Text, mode: Text, oid: Text)
    | UpsertFields(path: Text, mode: Text, oid: Text, size: U64, sha256: Text)

  datatype Origin = FromCommit(commit: Text) | FromBase(base: RefFields)

  datatype Fields = Fields(
    format: Text, kind: Text, comparison: RefFields, origin: Origin, tree: Text, digest: Text,
    entryCount: U64, entries: seq<EntryFields>, operationCount: U64, operations: seq<OpFields>)

  const MANIFEST_TAG: Text := Ascii("cargoless-candidate-manifest") + [0] + Ascii("v1") + [0]
  const SNAPSHOT_TAG: Text := Ascii("cargoless-candidate-snapshot") + [0] + Ascii("v1") + [0]

  const SHA1_NAME: Text := Ascii("sha1")
  const SHA256_NAME: Text := Ascii("sha256")
  const INDEX: Text := Ascii("index")
  const OVERLAY: Text := Ascii("overlay")
  const DELETE: Text := Ascii("delete")
  const UPSERT: Text := Ascii("upsert")

  function FormatName(f: Format): Text {
    match f case Sha1 => SHA1_NAME case Sha256 => SHA256_NAME
  }

  function KindName(c: Snapshot): Text {
    match c
    case Tree(_, _, _, _, _) => TREE
    case Index(_, _, _, _, _) => INDEX
    case Overlay(_, _, _, _, _, _, _) => OVERLAY
  }

  function RefOf(r: TreeRef): Option<RefFields> {
    match (Hex.Decode(r.commitSha), Hex.Decode(r.treeOid))
    case (Some(commit), Some(tree)) => Some(RefFields(commit, tree))
    case _ => None
  }

  function EntryOf(e: Entry): Option<EntryFields> {
    match (Hex.Decode(e.blobOid), Hex.Decode(e.sha256))
    case (Some(oid), Some(sha256)) => Some(EntryFields(e.path, e.mode, oid, e.size, sha256))
    case _ => None
  }

  function OpOf(op: Operation): Option<OpFields> {
    match op
    case Delete(path, mode, oid) =>
      (match Hex.Decode(oid) case Some(o) => Some(DeleteFields(path, mode, o)) case None => None)
    case Upsert(path, mode, oid, size, sha256, _) =>
      match (Hex.Decode(oid), Hex.Decode(sha256))
      case (Some(o), Some(s)) => Some(UpsertFields(path, mode, o, size, s))
      case _ => None
  }

  function EntriesOf(es: seq<Entry>): (r: Option<seq<EntryFields>>)
    ensures r.Some? ==> |r.value| == |es|
  {
    if es == [] then Some([])
    else match (EntryOf(es[0]), EntriesOf(es[1..]))
      case (Some(e), Some(rest)) => Some([e] + rest)
      case _ => None
  }

  function OpsOf(ops: seq<Operation>): (r: Option<seq<OpFields>>)
    ensures r.Some? ==> |r.value| == |ops|
  {
    if ops == [] then Some([])
    else match (OpOf(ops[0]), OpsOf(ops[1..]))
      case (Some(op), Some(rest)) => Some([op] + rest)
      case _ => None
  }

  function OriginOf(c: Snapshot): Option<Origin> {
    if c.Tree? then
      (match Hex.Decode(c.commitSha) case Some(commit) => Some(FromCommit(commit)) case None => None)
    else
      match RefOf(c.base) case Some(base) => Some(FromBase(base)) case None => None
  }

  function DigestOf(digest: Text): Option<Text> {
    if !(SHA256_PREFIX <= digest) then None
    else match Hex.Decode(digest[|SHA256_PREFIX|..]) case Some(d) => Some(d) case None => None
  }

  /** Every field of the manifest preimage, or nothing if one is not hexadecimal. */
  function FieldsOf(m: Manifest): Option<Fields> {
    var c := m.candidate;
    match (RefOf(m.comparisonBase), OriginOf(c), Hex.Decode(c.treeOid), DigestOf(c.snapshotDigest),
           EntriesOf(c.entries), OpsOf(c.Ops()))
    case (Some(comparison), Some(origin), Some(tree), Some(digest), Some(entries), Some(ops)) =>
      Some(Fields(FormatName(m.format), KindName(c), comparison, origin, tree, digest,
                  c.entryCount, entries, c.OpCount(), ops))
    case _ => None
  }

  // ------------------------------------------------------------ writing

  function RefBytes(r: RefFields): Bytes { Lp(r.commit) + Lp(r.tree) }

  function EntryBytes(e: EntryFields): Bytes {
    Lp(e.path) + Lp(e.mode) + Lp(e.oid) + U64Bytes(e.size) + Lp(e.sha256)
  }

  function OpBytes(op: OpFields): Bytes {
    match op
    case DeleteFields(path, mode, oid) => Lp(DELETE) + Lp(path) + Lp(mode) + Lp(oid)
    case UpsertFields(path, mode, oid, size, sha256) =>
      Lp(UPSERT) + Lp(path) + Lp(mode) + Lp(oid) + U64Bytes(size) + Lp(sha256)
  }

  function EntriesBytes(es: seq<EntryFields>): Bytes {
    if es == [] then [] else EntryBytes(es[0]) + EntriesBytes(es[1..])
  }

  function OpsBytes(ops: seq<OpFields>): Bytes {
    if ops == [] then [] else OpBytes(ops[0]) + OpsBytes(ops[1..])
  }

  function OriginBytes(o: Origin): Bytes {
    match o
    case FromCommit(commit) => Lp(commit)
    case FromBase(base) => RefBytes(base)
  }

  function HeadBytes(f: Fields): Bytes {
    MANIFEST_TAG + Lp(f.format) + Lp(f.kind) + RefBytes(f.comparison) + OriginBytes(f.origin)
    + Lp(f.tree) + Lp(f.digest)
  }

  function FieldsBytes(f: Fields): Bytes {
    HeadBytes(f) + U64Bytes(f.entryCount) + EntriesBytes(f.entries)
    + U64Bytes(f.operationCount) + OpsBytes(f.operations)
  }

  function ManifestPreimage(m: Manifest): Result<Bytes, Code> {
    match FieldsOf(m)
    case Some(f) => Ok(FieldsBytes(f))
    case None => Err(FieldInvalid)
  }

  function SnapshotPreimage(format: Format, c: Snapshot): Result<Bytes, Code> {
    match (Hex.Decode(c.treeOid), EntriesOf(c.entries))
    case (Some(tree), Some(entries)) =>
      Ok(SNAPSHOT_TAG + Lp(FormatName(format)) + Lp(tree) + U64Bytes(c.entryCount) + EntriesBytes(entries))
    case _ => Err(FieldInvalid)
  }

  // ------------------------------------------------------------ reading back

  function TakeRef(s: Bytes): Taken<(Bytes, Bytes)> {
    match TakeLp(s)
    case None => None
    case Some((commit, s1)) =>
      match TakeLp(s1)
      case None => None
      case Some((tree, s2)) => Some(((commit, tree), s2))
  }

  /** path, mode, oid, size, sha256 */
  type Sized = (Bytes, Bytes, Bytes, nat, Bytes)

  function TakeSized(s: Bytes): Taken<Sized> {
    match TakeLp(s)
    case None => None
    case Some((path, s1)) =>
      match TakeLp(s1)
      case None => None
      case Some((mode, s2)) =>
        match TakeLp(s2)
        case None => None
        case Some((oid, s3)) =>
          match TakeU64(s3)
          case None => None
          case Some((size, s4)) =>
            match TakeLp(s4)
            case None => None
            case Some((sha256, s5)) => Some(((path, mode, oid, size, sha256), s5))
  }

  function TakeOp(s: Bytes): Taken<(bool, Sized)> {
    match TakeLp(s)
    case None => None
    case Some((tag, s0)) =>
      if tag == UPSERT then
        match TakeSized(s0)
        case None => None
        case Some((sized, s5)) => Some(((true, sized), s5))
      else
        match TakeLp(s0)
        case None => None
        case Some((path, s1)) =>
          match TakeLp(s1)
          case None => None
          case Some((mode, s2)) =>
            match TakeLp(s2)
            case None => None
            case Some((oid, s3)) => Some(((false, (path, mode, oid, 0, [])), s3))
  }

  function OpSized(op: OpFields): (bool, Sized) {
    match op
    case DeleteFields(path, mode, oid) => (false, (path, mode, oid, 0, []))
    case UpsertFields(path, mode, oid, size, sha256) => (true, (path, mode, oid, size, sha256))
  }

  lemma TakesRef(r: RefFields, rest: Bytes)
    ensures TakeRef(RefBytes(r) + rest) == Some(((r.commit, r.tree), rest))
  {
    assert RefBytes(r) + rest == Lp(r.commit) + (Lp(r.tree) + rest);
    TakesLp(r.commit, Lp(r.tree) + rest);
    TakesLp(r.tree, rest);
  }

  lemma TakesSized(path: Text, mode: Text, oid: Text, size: U64, sha256: Text, rest: Bytes)
    ensures TakeSized(Lp(path) + Lp(mode) + Lp(oid) + U64Bytes(size) + Lp(sha256) + rest)
            == Some(((path, mode, oid, size, sha256), rest))
  {
    hide Lp, U64Bytes, TakeLp, TakeU64;
    var s4 := Lp(sha256) + rest;
    var s3 := U64Bytes(size) + s4;
    var s2 := Lp(oid) + s3;
    var s1 := Lp(mode) + s2;
    assert Lp(path) + Lp(mode) + Lp(oid) + U64Bytes(size) + Lp(sha256) + rest == Lp(path) + s1;
    TakesLp(path, s1);
    TakesLp(mode, s2);
    TakesLp(oid, s3);
    TakesU64(size, s4);
    TakesLp(sha256, rest);
  }

  lemma TagsDiffer()
    ensures DELETE != UPSERT && TREE != INDEX && TREE != OVERLAY && SHA1_NAME != SHA256_NAME && INDEX != OVERLAY
  {
    assert DELETE[0] != UPSERT[0];
    assert |TREE| == 4 && |INDEX| == 5 && |OVERLAY| == 7 && |SHA1_NAME| == 4 && |SHA256_NAME| == 6;
  }

  lemma TakesOp(op: OpFields, rest: Bytes)
    ensures TakeOp(OpBytes(op) + rest) == Some((OpSized(op), rest))
  {
    hide Lp, U64Bytes, TakeLp, TakeU64, TakeSized;
    TagsDiffer();
    match op
    case DeleteFields(path, mode, oid) =>
      var s2 := Lp(oid) + rest;
      var s1 := Lp(mode) + s2;
      var s0 := Lp(path) + s1;
      assert OpBytes(op) + rest == Lp(DELETE) + s0;
      TakesLp(DELETE, s0);
      TakesLp(path, s1);
      TakesLp(mode, s2);
      TakesLp(oid, rest);
    case UpsertFields(path, mode, oid, size, sha256) =>
      var s0 := Lp(path) + Lp(mode) + Lp(oid) + U64Bytes(size) + Lp(sha256) + rest;
      assert OpBytes(op) + rest == Lp(UPSERT) + s0;
      TakesLp(UPSERT, s0);
      TakesSized(path, mode, oid, size, sha256, rest);
  }

  // ------------------------------------------------------------ equal bytes, equal fields

  lemma RefBytesInjective(r: RefFields, q: RefFields, x: Bytes, y: Bytes)
    requires RefBytes(r) + x == RefBytes(q) + y
    ensures r == q && x == y
  {
    TakesRef(r, x);
    TakesRef(q, y);
  }

  lemma LpInjective(t: Text, u: Text, x: Bytes, y: Bytes)
    requires Lp(t) + x == Lp(u) + y
    ensures t == u && x == y
  {
    TakesLp(t, x);
    TakesLp(u, y);
  }

  lemma U64Injective(m: U64, n: U64, x: Bytes, y: Bytes)
    requires U64Bytes(m) + x == U64Bytes(n) + y
    ensures m == n && x == y
  {
    TakesU64(m, x);
    TakesU64(n, y);
  }

  lemma EntryBytesInjective(e: EntryFields, d: EntryFields, x: Bytes, y: Bytes)
    requires EntryBytes(e) + x == EntryBytes(d) + y
    ensures e == d && x == y
  {
    hide Lp, U64Bytes, TakeSized;
    TakesSized(e.path, e.mode, e.oid, e.size, e.sha256, x);
    TakesSized(d.path, d.mode, d.oid, d.size, d.sha256, y);
  }

  lemma OpBytesInjective(op: OpFields, q: OpFields, x: Bytes, y: Bytes)
    requires OpBytes(op) + x == OpBytes(q) + y
    ensures op == q && x == y
  {
    hide OpBytes, TakeOp;
    TakesOp(op, x);
    TakesOp(q, y);
  }

  lemma {:induction false} EntriesBytesInjective(es: seq<EntryFields>, ds: seq<EntryFields>, x: Bytes, y: Bytes)
    requires |es| == |ds| && EntriesBytes(es) + x == EntriesBytes(ds) + y
    ensures es == ds && x == y
  {
    hide EntryBytes;
    if es == [] {
      assert EntriesBytes(es) + x == x && EntriesBytes(ds) + y == y;
    } else {
      var s, t := EntriesBytes(es[1..]) + x, EntriesBytes(ds[1..]) + y;
      assert EntriesBytes(es) + x == EntryBytes(es[0]) + s;
      assert EntriesBytes(ds) + y == EntryBytes(ds[0]) + t;
      EntryBytesInjective(es[0], ds[0], s, t);
      EntriesBytesInjective(es[1..], ds[1..], x, y);
      assert es == [es[0]] + es[1..] && ds == [ds[0]] + ds[1..];
    }
  }

  lemma {:induction false} OpsBytesInjective(ops: seq<OpFields>, qs: seq<OpFields>)
    requires |ops| == |qs| && OpsBytes(ops) == OpsBytes(qs)
    ensures ops == qs
  {
    hide OpBytes;
    if ops != [] {
      OpBytesInjective(ops[0], qs[0], OpsBytes(ops[1..]), OpsBytes(qs[1..]));
      OpsBytesInjective(ops[1..], qs[1..]);
      assert ops == [ops[0]] + ops[1..] && qs == [qs[0]] + qs[1..];
    }
  }

  /** What the writer promises of its fields. */
  predicate WellFormed(f: Fields) {
    && f.entryCount == |f.entries| && f.operationCount == |f.operations|
    && (f.origin.FromCommit? <==> f.kind == TREE)
  }

  lemma OriginInjective(o: Origin, p: Origin, x: Bytes, y: Bytes)
    requires o.FromCommit? == p.FromCommit? && OriginBytes(o) + x == OriginBytes(p) + y
    ensures o == p && x == y
  {
    hide Lp, RefBytes;
    match o
    case FromCommit(commit) => LpInjective(commit, p.commit, x, y);
    case FromBase(base) => RefBytesInjective(base, p.base, x, y);
  }

  lemma HeadRegroups(f: Fields, x: Bytes)
    ensures HeadBytes(f) + x ==
            MANIFEST_TAG + (Lp(f.format) + (Lp(f.kind) + (RefBytes(f.comparison) + (OriginBytes(f.origin)
            + (Lp(f.tree) + (Lp(f.digest) + x))))))
  {
    hide Lp, RefBytes, OriginBytes, MANIFEST_TAG;
  }

  lemma HeadInjective(f: Fields, g: Fields, x: Bytes, y: Bytes)
    requires WellFormed(f) && WellFormed(g) && HeadBytes(f) + x == HeadBytes(g) + y
    ensures f.format == g.format && f.kind == g.kind && f.comparison == g.comparison && f.origin == g.origin
    ensures f.tree == g.tree && f.digest == g.digest && x == y
  {
    hide Lp, RefBytes, OriginBytes, HeadBytes, MANIFEST_TAG;
    var f5, g5 := Lp(f.digest) + x, Lp(g.digest) + y;
    var f4, g4 := Lp(f.tree) + f5, Lp(g.tree) + g5;
    var f3, g3 := OriginBytes(f.origin) + f4, OriginBytes(g.origin) + g4;
    var f2, g2 := RefBytes(f.comparison) + f3, RefBytes(g.comparison) + g3;
    var f1, g1 := Lp(f.kind) + f2, Lp(g.kind) + g2;
    HeadRegroups(f, x);
    HeadRegroups(g, y);
    SamePrefix(MANIFEST_TAG, Lp(f.format) + f1, Lp(g.format) + g1);
    LpInjective(f.format, g.format, f1, g1);
    LpInjective(f.kind, g.kind, f2, g2);
    RefBytesInjective(f.comparison, g.comparison, f3, g3);
    OriginInjective(f.origin, g.origin, f4, g4);
    LpInjective(f.tree, g.tree, f5, g5);
    LpInjective(f.digest, g.digest, x, y);
  }

  lemma SamePrefix(p: Bytes, x: Bytes, y: Bytes)
    requires p + x == p + y
    ensures x == y
  {
    assert (p + x)[|p|..] == x && (p + y)[|p|..] == y;
  }

  /** Equal manifest preimages have equal fields. */
  lemma FieldsBytesInjective(f: Fields, g: Fields)
    requires WellFormed(f) && WellFormed(g) && FieldsBytes(f) == FieldsBytes(g)
    ensures f == g
  {
    hide HeadBytes, EntriesBytes, OpsBytes, U64Bytes;
    var f2 := U64Bytes(f.operationCount) + OpsBytes(f.operations);
    var g2 := U64Bytes(g.operationCount) + OpsBytes(g.operations);
    var f1, g1 := EntriesBytes(f.entries) + f2, EntriesBytes(g.entries) + g2;
    assert FieldsBytes(f) == HeadBytes(f) + (U64Bytes(f.entryCount) + f1);
    assert FieldsBytes(g) == HeadBytes(g) + (U64Bytes(g.entryCount) + g1);
    HeadInjective(f, g, U64Bytes(f.entryCount) + f1, U64Bytes(g.entryCount) + g1);
    U64Injective(f.entryCount, g.entryCount, f1, g1);
    EntriesBytesInjective(f.entries, g.entries, f2, g2);
    U64Injective(f.operationCount, g.operationCount, OpsBytes(f.operations), OpsBytes(g.operations));
    OpsBytesInjective(f.operations, g.operations);
  }

  // ------------------------------------------------------------ equal fields, equal manifests

  predicate SameOperation(a: Operation, b: Operation) {
    match a
    case Delete(_, _, _) => a == b
    case Upsert(_, _, _, _, _, _) => b.Upsert? && a == b.(payload := a.payload)
  }

  predicate SameOperations(a: seq<Operation>, b: seq<Operation>) {
    |a| == |b| && forall k :: 0 <= k < |a| ==> SameOperation(a[k], b[k])
  }

  /** Everything but the payload texts, the schema and the manifest digest. */
  predicate SameCandidate(a: Snapshot, b: Snapshot) {
    match a
    case Overlay(_, _, _, _, _, _, ops) =>
      b.Overlay? && SameOperations(ops, b.operations) && a == b.(operations := ops)
    case _ => a == b
  }

  predicate SameIdentity(a: Manifest, b: Manifest) {
    a.format == b.format && a.comparisonBase == b.comparisonBase && SameCandidate(a.candidate, b.candidate)
  }

  /** The advertised counts are the lengths, as validation demands. */
  predicate Counted(c: Snapshot) {
    c.entryCount == |c.entries| && c.OpCount() == |c.Ops()|
  }

  lemma HexInjective(a: Text, b: Text)
    requires Hex.Decode(a).Some? && Hex.Decode(a) == Hex.Decode(b)
    ensures a == b
  {
    Hex.EncodeOfDecode(a);
    Hex.EncodeOfDecode(b);
  }

  lemma RefOfInjective(a: TreeRef, b: TreeRef)
    requires RefOf(a).Some? && RefOf(a) == RefOf(b)
    ensures a == b
  {
    HexInjective(a.commitSha, b.commitSha);
    HexInjective(a.treeOid, b.treeOid);
  }

  lemma {:induction false} EntriesOfInjective(es: seq<Entry>, ds: seq<Entry>)
    requires EntriesOf(es).Some? && EntriesOf(es) == EntriesOf(ds)
    ensures es == ds
  {
    if es != [] {
      assert EntriesOf(es).value[0] == EntriesOf(ds).value[0];
      assert EntriesOf(es).value[1..] == EntriesOf(ds).value[1..];
      HexInjective(es[0].blobOid, ds[0].blobOid);
      HexInjective(es[0].sha256, ds[0].sha256);
      EntriesOfInjective(es[1..], ds[1..]);
      assert es == [es[0]] + es[1..] && ds == [ds[0]] + ds[1..];
    }
  }

  lemma OpOfInjective(a: Operation, b: Operation)
    requires OpOf(a).Some? && OpOf(a) == OpOf(b)
    ensures SameOperation(a, b)
  {
    match a
    case Delete(_, _, oid) => HexInjective(oid, b.baseBlobOid);
    case Upsert(_, _, oid, _, sha256, _) =>
      HexInjective(oid, b.blobOid);
      HexInjective(sha256, b.sha256);
  }

  lemma {:induction false} OpsOfInjective(a: seq<Operation>, b: seq<Operation>)
    requires OpsOf(a).Some? && OpsOf(a) == OpsOf(b)
    ensures SameOperations(a, b)
  {
    if a != [] {
      assert OpsOf(a).value[0] == OpsOf(b).value[0];
      assert OpsOf(a).value[1..] == OpsOf(b).value[1..];
      OpOfInjective(a[0], b[0]);
      OpsOfInjective(a[1..], b[1..]);
      assert forall k :: 0 < k < |a| ==> a[k] == a[1..][k - 1] && b[k] == b[1..][k - 1];
    }
  }

  lemma DigestOfInjective(a: Text, b: Text)
    requires DigestOf(a).Some? && DigestOf(a) == DigestOf(b)
    ensures a == b
  {
    var n := |SHA256_PREFIX|;
    HexInjective(a[n..], b[n..]);
    assert a == a[..n] + a[n..] && b == b[..n] + b[n..];
  }

  lemma FieldsOfInjective(a: Manifest, b: Manifest)
    requires FieldsOf(a).Some? && FieldsOf(a) == FieldsOf(b)
    ensures SameIdentity(a, b)
  {
    hide RefOf, EntriesOf, OpsOf, DigestOf, Hex.Decode, SHA1_NAME, SHA256_NAME, TREE, INDEX, OVERLAY;
    var c, d := a.candidate, b.candidate;
    TagsDiffer();
    RefOfInjective(a.comparisonBase, b.comparisonBase);
    if c.Tree? { HexInjective(c.commitSha, d.commitSha); } else { RefOfInjective(c.base, d.base); }
    HexInjective(c.treeOid, d.treeOid);
    DigestOfInjective(c.snapshotDigest, d.snapshotDigest);
    EntriesOfInjective(c.entries, d.entries);
    OpsOfInjective(c.Ops(), d.Ops());
  }

  lemma FieldsOfWellFormed(m: Manifest)
    requires FieldsOf(m).Some? && Counted(m.candidate)
    ensures WellFormed(FieldsOf(m).value)
  {
    hide RefOf, DigestOf, Hex.Decode, TREE, INDEX, OVERLAY;
    TagsDiffer();
  }

  /** The manifest digest's preimage determines the manifest, up to payload text. */
  lemma ManifestPreimageInjective(a: Manifest, b: Manifest)
    requires Counted(a.candidate) && Counted(b.candidate)
    requires ManifestPreimage(a).Ok? && ManifestPreimage(a) == ManifestPreimage(b)
    ensures SameIdentity(a, b)
  {
    hide FieldsOf, FieldsBytes, Counted, SameIdentity;
    FieldsOfWellFormed(a);
    FieldsOfWellFormed(b);
    FieldsBytesInjective(FieldsOf(a).value, FieldsOf(b).value);
    FieldsOfInjective(a, b);
  }

  /** The snapshot digest's preimage determines format, tree and entries,
      whatever kind of candidate carries them. */
  lemma SnapshotPreimageInjective(f: Format, a: Snapshot, g: Format, b: Snapshot)
    requires Counted(a) && Counted(b)
    requires SnapshotPreimage(f, a).Ok? && SnapshotPreimage(f, a) == SnapshotPreimage(g, b)
    ensures f == g && a.treeOid == b.treeOid && a.entries == b.entries
  {
    hide Lp, U64Bytes, EntriesBytes, EntriesOf, Hex.Decode, SNAPSHOT_TAG, SHA1_NAME, SHA256_NAME;
    var ta, tb := Hex.Decode(a.treeOid).value, Hex.Decode(b.treeOid).value;
    var ea, eb := EntriesOf(a.entries).value, EntriesOf(b.entries).value;
    var a2, b2 := U64Bytes(a.entryCount) + EntriesBytes(ea), U64Bytes(b.entryCount) + EntriesBytes(eb);
    var a1, b1 := Lp(ta) + a2, Lp(tb) + b2;
    assert SnapshotPreimage(f, a).value == SNAPSHOT_TAG + (Lp(FormatName(f)) + a1);
    assert SnapshotPreimage(g, b).value == SNAPSHOT_TAG + (Lp(FormatName(g)) + b1);
    SamePrefix(SNAPSHOT_TAG, Lp(FormatName(f)) + a1, Lp(FormatName(g)) + b1);
    LpInjective(FormatName(f), FormatName(g), a1, b1);
    LpInjective(ta, tb, a2, b2);
    U64Injective(a.entryCount, b.entryCount, EntriesBytes(ea), EntriesBytes(eb));
    assert EntriesBytes(ea) + [] == EntriesBytes(ea) && EntriesBytes(eb) + [] == EntriesBytes(eb);
    EntriesBytesInjective(ea, eb, [], []);
    TagsDiffer();
    HexInjective(a.treeOid, b.treeOid);
    EntriesOfInjective(a.entries, b.entries);
  }

  lemma ManifestTagged(m: Manifest)
    requires ManifestPreimage(m).Ok?
    ensures MANIFEST_TAG <= ManifestPreimage(m).value
  {
    hide FieldsOf, HeadBytes, EntriesBytes, OpsBytes, U64Bytes, MANIFEST_TAG;
    var f := FieldsOf(m).value;
    var rest := U64Bytes(f.entryCount) + EntriesBytes(f.entries) + U64Bytes(f.operationCount) + OpsBytes(f.operations);
    assert FieldsBytes(f) == HeadBytes(f) + rest;
    HeadRegroups(f, rest);
  }

  lemma SnapshotTagged(f: Format, c: Snapshot)
    requires SnapshotPreimage(f, c).Ok?
    ensures SNAPSHOT_TAG <= SnapshotPreimage(f, c).value
  {
    hide EntriesBytes, EntriesOf, U64Bytes, Lp, Hex.Decode, FormatName, SNAPSHOT_TAG;
    var entries, tree := EntriesOf(c.entries).value, Hex.Decode(c.treeOid).value;
    assert SnapshotPreimage(f, c).value
        == SNAPSHOT_TAG + (Lp(FormatName(f)) + Lp(tree) + U64Bytes(c.entryCount) + EntriesBytes(entries));
  }

  lemma ManifestTagIs()
    ensures Ascii("cargoless-candidate-manifest") <= MANIFEST_TAG && |MANIFEST_TAG| == 32 && MANIFEST_TAG[20] == 109
  {
  }

  lemma SnapshotTagIs()
    ensures Ascii("cargoless-candidate-snapshot") <= SNAPSHOT_TAG && |SNAPSHOT_TAG| == 32 && SNAPSHOT_TAG[20] == 115
  {
  }

  /** The two preimages are tagged apart: each begins with its own name, and no
      manifest's preimage is a snapshot's. */
  lemma DomainsApart(m: Manifest, f: Format, c: Snapshot)
    requires ManifestPreimage(m).Ok? && SnapshotPreimage(f, c).Ok?
    ensures MANIFEST_TAG <= ManifestPreimage(m).value && SNAPSHOT_TAG <= SnapshotPreimage(f, c).value
    ensures ManifestPreimage(m) != SnapshotPreimage(f, c)
  {
    hide ManifestPreimage, SnapshotPreimage, MANIFEST_TAG, SNAPSHOT_TAG, Ascii;
    ManifestTagged(m);
    SnapshotTagged(f, c);
    ManifestTagIs();
    SnapshotTagIs();
    assert ManifestPreimage(m).value[20] == MANIFEST_TAG[20] && SnapshotPreimage(f, c).value[20] == SNAPSHOT_TAG[20];
  }

  // ------------------------------------------------------------ the preimages as they are built

  function DigestText(h: Hashes, preimage: Result<Bytes, Code>): Result<Bytes, Code> {
    match preimage
    case Ok(bytes) => Ok(SHA256_PREFIX + Hex.Encode(h.sha256(bytes)))
    case Err(code) => Err(code)
  }

  function ManifestDigest(h: Hashes, m: Manifest): Result<Bytes, Code> {
    DigestText(h, ManifestPreimage(m))
  }

  function SnapshotDigest(h: Hashes, format: Format, c: Snapshot): Result<Bytes, Code> {
    DigestText(h, SnapshotPreimage(format, c))
  }

  /** The growing preimage; a push that meets a field that is not hexadecimal fails. */
  class Preimage {
    var bytes: Bytes

    constructor (tag: Bytes)
      ensures bytes == tag
    {
      bytes := tag;
    }

    method PushU64(n: U64)
      modifies this
      ensures bytes == old(bytes) + U64Bytes(n)
    {
      bytes := bytes + U64Bytes(n);
    }

    method PushLp(t: Text)
      modifies this
      ensures bytes == old(bytes) + Lp(t)
    {
      PushU64(|t|);
      bytes := bytes + t;
    }

    method PushHex(t: Text) returns (ok: bool)
      modifies this
      ensures ok == Hex.Decode(t).Some?
      ensures ok ==> bytes == old(bytes) + Lp(Hex.Decode(t).value)
    {
      var decoded := Hex.Decode(t);
      if decoded.None? { return false; }
      PushLp(decoded.value);
      return true;
    }

    method PushTreeRef(r: TreeRef) returns (ok: bool)
      modifies this
      ensures ok == RefOf(r).Some?
      ensures ok ==> bytes == old(bytes) + RefBytes(RefOf(r).value)
    {
      ok := PushHex(r.commitSha);
      if !ok { return; }
      ok := PushHex(r.treeOid);
    }

    method PushEntry(e: Entry) returns (ok: bool)
      modifies this
      ensures ok == EntryOf(e).Some?
      ensures ok ==> bytes == old(bytes) + EntryBytes(EntryOf(e).value)
    {
      hide Lp, U64Bytes, Hex.Decode;
      PushLp(e.path);
      PushLp(e.mode);
      ok := PushHex(e.blobOid);
      if !ok { return; }
      PushU64(e.size);
      ok := PushHex(e.sha256);
    }

    method PushOperation(op: Operation) returns (ok: bool)
      modifies this
      ensures ok == OpOf(op).Some?
      ensures ok ==> bytes == old(bytes) + OpBytes(OpOf(op).value)
    {
      if op.Delete? { ok := PushDelete(op); } else { ok := PushUpsert(op); }
    }

    method PushDelete(op: Operation) returns (ok: bool)
      requires op.Delete?
      modifies this
      ensures ok == OpOf(op).Some?
      ensures ok ==> bytes == old(bytes) + OpBytes(OpOf(op).value)
    {
      hide Lp, U64Bytes, Hex.Decode, DELETE, UPSERT;
      PushLp(DELETE);
      PushLp(op.path);
      PushLp(op.baseMode);
      ok := PushHex(op.baseBlobOid);
    }

    method PushUpsert(op: Operation) returns (ok: bool)
      requires op.Upsert?
      modifies this
      ensures ok == OpOf(op).Some?
      ensures ok ==> bytes == old(bytes) + OpBytes(OpOf(op).value)
    {
      hide Lp, U64Bytes, Hex.Decode, DELETE, UPSERT;
      PushLp(UPSERT);
      ghost var record := Lp(UPSERT);
      PushLp(op.path);
      record := record + Lp(op.path);
      assert bytes == old(bytes) + record;
      PushLp(op.mode);
      record := record + Lp(op.mode);
      assert bytes == old(bytes) + record;
      ok := PushHex(op.blobOid);
      if !ok { return; }
      record := record + Lp(Hex.Decode(op.blobOid).value);
      assert bytes == old(bytes) + record;
      PushU64(op.size);
      record := record + U64Bytes(op.size);
      assert bytes == old(bytes) + record;
      ok := PushHex(op.sha256);
      if ok { assert bytes == old(bytes) + (record + Lp(Hex.Decode(op.sha256).value)); }
    }

    method PushEntries(es: seq<Entry>) returns (ok: bool)
      modifies this
      ensures ok == EntriesOf(es).Some?
      ensures ok ==> bytes == old(bytes) + EntriesBytes(EntriesOf(es).value)
    {
      hide EntryOf, EntryBytes;
      ok := true;
      ghost var done: Bytes := [];
      for k := 0 to |es|
        invariant bytes == old(bytes) + done
        invariant EntriesOf(es).Some? <==> EntriesOf(es[k..]).Some?
        invariant EntriesOf(es).Some? ==>
          EntriesBytes(EntriesOf(es).value) == done + EntriesBytes(EntriesOf(es[k..]).value)
      {
        assert es[k..][0] == es[k] && es[k..][1..] == es[k + 1..];
        ok := PushEntry(es[k]);
        if !ok { return; }
        done := done + EntryBytes(EntryOf(es[k]).value);
      }
      assert es[|es|..] == [];
      ok := true;
    }

    method PushOperations(ops: seq<Operation>) returns (ok: bool)
      modifies this
      ensures ok == OpsOf(ops).Some?
      ensures ok ==> bytes == old(bytes) + OpsBytes(OpsOf(ops).value)
    {
      hide OpOf, OpBytes;
      ok := true;
      ghost var done: Bytes := [];
      for k := 0 to |ops|
        invariant bytes == old(bytes) + done
        invariant OpsOf(ops).Some? <==> OpsOf(ops[k..]).Some?
        invariant OpsOf(ops).Some? ==> OpsBytes(OpsOf(ops).value) == done + OpsBytes(OpsOf(ops[k..]).value)
      {
        assert ops[k..][0] == ops[k] && ops[k..][1..] == ops[k + 1..];
        ok := PushOperation(ops[k]);
        if !ok { return; }
        done := done + OpBytes(OpOf(ops[k]).value);
      }
      assert ops[|ops|..] == [];
      ok := true;
    }
  }

  method ComputeSnapshotDigest(h: Hashes, format: Format, c: Snapshot) returns (r: Result<Bytes, Code>)
    ensures r == SnapshotDigest(h, format, c)
  {
    hide Lp, U64Bytes, EntriesBytes, EntriesOf, Hex.Decode, Hex.Encode, SNAPSHOT_TAG, FormatName;
    var p := new Preimage(SNAPSHOT_TAG);
    p.PushLp(FormatName(format));
    var ok := p.PushHex(c.treeOid);
    if !ok { return Err(FieldInvalid); }
    p.PushU64(c.entryCount);
    ok := p.PushEntries(c.entries);
    if !ok { return Err(FieldInvalid); }
    return Ok(SHA256_PREFIX + Hex.Encode(h.sha256(p.bytes)));
  }

  method ComputeManifestDigest(h: Hashes, m: Manifest) returns (r: Result<Bytes, Code>)
    ensures r == ManifestDigest(h, m)
  {
    hide Lp, U64Bytes, EntriesBytes, EntriesOf, OpsBytes, OpsOf, RefOf, RefBytes, Hex.Decode, Hex.Encode,
         MANIFEST_TAG, FormatName, KindName;
    var c := m.candidate;
    var p := new Preimage(MANIFEST_TAG);
    p.PushLp(FormatName(m.format));
    p.PushLp(KindName(c));
    var ok := p.PushTreeRef(m.comparisonBase);
    if !ok { return Err(FieldInvalid); }
    if c.Tree? { ok := p.PushHex(c.commitSha); } else { ok := p.PushTreeRef(c.base); }
    if !ok { return Err(FieldInvalid); }
    ok := p.PushHex(c.treeOid);
    if !ok { return Err(FieldInvalid); }
    if !(SHA256_PREFIX <= c.snapshotDigest) { return Err(FieldInvalid); }
    ok := p.PushHex(c.snapshotDigest[|SHA256_PREFIX|..]);
    if !ok { return Err(FieldInvalid); }
    p.PushU64(c.entryCount);
    ok := p.PushEntries(c.entries);
    if !ok { return Err(FieldInvalid); }
    p.PushU64(c.OpCount());
    ok := p.PushOperations(c.Ops());
    if !ok { return Err(FieldInvalid); }
    assert p.bytes == FieldsBytes(FieldsOf(m).value);
    return Ok(SHA256_PREFIX + Hex.Encode(h.sha256(p.bytes)));
  }
}
