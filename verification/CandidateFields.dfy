/**
 * What an accepted path and an accepted identifier are, said without the checks
 * that accept them.
 */
module CandidateFields {
  import opened Wrappers
  import opened Bytes
  import opened GitObject
  import opened Candidate
  import Base64
  import Hex
  import Paths

  // ------------------------------------------------------------ paths

  /** "git" after a dot, whatever the case of its letters. */
  predicate IsDotGit(c: Bytes) {
    |c| == 4 && c[0] == 46 && c[1] in {71, 103} && c[2] in {73, 105} && c[3] in {84, 116}
  }

  /** Bytes a path may be made of: no control byte, no backslash, no DEL. */
  predicate Printable(path: Bytes) {
    forall k :: 0 <= k < |path| ==> 32 <= path[k] && path[k] != 92 && path[k] != 127
  }

  lemma DotGitIff(c: Bytes)
    ensures Lowered(c) == DOT_GIT <==> IsDotGit(c)
  {
    var low := Lowered(c);
    assert |DOT_GIT| == 4 && DOT_GIT[0] == 46 && DOT_GIT[1] == 103 && DOT_GIT[2] == 105 && DOT_GIT[3] == 116;
    if |c| == 4 {
      assert low == [low[0], low[1], low[2], low[3]];
      assert DOT_GIT == [DOT_GIT[0], DOT_GIT[1], DOT_GIT[2], DOT_GIT[3]];
    }
  }

  lemma ComponentIs(c: Bytes)
    ensures ComponentOk(c) <==> c != [] && c != [46] && c != [46, 46] && !IsDotGit(c)
  {
    DotGitIff(c);
    assert DOT == [46] && DOT_DOT == [46, 46];
  }

  lemma EdgesAreSlashes(path: Bytes)
    requires path != []
    ensures path[0] == Paths.SLASH ==> [] in Paths.Split(path)
    ensures path[|path| - 1] == Paths.SLASH ==> [] in Paths.Split(path)
  {
    if path[0] == Paths.SLASH {
      assert Paths.Split(path)[0] == [];
    }
    if path[|path| - 1] == Paths.SLASH { LastIsEmpty(path); }
  }

  lemma {:induction false} LastIsEmpty(path: Bytes)
    requires path != [] && path[|path| - 1] == Paths.SLASH
    ensures var parts := Paths.Split(path); |parts| > 1 && parts[|parts| - 1] == []
    decreases |path|
  {
    if |path| > 1 {
      LastIsEmpty(path[1..]);
    } else {
      assert path[1..] == [];
    }
  }

  /** A path is accepted exactly when it is a text of legal bytes that, resolved from
      the root, never stays or goes up, so that it leads to its own components, none
      of which is ".git" in any case. */
  lemma PathAcceptedIff(env: Env, path: Text)
    ensures PathVerdict(env, path).None? <==>
            && 0 < |path| <= MAX_PATH_BYTES && Printable(path) && env.isNfc(path)
            && Paths.Resolved([], Paths.Split(path)) == Paths.Split(path)
            && forall c :: c in Paths.Split(path) ==> !IsDotGit(c)
  {
    hide ComponentOk, IsDotGit, Paths.Resolved, Paths.Split;
    var parts := Paths.Split(path);
    Paths.ResolvesToItselfIff([], parts);
    assert [] + parts == parts;
    forall c ensures ComponentOk(c) <==> c != [] && c != [46] && c != [46, 46] && !IsDotGit(c) {
      ComponentIs(c);
    }
    if path != [] { EdgesAreSlashes(path); }
  }

  /** So every accepted entry lies at its own components below the root. */
  lemma AcceptedEntriesStayInside(env: Env, count: U64, entries: seq<Entry>, format: Format)
    requires EntriesVerdict(env, count, entries, format).None?
    ensures forall e :: e in entries ==>
              Paths.Resolved([], Paths.Split(e.path)) == Paths.Split(e.path)
              && forall c :: c in Paths.Split(e.path) ==> !IsDotGit(c)
  {
    hide PathOk, EntryOk, IsDotGit, Paths.Resolved;
    EntriesAcceptedIff(env, count, entries, format);
    forall e | e in entries
      ensures Paths.Resolved([], Paths.Split(e.path)) == Paths.Split(e.path)
              && forall c :: c in Paths.Split(e.path) ==> !IsDotGit(c)
    {
      PathAcceptedIff(env, e.path);
    }
  }

  /** And so does every accepted operation. */
  lemma AcceptedOperationsStayInside(env: Env, count: U64, ops: seq<Operation>, format: Format)
    requires OperationsVerdict(env, count, ops, format).None?
    ensures forall op :: op in ops ==>
              Paths.Resolved([], Paths.Split(op.path)) == Paths.Split(op.path)
              && forall c :: c in Paths.Split(op.path) ==> !IsDotGit(c)
  {
    hide PathOk, OperationOk, IsDotGit, Paths.Resolved, TotalPayload;
    OperationsAcceptedIff(env, count, ops, format);
    forall op | op in ops
      ensures Paths.Resolved([], Paths.Split(op.path)) == Paths.Split(op.path)
              && forall c :: c in Paths.Split(op.path) ==> !IsDotGit(c)
    {
      PathAcceptedIff(env, op.path);
    }
  }

  // ------------------------------------------------------------ identifiers

  lemma {:induction false} HexDecodes(t: Text)
    requires |t| % 2 == 0
    ensures IsLowerHex(t) <==> Hex.Decode(t).Some?
    decreases |t|
  {
    if t != [] {
      HexDecodes(t[2..]);
      assert t == [t[0], t[1]] + t[2..];
      assert forall k :: 0 <= k < |t| - 2 ==> t[2..][k] == t[k + 2];
    }
  }

  /** The lower-case hexadecimal text of exactly `n` bytes. */
  ghost predicate HexOf(t: Text, n: nat) {
    exists raw: Bytes :: |raw| == n && t == Hex.Encode(raw)
  }

  lemma HexTextIff(t: Text, n: nat)
    ensures |t| == 2 * n && IsLowerHex(t) <==> HexOf(t, n)
  {
    hide IsLowerHex;
    if |t| == 2 * n && IsLowerHex(t) {
      HexDecodes(t);
      var raw := Hex.Decode(t).value;
      Hex.DecodesIffEncoded(t, raw);
    }
    if HexOf(t, n) {
      var raw: Bytes :| |raw| == n && t == Hex.Encode(raw);
      Hex.DecodesIffEncoded(t, raw);
      HexDecodes(t);
    }
  }

  /** An object id is the text of a SHA-1 or SHA-256 hash, as the format says. */
  lemma OidAcceptedIff(oid: Text, format: Format)
    ensures OidVerdict(oid, format).None? <==> HexOf(oid, if format.Sha1? then 20 else 32)
  {
    hide IsLowerHex, HexOf;
    HexTextIff(oid, if format.Sha1? then 20 else 32);
  }

  lemma Sha256AcceptedIff(t: Text)
    ensures Sha256HexVerdict(t).None? <==> HexOf(t, 32)
  {
    hide IsLowerHex, HexOf;
    HexTextIff(t, 32);
  }

  /** A digest is "sha256:" and the text of a SHA-256 hash. */
  lemma DigestAcceptedIff(t: Text)
    ensures DigestVerdict(t).None? <==> exists raw: Bytes :: |raw| == 32 && t == Ascii("sha256:") + Hex.Encode(raw)
  {
    hide IsLowerHex, Ascii, Hex.Encode;
    var prefix := SHA256_PREFIX;
    if DigestOk(t) {
      var hex := t[|prefix|..];
      HexTextIff(hex, 32);
      var raw: Bytes :| |raw| == 32 && hex == Hex.Encode(raw);
      assert t == prefix + hex;
    }
    if raw: Bytes :| |raw| == 32 && t == Ascii("sha256:") + Hex.Encode(raw) {
      assert t[|prefix|..] == Hex.Encode(raw);
      assert HexOf(t[|prefix|..], 32);
      HexTextIff(t[|prefix|..], 32);
    }
  }

  /** An accepted upsert carries exactly the blob it names: its text is the base64 of
      bytes of the stated size, within the limit, whose SHA-256 and whose hash as a
      Git blob, "blob", a space, the length and a zero byte before them, are the ones
      it states. */
  lemma UpsertNamesItsBlob(env: Env, op: Operation, total: nat, format: Format)
    requires op.Upsert? && OperationVerdict(env, op, total, format).None?
    ensures op.payload.encoding == Ascii("base64")
    ensures exists bytes: Bytes ::
              && op.payload.data == Base64.Encode(bytes) && op.size == |bytes| <= 32 * 1024 * 1024
              && op.sha256 == Hex.Encode(env.hashes.sha256(bytes))
              && op.blobOid == Hex.Encode(HashOf(env.hashes, format)(
                                            Ascii("blob ") + Decimal(|bytes|) + [0] + bytes))
  {
    hide Ascii, IsLowerHex, Hex.Encode, Base64.Decode, Base64.Encode, Decimal;
    var bytes := DecodedPayload(op.payload).value;
    Base64.DecodesIffCanonical(op.payload.data, bytes);
    BlobSpelled(bytes);
    assert op.size == |bytes|;
  }

  lemma BlobSpelled(bytes: Bytes)
    ensures Object(BLOB, bytes) == Ascii("blob ") + Decimal(|bytes|) + [0] + bytes
  {
    hide Decimal, Ascii;
    BlobTag();
  }

  lemma BlobTag()
    ensures Ascii("blob ") == BLOB + [32]
  {
    assert Ascii("blob ") == [98, 108, 111, 98, 32] && BLOB == [98, 108, 111, 98];
  }

  /** The modes of entries and of overlay operations: a regular file, executable or
      not, and for entries also a symbolic link. */
  lemma ModesAre(e: Entry, format: Format, mode: Text)
    ensures EntryVerdict(e, format).None? ==>
              e.mode == Ascii("100644") || e.mode == Ascii("100755") || e.mode == Ascii("120000")
    ensures e.mode == Ascii("160000") ==> EntryVerdict(e, format) == Some(GitlinkUnsupported)
    ensures OverlayModeVerdict(mode).None? <==> mode == Ascii("100644") || mode == Ascii("100755")
  {
    hide Ascii;
    ModesDiffer();
  }

  lemma ModesDiffer()
    ensures Ascii("160000") != Ascii("100644") && Ascii("160000") != Ascii("100755")
    ensures Ascii("160000") != Ascii("120000")
  {
    assert Ascii("160000")[1] == 54 && Ascii("100644")[1] == 48 && Ascii("100755")[1] == 48;
    assert Ascii("120000")[1] == 50;
  }
}
