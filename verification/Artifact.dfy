/**
 * The artifact blob: a directory tree packed into one byte string, and its
 * only reader.  The reader writes files as it parses.
 */
module Artifact {
  import opened Wrappers
  import opened Bytes
  import opened Records
  import Paths

  /** A directory on disk: files by relative path, directories implied. */
  type Tree = map<Bytes, Bytes>

  /** Files by slash-joined relative path, as a walk yields them. */
  type Files = m: Tree | forall p :: p in m ==> |p| < U64_LIMIT && |m[p]| < U64_LIMIT

  datatype Failure = BadHeader | Truncated | NotUtf8 | UnsafeComponent | FileSystem

  const HEADER: Text := Ascii("tf-core/dist/v1") + [10]
  const DOT: Text := Ascii(".")
  const DOT_DOT: Text := Ascii("..")

  // ------------------------------------------------------------ packing

  function RecordBytes(rel: Text, content: Text): Bytes { Lp(rel) + Lp(content) }

  function Packed(names: seq<Bytes>, files: Files): Bytes
    requires forall x :: x in names ==> x in files
  {
    if names == [] then [] else RecordBytes(names[0], files[names[0]]) + Packed(names[1..], files)
  }

  /** The blob of a tree: the header, then one record a file, by path bytes. */
  function Pack(files: Files): Bytes {
    HEADER + Packed(SortedSet(files.Keys), files)
  }

  method PackDir(files: Files) returns (blob: Bytes)
    ensures blob == Pack(files)
  {
    hide Lp, SortedSet;
    var names := SortedSet(files.Keys);
    blob := HEADER;
    for k := 0 to |names|
      invariant blob + Packed(names[k..], files) == Pack(files)
    {
      assert names[k] in names;
      assert names[k..][1..] == names[k + 1..];
      var rel, content := names[k], files[names[k]];
      ghost var before := blob;
      blob := blob + Lp(rel);
      blob := blob + Lp(content);
      assert blob + Packed(names[k + 1..], files)
          == before + (RecordBytes(rel, content) + Packed(names[k + 1..], files));
    }
    assert names[|names|..] == [] && blob + [] == blob;
  }

  // ------------------------------------------------------------ unpacking

  predicate SafePath(rel: Bytes) {
    forall c :: c in Paths.Split(rel) ==> c != [] && c != DOT && c != DOT_DOT
  }

  /** A path that runs through an existing file, or names an existing directory. */
  predicate Obstructs(a: Bytes, b: Bytes) {
    a != b && (Paths.Split(a) <= Paths.Split(b) || Paths.Split(b) <= Paths.Split(a))
  }

  ghost predicate Writable(tree: Tree, rel: Bytes) {
    forall p :: p in tree ==> !Obstructs(p, rel)
  }

  /** The first record of a blob's body: its path, its contents and what follows,
      or why the reader stops at it. */
  ghost function First(isUtf8: Bytes -> bool, cur: Bytes, tree: Tree): Result<(Bytes, Bytes, Bytes), Failure> {
    match TakeLp(cur)
    case None => Err(Truncated)
    case Some((rel, s1)) =>
      if !isUtf8(rel) then Err(NotUtf8)
      else match TakeLp(s1)
        case None => Err(Truncated)
        case Some((content, rest)) =>
          if !SafePath(rel) then Err(UnsafeComponent)
          else if !Writable(tree, rel) then Err(FileSystem)
          else Ok((rel, content, rest))
  }

  /** What the reader leaves on disk, and whether it succeeded. */
  ghost function Unpacked(isUtf8: Bytes -> bool, cur: Bytes, tree: Tree): (Tree, Option<Failure>)
    decreases |cur|
  {
    if cur == [] then (tree, None)
    else match First(isUtf8, cur, tree)
      case Err(failure) => (tree, Some(failure))
      case Ok((rel, content, rest)) => Unpacked(isUtf8, rest, tree[rel := content])
  }

  ghost function Unpack(isUtf8: Bytes -> bool, blob: Bytes, tree: Tree): (Tree, Option<Failure>) {
    if HEADER <= blob then Unpacked(isUtf8, blob[|HEADER|..], tree) else (tree, Some(BadHeader))
  }

  method IsWritable(tree: Tree, rel: Bytes) returns (ok: bool)
    ensures ok == Writable(tree, rel)
  {
    ok := forall p :: p in tree ==> !Obstructs(p, rel);
  }

  method UnpackArtifact(isUtf8: Bytes -> bool, blob: Bytes, outDir: Tree) returns (tree: Tree, failure: Option<Failure>)
    ensures (tree, failure) == Unpack(isUtf8, blob, outDir)
  {
    hide TakeU64, SafePath, Writable, HEADER;
    tree := outDir;
    if !(HEADER <= blob) { return tree, Some(BadHeader); }
    var cur := blob[|HEADER|..];
    while cur != []
      invariant Unpack(isUtf8, blob, outDir) == Unpacked(isUtf8, cur, tree)
      decreases |cur|
    {
      var n := TakeU64(cur);
      if n.None? || |n.value.1| < n.value.0 { return tree, Some(Truncated); }
      var rel := n.value.1[..n.value.0];
      var s1 := n.value.1[n.value.0..];
      if !isUtf8(rel) { return tree, Some(NotUtf8); }
      var m := TakeU64(s1);
      if m.None? || |m.value.1| < m.value.0 { return tree, Some(Truncated); }
      var content := m.value.1[..m.value.0];
      TakeShortens(cur);
      TakeShortens(s1);
      cur := m.value.1[m.value.0..];
      if !SafePath(rel) { return tree, Some(UnsafeComponent); }
      var ok := IsWritable(tree, rel);
      if !ok { return tree, Some(FileSystem); }
      tree := tree[rel := content];
    }
    failure := None;
  }

  lemma TakeShortens(s: Bytes)
    ensures TakeU64(s).Some? ==> |TakeU64(s).value.1| < |s|
  {
  }

  // ------------------------------------------------------------ the round trip

  /** Files that a directory walk can yield and the reader will accept. */
  ghost predicate Servable(isUtf8: Bytes -> bool, files: Files, tree: Tree) {
    && (forall p :: p in files ==> isUtf8(p) && SafePath(p))
    && (forall p, q :: p in files && q in files ==> !Obstructs(p, q))
    && (forall p, q :: p in tree && q in files ==> !Obstructs(p, q))
  }

  /** The part of `files` under these names, laid over a tree. */
  function Overlaid(tree: Tree, names: seq<Bytes>, files: Files): Tree
    requires forall x :: x in names ==> x in files
    decreases |names|
  {
    if names == [] then tree else Overlaid(tree[names[0] := files[names[0]]], names[1..], files)
  }

  lemma TakesRecord(isUtf8: Bytes -> bool, rel: Text, content: Text, rest: Bytes, tree: Tree)
    requires isUtf8(rel) && SafePath(rel) && Writable(tree, rel)
    ensures Unpacked(isUtf8, RecordBytes(rel, content) + rest, tree) == Unpacked(isUtf8, rest, tree[rel := content])
  {
    hide Lp, TakeLp, SafePath, Writable;
    var cur := RecordBytes(rel, content) + rest;
    assert cur == Lp(rel) + (Lp(content) + rest);
    LpNotEmpty(rel);
    TakesLp(rel, Lp(content) + rest);
    TakesLp(content, rest);
  }

  lemma LpNotEmpty(t: Text)
    ensures |Lp(t)| > 0
  {
  }

  lemma {:induction false} UnpacksPacked(isUtf8: Bytes -> bool, names: seq<Bytes>, files: Files, rest: Bytes,
                                         tree: Tree)
    requires Servable(isUtf8, files, tree) && forall x :: x in names ==> x in files
    ensures Unpacked(isUtf8, Packed(names, files) + rest, tree) == Unpacked(isUtf8, rest, Overlaid(tree, names, files))
    decreases |names|
  {
    hide SafePath, Obstructs, Unpacked, RecordBytes;
    if names == [] {
      assert Packed(names, files) + rest == rest;
    } else {
      var rel, tail := names[0], Packed(names[1..], files) + rest;
      assert Packed(names, files) + rest == RecordBytes(rel, files[rel]) + tail;
      TakesRecord(isUtf8, rel, files[rel], tail, tree);
      UnpacksPacked(isUtf8, names[1..], files, rest, tree[rel := files[rel]]);
    }
  }

  lemma {:induction false} OverlaidIs(tree: Tree, names: seq<Bytes>, files: Files)
    requires forall x :: x in names ==> x in files
    ensures forall p :: p in Overlaid(tree, names, files) <==> p in tree || p in names
    ensures forall p :: p in names ==> Overlaid(tree, names, files)[p] == files[p]
    ensures forall p :: p in tree && p !in names ==> Overlaid(tree, names, files)[p] == tree[p]
    decreases |names|
  {
    if names != [] {
      OverlaidIs(tree[names[0] := files[names[0]]], names[1..], files);
      assert names == [names[0]] + names[1..];
    }
  }

  /** A tree with these files laid over it. */
  function Over(tree: Tree, files: Files): Tree {
    map p | p in tree.Keys + files.Keys :: if p in files then files[p] else tree[p]
  }

  lemma OverlaidAll(tree: Tree, files: Files)
    ensures Overlaid(tree, SortedSet(files.Keys), files) == Over(tree, files)
  {
    hide SortedSet, Overlaid;
    OverlaidIs(tree, SortedSet(files.Keys), files);
  }

  /** The records of a packed tree are expanded, whatever follows them. */
  lemma UnpacksRecords(isUtf8: Bytes -> bool, files: Files, tree: Tree, tail: Bytes)
    requires Servable(isUtf8, files, tree)
    ensures Unpack(isUtf8, Pack(files) + tail, tree) == Unpacked(isUtf8, tail, Over(tree, files))
  {
    hide Servable, HEADER, SortedSet, Unpacked, Packed, Overlaid, Over;
    var body := Packed(SortedSet(files.Keys), files);
    assert (Pack(files) + tail)[|HEADER|..] == body + tail;
    UnpacksPacked(isUtf8, SortedSet(files.Keys), files, tail, tree);
    OverlaidAll(tree, files);
  }

  /** Unpacking inverts packing: the output directory gains exactly the packed
      files and keeps everything else. */
  lemma UnpackInvertsPack(isUtf8: Bytes -> bool, files: Files, tree: Tree)
    requires Servable(isUtf8, files, tree)
    ensures Unpack(isUtf8, Pack(files), tree) == (Over(tree, files), None)
  {
    hide Servable, Pack, Unpack, Over;
    UnpacksRecords(isUtf8, files, tree, []);
    assert Pack(files) + [] == Pack(files);
  }

  /** Equal blobs come from equal trees. */
  lemma PackInjective(files: Files, other: Files)
    requires Pack(files) == Pack(other)
    ensures files == other
  {
    hide HEADER, SortedSet, Packed;
    assert Pack(files)[|HEADER|..] == Packed(SortedSet(files.Keys), files);
    assert Pack(other)[|HEADER|..] == Packed(SortedSet(other.Keys), other);
    PackedInjective(SortedSet(files.Keys), files, SortedSet(other.Keys), other);
    assert files.Keys == other.Keys by {
      forall p ensures p in files <==> p in other {
        assert p in SortedSet(files.Keys) <==> p in SortedSet(other.Keys);
      }
    }
    assert files == other;
  }

  lemma {:induction false} PackedInjective(names: seq<Bytes>, files: Files, others: seq<Bytes>, other: Files)
    requires forall x :: x in names ==> x in files
    requires forall x :: x in others ==> x in other
    requires Packed(names, files) == Packed(others, other)
    ensures names == others && forall p :: p in names ==> files[p] == other[p]
  {
    hide Lp;
    NothingPacked(names, files);
    NothingPacked(others, other);
    if names != [] {
      var x, y := names[0], others[0];
      var s, t := Packed(names[1..], files), Packed(others[1..], other);
      assert Packed(names, files) == Lp(x) + (Lp(files[x]) + s);
      assert Packed(others, other) == Lp(y) + (Lp(other[y]) + t);
      TakesLp(x, Lp(files[x]) + s);
      TakesLp(y, Lp(other[y]) + t);
      TakesLp(files[x], s);
      TakesLp(other[y], t);
      PackedInjective(names[1..], files, others[1..], other);
      assert names == [x] + names[1..] && others == [y] + others[1..];
    }
  }

  lemma NothingPacked(names: seq<Bytes>, files: Files)
    requires forall x :: x in names ==> x in files
    ensures Packed(names, files) == [] <==> names == []
  {
    if names != [] { LpNotEmpty(names[0]); }
  }

  // ------------------------------------------------------------ corrupt blobs

  type Record = (Bytes, Bytes)

  /** The records the reader writes before it stops, in blob order. */
  ghost function Accepted(isUtf8: Bytes -> bool, cur: Bytes, tree: Tree): seq<Record>
    decreases |cur|
  {
    if cur == [] then []
    else match First(isUtf8, cur, tree)
      case Err(_) => []
      case Ok((rel, content, rest)) => [(rel, content)] + Accepted(isUtf8, rest, tree[rel := content])
  }

  ghost function Written(isUtf8: Bytes -> bool, blob: Bytes, tree: Tree): seq<Record> {
    if HEADER <= blob then Accepted(isUtf8, blob[|HEADER|..], tree) else []
  }

  /** A tree after these writes, one by one. */
  function Laid(tree: Tree, records: seq<Record>): Tree
    decreases |records|
  {
    if records == [] then tree else Laid(tree[records[0].0 := records[0].1], records[1..])
  }

  predicate Sized(records: seq<Record>) {
    forall k :: 0 <= k < |records| ==> |records[k].0| < U64_LIMIT && |records[k].1| < U64_LIMIT
  }

  /** The bytes of these records, one after the other. */
  function Body(records: seq<Record>): Bytes
    requires Sized(records)
  {
    if records == [] then [] else RecordBytes(records[0].0, records[0].1) + Body(records[1..])
  }

  lemma FirstIs(isUtf8: Bytes -> bool, cur: Bytes, tree: Tree)
    requires First(isUtf8, cur, tree).Ok?
    ensures
      var (rel, content, rest) := First(isUtf8, cur, tree).value;
      && |rel| < U64_LIMIT && |content| < U64_LIMIT && |rest| < |cur|
      && cur == RecordBytes(rel, content) + rest
  {
    hide TakeLp, Lp, SafePath, Writable;
    var (rel, content, rest) := First(isUtf8, cur, tree).value;
    var s1 := TakeLp(cur).value.1;
    LpTaken(cur);
    LpTaken(s1);
    LpNotEmpty(rel);
    assert cur == Lp(rel) + (Lp(content) + rest);
  }

  /** A blob's body is the records that are written and a rest, which is empty
      or begins with the record the reader stops at. */
  lemma {:induction false} StopsAt(isUtf8: Bytes -> bool, cur: Bytes, tree: Tree) returns (rest: Bytes)
    ensures
      var records := Accepted(isUtf8, cur, tree);
      && Sized(records) && cur == Body(records) + rest
      && Unpacked(isUtf8, cur, tree).0 == Laid(tree, records)
      && (match Unpacked(isUtf8, cur, tree).1
          case None => rest == []
          case Some(failure) => rest != [] && First(isUtf8, rest, Laid(tree, records)) == Err(failure))
    decreases |cur|
  {
    hide First, RecordBytes;
    rest := cur;
    if cur != [] && First(isUtf8, cur, tree).Ok? {
      var (rel, content, after) := First(isUtf8, cur, tree).value;
      FirstIs(isUtf8, cur, tree);
      rest := StopsAt(isUtf8, after, tree[rel := content]);
      var records := Accepted(isUtf8, cur, tree);
      assert records[1..] == Accepted(isUtf8, after, tree[rel := content]);
      assert RecordBytes(rel, content) + (Body(records[1..]) + rest) == Body(records) + rest;
    }
  }

  /** The contents these writes leave at a path, if they write it at all. */
  function LastWrite(records: seq<Record>, p: Bytes): Option<Bytes> {
    if records == [] then None
    else if records[|records| - 1].0 == p then Some(records[|records| - 1].1)
    else LastWrite(records[..|records| - 1], p)
  }

  lemma {:induction false} LaidLast(tree: Tree, records: seq<Record>, r: Record)
    ensures Laid(tree, records + [r]) == Laid(tree, records)[r.0 := r.1]
    decreases |records|
  {
    if records == [] {
      assert ([] + [r])[1..] == [];
    } else {
      assert (records + [r])[1..] == records[1..] + [r];
      LaidLast(tree[records[0].0 := records[0].1], records[1..], r);
    }
  }

  lemma {:induction false} LaidIs(tree: Tree, records: seq<Record>, p: Bytes)
    ensures
      match LastWrite(records, p)
      case None => p in Laid(tree, records) <==> p in tree
      case Some(content) => p in Laid(tree, records) && Laid(tree, records)[p] == content
    ensures LastWrite(records, p).None? && p in tree ==> Laid(tree, records)[p] == tree[p]
    decreases |records|
  {
    if records != [] {
      var front, r := records[..|records| - 1], records[|records| - 1];
      assert records == front + [r];
      LaidLast(tree, front, r);
      LaidIs(tree, front, p);
    }
  }

  /** Every path ends up with the contents it already had. */
  ghost predicate Redundant(tree: Tree, records: seq<Record>) {
    forall p :: LastWrite(records, p).Some? ==> p in tree && tree[p] == LastWrite(records, p).value
  }

  lemma RedundantIff(tree: Tree, records: seq<Record>)
    ensures Laid(tree, records) == tree <==> Redundant(tree, records)
  {
    var t := Laid(tree, records);
    forall p ensures LastWrite(records, p).Some? ==> p in t && t[p] == LastWrite(records, p).value {
      LaidIs(tree, records, p);
    }
    if Redundant(tree, records) {
      forall p ensures (p in t <==> p in tree) && (p in t ==> t[p] == tree[p]) {
        LaidIs(tree, records, p);
      }
    }
  }

  /** A blob that fails leaves the directory with the accepted records laid over
      it, and keeps the promise of writing nothing exactly when its header is
      bad or its very first record is refused. */
  lemma NothingWrittenIff(isUtf8: Bytes -> bool, blob: Bytes, tree: Tree)
    requires Unpack(isUtf8, blob, tree).1.Some?
    ensures Written(isUtf8, blob, tree) == [] <==>
            !(HEADER <= blob) || First(isUtf8, blob[|HEADER|..], tree).Err?
    ensures Unpack(isUtf8, blob, tree).0 == Laid(tree, Written(isUtf8, blob, tree))
    ensures Unpack(isUtf8, blob, tree).0 == tree <==> Redundant(tree, Written(isUtf8, blob, tree))
  {
    hide First, HEADER;
    RedundantIff(tree, Written(isUtf8, blob, tree));
    if HEADER <= blob {
      var rest := StopsAt(isUtf8, blob[|HEADER|..], tree);
    }
  }

  /** These records can be written one after the other: each path is UTF-8, leads
      from the output directory to its own components without staying or going up,
      and neither runs through a file that is already there nor names a directory
      that one lies in. */
  ghost predicate Legal(isUtf8: Bytes -> bool, tree: Tree, records: seq<Record>)
    decreases |records|
  {
    records == []
    || (var (rel, content) := records[0];
        var parts := Paths.Split(rel);
        && |rel| < U64_LIMIT && |content| < U64_LIMIT && isUtf8(rel)
        && Paths.Resolved([], parts) == parts
        && (forall p :: p in tree && p != rel ==> !(Paths.Split(p) <= parts) && !(parts <= Paths.Split(p)))
        && Legal(isUtf8, tree[rel := content], records[1..]))
  }

  lemma SafePathIff(rel: Bytes)
    ensures SafePath(rel) <==> Paths.Resolved([], Paths.Split(rel)) == Paths.Split(rel)
  {
    Paths.ResolvesToItselfIff([], Paths.Split(rel));
    assert [] + Paths.Split(rel) == Paths.Split(rel);
    assert DOT == [46] && DOT_DOT == [46, 46];
  }

  lemma FirstIsLegal(isUtf8: Bytes -> bool, cur: Bytes, tree: Tree)
    requires First(isUtf8, cur, tree).Ok?
    ensures
      var (rel, content, rest) := First(isUtf8, cur, tree).value;
      && isUtf8(rel) && SafePath(rel) && Writable(tree, rel)
  {
    hide TakeLp, SafePath, Writable;
  }

  /** Whatever a blob holds, what is written from it is legal. */
  lemma {:induction false} AcceptedIsLegal(isUtf8: Bytes -> bool, cur: Bytes, tree: Tree)
    ensures Legal(isUtf8, tree, Accepted(isUtf8, cur, tree))
    decreases |cur|
  {
    hide First, SafePath, RecordBytes;
    if cur != [] && First(isUtf8, cur, tree).Ok? {
      var (rel, content, rest) := First(isUtf8, cur, tree).value;
      FirstIs(isUtf8, cur, tree);
      FirstIsLegal(isUtf8, cur, tree);
      SafePathIff(rel);
      AcceptedIsLegal(isUtf8, rest, tree[rel := content]);
      var records := Accepted(isUtf8, cur, tree);
      assert records[1..] == Accepted(isUtf8, rest, tree[rel := content]);
    }
  }

  lemma {:induction false} LegalIsSized(isUtf8: Bytes -> bool, tree: Tree, records: seq<Record>)
    requires Legal(isUtf8, tree, records)
    ensures Sized(records)
    decreases |records|
  {
    if records != [] {
      LegalIsSized(isUtf8, tree[records[0].0 := records[0].1], records[1..]);
      assert records == [records[0]] + records[1..];
    }
  }

  lemma {:induction false} LegalUnpacks(isUtf8: Bytes -> bool, tree: Tree, records: seq<Record>)
    requires Legal(isUtf8, tree, records) && Sized(records)
    ensures Unpacked(isUtf8, Body(records), tree) == (Laid(tree, records), None)
    decreases |records|
  {
    hide SafePath, RecordBytes;
    if records != [] {
      var (rel, content) := records[0];
      var rest := records[1..];
      SafePathIff(rel);
      LegalIsSized(isUtf8, tree[rel := content], rest);
      LegalUnpacks(isUtf8, tree[rel := content], rest);
      hide Unpacked, Legal;
      TakesRecord(isUtf8, rel, content, Body(rest), tree);
    }
  }

  /** A blob is unpacked without an error exactly when it is the header and the bytes
      of legal records, which are then laid over the output directory in order; and
      even from a blob that is refused only legal records are written, so nothing
      ever lands outside the output directory. */
  lemma UnpacksIff(isUtf8: Bytes -> bool, blob: Bytes, tree: Tree)
    ensures Unpack(isUtf8, blob, tree).1.None? <==>
            exists records :: Legal(isUtf8, tree, records) && Sized(records) && blob == HEADER + Body(records)
    ensures forall records ::
              Legal(isUtf8, tree, records) && Sized(records) && blob == HEADER + Body(records) ==>
                Unpack(isUtf8, blob, tree) == (Laid(tree, records), None)
    ensures Legal(isUtf8, tree, Written(isUtf8, blob, tree))
  {
    hide First, HEADER, Legal, RecordBytes, Unpacked, Laid;
    forall records | Legal(isUtf8, tree, records) && Sized(records) && blob == HEADER + Body(records)
      ensures Unpack(isUtf8, blob, tree) == (Laid(tree, records), None)
    {
      LegalUnpacks(isUtf8, tree, records);
      assert blob[|HEADER|..] == Body(records);
    }
    NothingIsLegal(isUtf8, tree);
    if HEADER <= blob {
      var cur := blob[|HEADER|..];
      AcceptedIsLegal(isUtf8, cur, tree);
      var rest := StopsAt(isUtf8, cur, tree);
      if Unpack(isUtf8, blob, tree).1.None? {
        assert blob == HEADER + Body(Accepted(isUtf8, cur, tree));
      }
    }
  }

  lemma NothingIsLegal(isUtf8: Bytes -> bool, tree: Tree)
    ensures Legal(isUtf8, tree, [])
  {
  }

  /** A blob cut short after a whole number of records fails, and the files of
      those records stay written. */
  lemma FailureKeepsWhatItWrote(isUtf8: Bytes -> bool, files: Files, tree: Tree, junk: Bytes)
    requires Servable(isUtf8, files, tree) && 0 < |junk| < 8
    ensures Unpack(isUtf8, Pack(files) + junk, tree) == (Over(tree, files), Some(Truncated))
  {
    hide Servable, Pack, Unpack, Over;
    UnpacksRecords(isUtf8, files, tree, junk);
  }

  lemma PlainNameIsSafe()
    ensures SafePath(Ascii("a"))
  {
    var a := Ascii("a");
    Paths.SplitOfPlain(a);
    assert |DOT| == 1 && DOT[0] == '.' as int && |DOT_DOT| == 2;
    assert a[0] == 'a' as int;
  }

  /** One file and one stray byte: the blob is refused and the file is there. */
  lemma HalfExpanded(isUtf8: Bytes -> bool)
    requires isUtf8(Ascii("a"))
    ensures
      var files: Files := map[Ascii("a") := Ascii("x")];
      Unpack(isUtf8, Pack(files) + [0], map[]) == (files, Some(Truncated))
  {
    hide Pack, Unpack, SafePath, Ascii;
    var files: Files := map[Ascii("a") := Ascii("x")];
    PlainNameIsSafe();
    FailureKeepsWhatItWrote(isUtf8, files, map[], [0]);
    assert Over(map[], files) == files;
  }
}
