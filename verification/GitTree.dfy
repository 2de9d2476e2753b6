/**
 * Candidate trees: entries are inserted into a trie by path component, and the
 * trie is hashed bottom-up the way Git hashes tree objects.
 */
module GitTree {
  import opened Wrappers
  import opened Bytes
  import opened GitObject
  import opened Candidate
  import Paths
  import Hex

  datatype Node = Directory(children: map<Bytes, Node>) | Leaf(mode: Text, oid: Bytes)

  const NoEntries: Node := Directory(map[])

  // ------------------------------------------------------------ insertion

  /** `node` with a leaf added at a component path, creating directories on the way. */
  function Inserted(node: Node, parts: seq<Bytes>, mode: Text, oid: Text, format: Format): (r: Result<Node, Code>)
    requires node.Directory? && parts != []
    ensures r.Ok? ==> r.value.Directory?
    decreases |parts|
  {
    var name := parts[0];
    if |parts| == 1 then
      if name in node.children then Err(PathNoncanonical)
      else if !OidOk(oid, format) then Err(OidInvalid)
      else match Hex.Decode(oid)
        case None => Err(FieldInvalid)
        case Some(bytes) => Ok(Directory(node.children[name := Leaf(mode, bytes)]))
    else
      var child := if name in node.children then node.children[name] else NoEntries;
      if child.Leaf? then Err(PathNoncanonical)
      else match Inserted(child, parts[1..], mode, oid, format)
        case Err(code) => Err(code)
        case Ok(grown) => Ok(Directory(node.children[name := grown]))
  }

  /** What a refused insertion leaves behind: the directories made on the way. */
  function Opened(node: Node, parts: seq<Bytes>): Node
    requires node.Directory? && parts != []
    decreases |parts|
  {
    if |parts| == 1 then node
    else
      var child := if parts[0] in node.children then node.children[parts[0]] else NoEntries;
      if child.Leaf? then node else Directory(node.children[parts[0] := Opened(child, parts[1..])])
  }

  /** The trie of a list of entries, or the code of the first that does not fit. */
  function Built(entries: seq<Entry>, format: Format): (r: Result<Node, Code>)
    ensures r.Ok? ==> r.value.Directory?
  {
    if entries == [] then Ok(NoEntries)
    else
      var e := entries[|entries| - 1];
      match Built(entries[..|entries| - 1], format)
      case Err(code) => Err(code)
      case Ok(root) => Inserted(root, Paths.Split(e.path), e.mode, e.blobOid, format)
  }

  // ------------------------------------------------------------ what a trie means

  function OidBytes(oid: Text): Bytes {
    match Hex.Decode(oid) case Some(bytes) => bytes case None => []
  }

  /** The leaf at a component path. */
  function At(node: Node, parts: seq<Bytes>): Option<(Text, Bytes)>
    decreases node
  {
    match node
    case Leaf(mode, oid) => if parts == [] then Some((mode, oid)) else None
    case Directory(children) =>
      if parts != [] && parts[0] in children then At(children[parts[0]], parts[1..]) else None
  }

  /** A refused insertion adds, changes and removes no leaf. */
  lemma {:induction false} OpenedAt(node: Node, parts: seq<Bytes>, q: seq<Bytes>)
    requires node.Directory? && parts != []
    ensures At(Opened(node, parts), q) == At(node, q)
    decreases |parts|
  {
    if |parts| > 1 && q != [] && q[0] == parts[0] {
      var child := if parts[0] in node.children then node.children[parts[0]] else NoEntries;
      if child.Directory? { OpenedAt(child, parts[1..], q[1..]); }
    }
  }

  /** No directory below the root is empty. */
  ghost predicate Dense(node: Node)
    decreases node
  {
    node.Directory? ==>
      forall k :: k in node.children ==> Dense(node.children[k]) && node.children[k] != NoEntries
  }

  lemma {:induction false} HasLeaf(node: Node) returns (parts: seq<Bytes>)
    requires Dense(node) && node != NoEntries
    ensures At(node, parts).Some?
    decreases node
  {
    if node.Leaf? {
      parts := [];
    } else {
      var k :| k in node.children;
      var rest := HasLeaf(node.children[k]);
      parts := [k] + rest;
    }
  }

  lemma {:induction false} InsertedAt(node: Node, parts: seq<Bytes>, mode: Text, oid: Text, format: Format,
                                      q: seq<Bytes>)
    requires node.Directory? && parts != [] && Inserted(node, parts, mode, oid, format).Ok?
    ensures
      var grown := Inserted(node, parts, mode, oid, format).value;
      At(grown, q) == if q == parts then Some((mode, OidBytes(oid))) else At(node, q)
    decreases |parts|
  {
    hide OidOk, Hex.Decode;
    if |parts| > 1 && q != [] && q[0] == parts[0] {
      var child := if parts[0] in node.children then node.children[parts[0]] else NoEntries;
      InsertedAt(child, parts[1..], mode, oid, format, q[1..]);
      assert q == parts <==> q[1..] == parts[1..] by {
        assert q == [q[0]] + q[1..] && parts == [parts[0]] + parts[1..];
      }
    }
    if |parts| == 1 && q != [] {
      assert q == parts <==> q[0] == parts[0] && q[1..] == [];
    }
  }

  lemma {:induction false} InsertedDense(node: Node, parts: seq<Bytes>, mode: Text, oid: Text, format: Format)
    requires node.Directory? && Dense(node) && parts != [] && Inserted(node, parts, mode, oid, format).Ok?
    ensures var grown := Inserted(node, parts, mode, oid, format).value; Dense(grown) && grown != NoEntries
    decreases |parts|
  {
    hide OidOk, Hex.Decode;
    var grown := Inserted(node, parts, mode, oid, format).value;
    assert parts[0] in grown.children;
    if |parts| > 1 {
      var child := if parts[0] in node.children then node.children[parts[0]] else NoEntries;
      InsertedDense(child, parts[1..], mode, oid, format);
    }
  }

  /** Two component paths that cannot both name files. */
  predicate Conflict(p: seq<Bytes>, q: seq<Bytes>) { p <= q || q <= p }

  lemma ConflictTail(p: seq<Bytes>, q: seq<Bytes>)
    requires p != [] && q != []
    ensures Conflict(p, q) <==> p[0] == q[0] && Conflict(p[1..], q[1..])
  {
    assert p == [p[0]] + p[1..] && q == [q[0]] + q[1..];
  }

  ghost predicate Blocked(node: Node, parts: seq<Bytes>) {
    exists q :: At(node, q).Some? && Conflict(parts, q)
  }

  lemma BlockedBelow(node: Node, parts: seq<Bytes>)
    requires node.Directory? && |parts| > 1 && parts[0] in node.children && node.children[parts[0]].Directory?
    ensures Blocked(node, parts) <==> Blocked(node.children[parts[0]], parts[1..])
  {
    var child := node.children[parts[0]];
    if Blocked(node, parts) {
      var q :| At(node, q).Some? && Conflict(parts, q);
      ConflictTail(parts, q);
      assert At(child, q[1..]).Some?;
    }
    if Blocked(child, parts[1..]) {
      var q :| At(child, q).Some? && Conflict(parts[1..], q);
      var whole := [parts[0]] + q;
      assert whole[1..] == q;
      ConflictTail(parts, whole);
      assert At(node, whole).Some?;
    }
  }

  /** Insertion is refused for its path exactly when an existing leaf's path is
      equal to it or one is a component-wise prefix of the other. */
  lemma {:induction false} InsertedIff(node: Node, parts: seq<Bytes>, mode: Text, oid: Text, format: Format)
    requires node.Directory? && Dense(node) && parts != [] && OidOk(oid, format)
    ensures Inserted(node, parts, mode, oid, format).Ok? <==> !Blocked(node, parts)
    ensures Inserted(node, parts, mode, oid, format).Err? ==>
              Inserted(node, parts, mode, oid, format).error == PathNoncanonical
    decreases |parts|
  {
    hide OidOk, Dense;
    OidDecodes(oid, format);
    var name := parts[0];
    if name !in node.children {
      NotBlocked(node, parts);
      if |parts| > 1 {
        NothingIsDense();
        InsertedIff(NoEntries, parts[1..], mode, oid, format);
      }
    } else {
      var child := node.children[name];
      DenseChild(node, name);
      if |parts| == 1 || child.Leaf? {
        var rest := HasLeaf(child);
        var q := [name] + rest;
        assert q[1..] == rest;
        assert At(node, q).Some?;
        ConflictTail(parts, q);
      } else {
        BlockedBelow(node, parts);
        InsertedIff(child, parts[1..], mode, oid, format);
      }
    }
  }

  lemma DenseChild(node: Node, name: Bytes)
    requires Dense(node) && node.Directory? && name in node.children
    ensures Dense(node.children[name]) && node.children[name] != NoEntries
  {
  }

  lemma NothingIsDense()
    ensures Dense(NoEntries) && forall parts :: parts != [] ==> !Blocked(NoEntries, parts)
  {
  }

  lemma NotBlocked(node: Node, parts: seq<Bytes>)
    requires node.Directory? && parts != [] && parts[0] !in node.children
    ensures !Blocked(node, parts)
  {
    forall q | At(node, q).Some? ensures !Conflict(parts, q) {
      ConflictTail(parts, q);
    }
  }

  lemma {:induction false} LowerHexDecodes(t: Text)
    requires IsLowerHex(t) && |t| % 2 == 0
    ensures Hex.Decode(t).Some?
  {
    if t != [] { LowerHexDecodes(t[2..]); }
  }

  lemma OidDecodes(oid: Text, format: Format)
    requires OidOk(oid, format)
    ensures Hex.Decode(oid).Some? && |Hex.Decode(oid).value| == OidHexLen(format) / 2
  {
    LowerHexDecodes(oid);
  }

  // ------------------------------------------------------------ whole lists

  ghost predicate Apart(entries: seq<Entry>) {
    forall j, k :: 0 <= j < k < |entries| ==> !Conflict(Paths.Split(entries[j].path), Paths.Split(entries[k].path))
  }

  predicate OidsOk(entries: seq<Entry>, format: Format) {
    forall e :: e in entries ==> OidOk(e.blobOid, format)
  }

  /** The trie of `entries` holds exactly their leaves. */
  ghost predicate Holds(node: Node, entries: seq<Entry>) {
    && (forall e :: e in entries ==> At(node, Paths.Split(e.path)) == Some((e.mode, OidBytes(e.blobOid))))
    && (forall q :: At(node, q).Some? ==> exists e :: e in entries && Paths.Split(e.path) == q)
  }

  lemma BlockedIff(root: Node, front: seq<Entry>, e: Entry, format: Format)
    requires OidsOk(front, format) && Holds(root, front) && root.Directory?
    ensures Blocked(root, Paths.Split(e.path)) <==>
            exists k :: 0 <= k < |front| && Conflict(Paths.Split(front[k].path), Paths.Split(e.path))
  {
    if Blocked(root, Paths.Split(e.path)) {
      var q :| At(root, q).Some? && Conflict(Paths.Split(e.path), q);
      var d :| d in front && Paths.Split(d.path) == q;
      var k :| 0 <= k < |front| && front[k] == d;
      assert Conflict(Paths.Split(front[k].path), Paths.Split(e.path));
    }
    if k :| 0 <= k < |front| && Conflict(Paths.Split(front[k].path), Paths.Split(e.path)) {
      assert front[k] in front;
      assert At(root, Paths.Split(front[k].path)).Some?;
      assert Conflict(Paths.Split(e.path), Paths.Split(front[k].path));
    }
  }

  /** A list of entries builds a trie exactly when no path equals another or is a
      component-wise prefix of it, and the trie then holds exactly its leaves. */
  lemma {:induction false} BuiltIff(entries: seq<Entry>, format: Format)
    requires OidsOk(entries, format)
    ensures Built(entries, format).Ok? <==> Apart(entries)
    ensures Built(entries, format).Err? ==> Built(entries, format).error == PathNoncanonical
    ensures Built(entries, format).Ok? ==>
              Dense(Built(entries, format).value) && Holds(Built(entries, format).value, entries)
    decreases |entries|
  {
    hide OidOk, Hex.Decode, Conflict;
    if entries != [] {
      var front, e := entries[..|entries| - 1], entries[|entries| - 1];
      assert entries == front + [e];
      BuiltIff(front, format);
      ApartStep(front, e);
      if Built(front, format).Ok? {
        var root, parts := Built(front, format).value, Paths.Split(e.path);
        InsertedIff(root, parts, e.mode, e.blobOid, format);
        BlockedIff(root, front, e, format);
        if Built(entries, format).Ok? {
          InsertedDense(root, parts, e.mode, e.blobOid, format);
          HoldsStep(root, front, e, format);
        }
      }
    }
  }

  lemma ApartStep(front: seq<Entry>, e: Entry)
    ensures Apart(front + [e]) <==>
            Apart(front) && forall k :: 0 <= k < |front| ==> !Conflict(Paths.Split(front[k].path), Paths.Split(e.path))
  {
    hide Conflict;
    var all := front + [e];
    if Apart(all) {
      forall k | 0 <= k < |front| ensures !Conflict(Paths.Split(front[k].path), Paths.Split(e.path)) {
        assert all[k] == front[k] && all[|front|] == e;
      }
      forall j, k | 0 <= j < k < |front| ensures !Conflict(Paths.Split(front[j].path), Paths.Split(front[k].path)) {
        assert all[j] == front[j] && all[k] == front[k];
      }
    }
  }

  lemma HoldsStep(root: Node, front: seq<Entry>, e: Entry, format: Format)
    requires root.Directory? && Holds(root, front)
    requires Inserted(root, Paths.Split(e.path), e.mode, e.blobOid, format).Ok?
    requires forall k :: 0 <= k < |front| ==> !Conflict(Paths.Split(front[k].path), Paths.Split(e.path))
    ensures Holds(Inserted(root, Paths.Split(e.path), e.mode, e.blobOid, format).value, front + [e])
  {
    hide Hex.Decode, Inserted, At;
    var grown := Inserted(root, Paths.Split(e.path), e.mode, e.blobOid, format).value;
    forall q
      ensures At(grown, q) == if q == Paths.Split(e.path) then Some((e.mode, OidBytes(e.blobOid))) else At(root, q)
    {
      InsertedAt(root, Paths.Split(e.path), e.mode, e.blobOid, format, q);
    }
    forall d | d in front + [e]
      ensures At(grown, Paths.Split(d.path)) == Some((d.mode, OidBytes(d.blobOid)))
    {
      if d in front {
        var k :| 0 <= k < |front| && front[k] == d;
        assert Paths.Split(d.path) != Paths.Split(e.path);
      }
    }
    forall q | At(grown, q).Some? ensures exists d :: d in front + [e] && Paths.Split(d.path) == q {
      if q == Paths.Split(e.path) {
        assert e in front + [e];
      } else {
        var d :| d in front && Paths.Split(d.path) == q;
        assert d in front + [e];
      }
    }
  }

  // ------------------------------------------------------------ order does not matter

  /** Tries without empty directories are equal when they hold the same leaves. */
  lemma {:induction false} SameLeavesSameTrie(a: Node, b: Node)
    requires Dense(a) && Dense(b) && a.Directory? && b.Directory?
    requires forall q :: At(a, q) == At(b, q)
    ensures a == b
    decreases a
  {
    forall k ensures k in a.children <==> k in b.children {
      if k in a.children { KnownChild(a, b, k); }
      if k in b.children { KnownChild(b, a, k); }
    }
    forall k | k in a.children ensures a.children[k] == b.children[k] {
      var c, d := a.children[k], b.children[k];
      forall q ensures At(c, q) == At(d, q) {
        var whole := [k] + q;
        assert whole[1..] == q;
        assert At(a, whole) == At(c, q) && At(b, whole) == At(d, q);
      }
      assert At(c, []) == At(d, []);
      if c.Directory? { SameLeavesSameTrie(c, d); }
    }
    assert a.children == b.children;
  }

  lemma KnownChild(a: Node, b: Node, k: Bytes)
    requires Dense(a) && a.Directory? && b.Directory? && k in a.children
    requires forall q :: At(a, q) == At(b, q)
    ensures k in b.children
  {
    DenseChild(a, k);
    var rest := HasLeaf(a.children[k]);
    var whole := [k] + rest;
    assert whole[1..] == rest;
    assert At(a, whole) == At(a.children[k], rest);
    assert At(a, whole) == At(b, whole);
  }

  /** The trie depends on the set of entries only, not on their order. */
  lemma OrderDoesNotMatter(es: seq<Entry>, ds: seq<Entry>, format: Format)
    requires OidsOk(es, format) && multiset(es) == multiset(ds)
    ensures Built(es, format).Ok? <==> Built(ds, format).Ok?
    ensures Built(es, format).Ok? ==> Built(es, format) == Built(ds, format)
  {
    SameMembers(es, ds);
    SameMembers(ds, es);
    BuiltIff(es, format);
    BuiltIff(ds, format);
    if Apart(ds) { ApartPermuted(ds, es); }
    if Apart(es) {
      ApartPermuted(es, ds);
      var a, b := Built(es, format).value, Built(ds, format).value;
      forall q ensures At(a, q) == At(b, q) {
        if At(a, q).Some? { var e :| e in es && Paths.Split(e.path) == q; assert e in ds; }
        if At(b, q).Some? { var e :| e in ds && Paths.Split(e.path) == q; assert e in es; }
      }
      SameLeavesSameTrie(a, b);
    }
  }

  lemma SameMembers(es: seq<Entry>, ds: seq<Entry>)
    requires multiset(es) == multiset(ds)
    ensures forall e :: e in es ==> e in ds
  {
    forall e | e in es ensures e in ds {
      assert e in multiset(es);
    }
  }

  lemma ApartPermuted(es: seq<Entry>, ds: seq<Entry>)
    requires multiset(es) == multiset(ds) && Apart(es)
    ensures Apart(ds)
  {
    forall j, k | 0 <= j < k < |ds| ensures !Conflict(Paths.Split(ds[j].path), Paths.Split(ds[k].path)) {
      assert ds[j] in multiset(ds) && ds[k] in multiset(ds);
      assert ds[j] in es && ds[k] in es;
      var x :| 0 <= x < |es| && es[x] == ds[j];
      var y :| 0 <= y < |es| && es[y] == ds[k];
      if x == y {
        TwiceCounted(ds, j, k);
        OnceCounted(es, ds[j]);
      } else if y < x {
        assert !Conflict(Paths.Split(es[y].path), Paths.Split(es[x].path));
      }
    }
  }

  lemma TwiceCounted(ds: seq<Entry>, j: nat, k: nat)
    requires j < k < |ds| && ds[j] == ds[k]
    ensures multiset(ds)[ds[j]] >= 2
  {
    assert ds == ds[..k] + [ds[k]] + ds[k + 1..];
    assert ds[..k][j] == ds[j];
    assert ds[j] in multiset(ds[..k]);
  }

  lemma {:induction false} OnceCounted(es: seq<Entry>, e: Entry)
    requires Apart(es)
    ensures multiset(es)[e] <= 1
    decreases |es|
  {
    if es != [] {
      var front, last := es[..|es| - 1], es[|es| - 1];
      assert es == front + [last];
      ApartStep(front, last);
      OnceCounted(front, e);
      assert Conflict(Paths.Split(last.path), Paths.Split(last.path));
      assert last !in front;
      assert multiset(front)[last] == 0;
    }
  }
}
