/**
 * The Git object id of a candidate tree: directories are hashed bottom-up from
 * their items in Git order, and the root id determines every path, mode and blob.
 */
module GitMerkle {
  import opened Wrappers
  import opened Bytes
  import opened GitObject
  import opened Candidate
  import opened GitTree
  import Paths
  import Hex

  const DIRECTORY: Text := Ascii("40000")

  // ------------------------------------------------------------ Git order

  /** Git compares a directory as if its name ended in a slash. */
  function Key(dirs: set<Bytes>, name: Bytes): Bytes {
    if name in dirs then name + [Paths.SLASH] else name
  }

  /** A stable sort by key of names already in byte order. */
  predicate Before(dirs: set<Bytes>, a: Bytes, b: Bytes) {
    Less(Key(dirs, a), Key(dirs, b)) || (Key(dirs, a) == Key(dirs, b) && Less(a, b))
  }

  lemma BeforeTotal(dirs: set<Bytes>, a: Bytes, b: Bytes)
    ensures a == b || Before(dirs, a, b) || Before(dirs, b, a)
    ensures !(Before(dirs, a, b) && Before(dirs, b, a))
  {
    LessTotal(a, b);
    LessTotal(Key(dirs, a), Key(dirs, b));
    LessIrreflexive(Key(dirs, a));
  }

  lemma BeforeTransitive(dirs: set<Bytes>, a: Bytes, b: Bytes, c: Bytes)
    requires Before(dirs, a, b) && Before(dirs, b, c)
    ensures Before(dirs, a, c)
  {
    if Less(Key(dirs, a), Key(dirs, b)) && Less(Key(dirs, b), Key(dirs, c)) {
      LessTransitive(Key(dirs, a), Key(dirs, b), Key(dirs, c));
    }
    if Less(a, b) && Less(b, c) { LessTransitive(a, b, c); }
  }

  predicate IsFirst(names: set<Bytes>, dirs: set<Bytes>, x: Bytes) {
    x in names && forall y :: y in names ==> x == y || Before(dirs, x, y)
  }

  lemma {:induction false} FirstExists(names: set<Bytes>, dirs: set<Bytes>)
    requires names != {}
    ensures exists x :: IsFirst(names, dirs, x)
  {
    var n :| n in names;
    if names == {n} {
      assert IsFirst(names, dirs, n);
    } else {
      FirstExists(names - {n}, dirs);
      var x :| IsFirst(names - {n}, dirs, x);
      BeforeTotal(dirs, x, n);
      if Before(dirs, x, n) {
        assert IsFirst(names, dirs, x);
      } else {
        forall y | y in names ensures n == y || Before(dirs, n, y) {
          if y != n && y != x { BeforeTransitive(dirs, n, x, y); }
        }
        assert IsFirst(names, dirs, n);
      }
    }
  }

  lemma FirstUnique(names: set<Bytes>, dirs: set<Bytes>, x: Bytes, y: Bytes)
    requires IsFirst(names, dirs, x) && IsFirst(names, dirs, y)
    ensures x == y
  {
    BeforeTotal(dirs, x, y);
  }

  function Sorted(names: set<Bytes>, dirs: set<Bytes>): (r: seq<Bytes>)
    ensures |r| == |names| && forall x :: x in r <==> x in names
  {
    if names == {} then []
    else
      FirstExists(names, dirs);
      assert forall x, y :: IsFirst(names, dirs, x) && IsFirst(names, dirs, y) ==> x == y by {
        forall x, y | IsFirst(names, dirs, x) && IsFirst(names, dirs, y) ensures x == y {
          FirstUnique(names, dirs, x, y);
        }
      }
      var x :| IsFirst(names, dirs, x);
      [x] + Sorted(names - {x}, dirs)
  }

  // ------------------------------------------------------------ tree objects

  datatype Item = Item(name: Bytes, mode: Text, oid: Bytes)

  function Directories(children: map<Bytes, Node>): set<Bytes> {
    set k | k in children && children[k].Directory?
  }

  function ItemBytes(i: Item): Bytes {
    i.mode + [32] + i.name + [0] + i.oid
  }

  function Body(items: seq<Item>): Bytes {
    if items == [] then [] else ItemBytes(items[0]) + Body(items[1..])
  }

  function Oid(h: Hashes, format: Format, node: Node): Bytes
    decreases node
  {
    match node
    case Leaf(_, oid) => oid
    case Directory(children) =>
      ObjectHash(h, format, TREE,
        Body(Items(Sorted(children.Keys, Directories(children)),
                   children, map k | k in children :: Oid(h, format, children[k]))))
  }

  /** One item a name, in the order given. */
  function Items(names: seq<Bytes>, children: map<Bytes, Node>, oids: map<Bytes, Bytes>): (r: seq<Item>)
    requires forall x :: x in names ==> x in children && x in oids
    ensures |r| == |names|
    ensures forall k :: 0 <= k < |names| ==>
              r[k] == Item(names[k], if children[names[k]].Leaf? then children[names[k]].mode else DIRECTORY,
                           oids[names[k]])
  {
    if names == [] then []
    else
      var x := names[0];
      [Item(x, if children[x].Leaf? then children[x].mode else DIRECTORY, oids[x])] + Items(names[1..], children, oids)
  }

  function ItemsOf(h: Hashes, format: Format, children: map<Bytes, Node>): seq<Item> {
    Items(Sorted(children.Keys, Directories(children)),
          children, map k | k in children :: Oid(h, format, children[k]))
  }

  /** The tree object of a directory with one file: its kind and length, and one item. */
  lemma OneFileObject(h: Hashes, format: Format, name: Bytes, mode: Text, oid: Bytes)
    ensures
      var item := mode + Ascii(" ") + name + [0] + oid;
      Oid(h, format, Directory(map[name := Leaf(mode, oid)]))
      == HashOf(h, format)(Ascii("tree ") + Decimal(|item|) + [0] + item)
  {
    hide Ascii, Decimal;
    OneItem(h, format, name, Leaf(mode, oid));
    Spelled();
    assert [32] == Ascii(" ");
    ObjectSpelled(mode + [32] + name + [0] + oid);
  }

  /** A directory inside is an item of mode 40000 that carries its own id. */
  lemma OneDirectoryObject(h: Hashes, format: Format, name: Bytes, children: map<Bytes, Node>)
    ensures
      var item := Ascii("40000 ") + name + [0] + Oid(h, format, Directory(children));
      Oid(h, format, Directory(map[name := Directory(children)]))
      == HashOf(h, format)(Ascii("tree ") + Decimal(|item|) + [0] + item)
  {
    hide Ascii, Decimal, Oid;
    OneItem(h, format, name, Directory(children));
    Spelled();
    var item := Ascii("40000 ") + name + [0] + Oid(h, format, Directory(children));
    assert item == DIRECTORY + [32] + name + [0] + Oid(h, format, Directory(children));
    ObjectSpelled(item);
  }

  lemma Spelled()
    ensures Ascii(" ") == [32] && Ascii("40000 ") == DIRECTORY + [32] && Ascii("tree ") == TREE + [32]
  {
    assert Ascii("40000 ") == [52, 48, 48, 48, 48, 32] && DIRECTORY == [52, 48, 48, 48, 48];
    assert Ascii("tree ") == [116, 114, 101, 101, 32] && TREE == [116, 114, 101, 101];
  }

  lemma ObjectSpelled(item: Bytes)
    ensures Object(TREE, item) == Ascii("tree ") + Decimal(|item|) + [0] + item
  {
    hide Ascii, Decimal;
    Spelled();
  }

  lemma OneItem(h: Hashes, format: Format, name: Bytes, node: Node)
    ensures Oid(h, format, Directory(map[name := node]))
            == ObjectHash(h, format, TREE,
                 (if node.Leaf? then node.mode else DIRECTORY) + [32] + name + [0] + Oid(h, format, node))
  {
    var children := map[name := node];
    var names := Sorted(children.Keys, Directories(children));
    assert children.Keys == {name};
    assert |names| == 1 && names[0] in names && names[0] == name;
    assert names == [name];
    var items := ItemsOf(h, format, children);
    assert items[1..] == [] && Body(items) == ItemBytes(items[0]);
  }

  /** "a-b" sorts before the directory "a", whose name is taken as "a/", and after a
      file of that name. */
  lemma DirectoriesSortWithSlash()
    ensures Sorted({Ascii("a"), Ascii("a-b")}, {Ascii("a")}) == [Ascii("a-b"), Ascii("a")]
    ensures Sorted({Ascii("a"), Ascii("a-b")}, {}) == [Ascii("a"), Ascii("a-b")]
  {
    var a, b := Ascii("a"), Ascii("a-b");
    assert a == [97] && b == [97, 45, 98];
    hide Ascii;
    assert Less([45, 98], [47]) && Less([], [45, 98]);
    assert ([97] + [Paths.SLASH])[1..] == [47] && b[1..] == [45, 98] && a[1..] == [];
    assert Before({a}, b, a) && Before({}, a, b);
    TwoSorted(b, a, {a});
    TwoSorted(a, b, {});
  }

  lemma TwoSorted(x: Bytes, y: Bytes, dirs: set<Bytes>)
    requires x != y && Before(dirs, x, y)
    ensures Sorted({x, y}, dirs) == [x, y]
  {
    hide Before;
    BeforeTotal(dirs, x, y);
    var r := Sorted({x, y}, dirs);
    SortedStep({x, y}, dirs);
    assert IsFirst({x, y}, dirs, x);
    FirstUnique({x, y}, dirs, x, r[0]);
    assert {x, y} - {x} == {y};
    assert |r[1..]| == 1 && r[1..][0] in r[1..];
    assert r[1] == y;
  }

  /** Items leave in Git order: strictly ascending by name, a directory's name
      taken with a trailing slash. */
  lemma {:induction false} SortedInGitOrder(names: set<Bytes>, dirs: set<Bytes>)
    requires forall x :: x in names ==> Paths.SLASH !in x
    ensures
      var r := Sorted(names, dirs);
      forall j, k :: 0 <= j < k < |r| ==> Less(Key(dirs, r[j]), Key(dirs, r[k]))
  {
    hide Sorted, Key;
    if names != {} {
      var r := Sorted(names, dirs);
      var x := r[0];
      SortedStep(names, dirs);
      SortedInGitOrder(names - {x}, dirs);
      forall k | 0 < k < |r| ensures Less(Key(dirs, x), Key(dirs, r[k])) {
        assert r[1..][k - 1] in r[1..];
        KeysDiffer(dirs, x, r[k]);
      }
      assert forall j, k :: 0 < j < k < |r| ==> r[j] == r[1..][j - 1] && r[k] == r[1..][k - 1];
    }
  }

  lemma SortedStep(names: set<Bytes>, dirs: set<Bytes>)
    requires names != {}
    ensures
      var r := Sorted(names, dirs);
      && r != [] && IsFirst(names, dirs, r[0]) && r[1..] == Sorted(names - {r[0]}, dirs)
      && forall y :: y in r[1..] ==> y in names && y != r[0]
  {
  }

  lemma KeysDiffer(dirs: set<Bytes>, a: Bytes, b: Bytes)
    requires Paths.SLASH !in a && Paths.SLASH !in b && a != b
    ensures Key(dirs, a) != Key(dirs, b)
  {
    var x, y := Key(dirs, a), Key(dirs, b);
    if a in dirs { assert x[..|a|] == a && x[|a|] == Paths.SLASH; }
    if b in dirs { assert y[..|b|] == b && y[|b|] == Paths.SLASH; }
  }

  // ------------------------------------------------------------ injectivity

  /** What validated entries put in the trie: names without a zero byte, file
      modes, and object ids of the format's length. */
  ghost predicate NodeOk(node: Node, format: Format)
    decreases node
  {
    match node
    case Leaf(mode, oid) =>
      32 !in mode && mode != DIRECTORY && |oid| == OidHexLen(format) / 2
    case Directory(children) =>
      forall k :: k in children ==> 0 !in k && Paths.SLASH !in k && NodeOk(children[k], format)
  }

  /** Every byte string hashed to compute a node's id. */
  ghost function Hashed(h: Hashes, format: Format, node: Node): set<Bytes>
    decreases node
  {
    match node
    case Leaf(_, _) => {}
    case Directory(children) =>
      {Object(TREE, Body(ItemsOf(h, format, children)))}
      + set k, o | k in children && o in Hashed(h, format, children[k]) :: o
  }

  ghost predicate ItemOk(i: Item, format: Format) {
    32 !in i.mode && 0 !in i.name && |i.oid| == OidHexLen(format) / 2
  }

  lemma ItemSplits(i: Item, j: Item, x: Bytes, y: Bytes, format: Format)
    requires ItemOk(i, format) && ItemOk(j, format)
    requires ItemBytes(i) + x == ItemBytes(j) + y
    ensures i == j && x == y
  {
    assert ItemBytes(i) + x == i.mode + [32] + (i.name + [0] + (i.oid + x));
    assert ItemBytes(j) + y == j.mode + [32] + (j.name + [0] + (j.oid + y));
    ByteSplits(32, i.mode, j.mode, i.name + [0] + (i.oid + x), j.name + [0] + (j.oid + y));
    ByteSplits(0, i.name, j.name, i.oid + x, j.oid + y);
    assert (i.oid + x)[..|i.oid|] == i.oid && (j.oid + y)[..|j.oid|] == j.oid;
    assert (i.oid + x)[|i.oid|..] == x && (j.oid + y)[|j.oid|..] == y;
  }

  lemma NoBodyNoItems(s: seq<Item>)
    ensures Body(s) == [] <==> s == []
  {
  }

  lemma {:induction false} BodyInjective(s: seq<Item>, t: seq<Item>, format: Format)
    requires forall i :: i in s ==> ItemOk(i, format)
    requires forall i :: i in t ==> ItemOk(i, format)
    requires Body(s) == Body(t)
    ensures s == t
  {
    hide ItemOk;
    NoBodyNoItems(s);
    NoBodyNoItems(t);
    if s != [] {
      ItemSplits(s[0], t[0], Body(s[1..]), Body(t[1..]), format);
      BodyInjective(s[1..], t[1..], format);
      assert s == [s[0]] + s[1..] && t == [t[0]] + t[1..];
    }
  }

  lemma DirectoryModeIsPlain()
    ensures 32 !in DIRECTORY
  {
  }

  lemma OidLength(h: Hashes, format: Format, node: Node)
    requires FixedLength(h) && NodeOk(node, format)
    ensures |Oid(h, format, node)| == OidHexLen(format) / 2
  {
  }

  lemma ItemsOk(h: Hashes, format: Format, children: map<Bytes, Node>)
    requires FixedLength(h) && NodeOk(Directory(children), format)
    ensures forall i :: i in ItemsOf(h, format, children) ==> ItemOk(i, format)
  {
    DirectoryModeIsPlain();
    var names := Sorted(children.Keys, Directories(children));
    var items := ItemsOf(h, format, children);
    forall i | i in items ensures ItemOk(i, format) {
      var k :| 0 <= k < |items| && items[k] == i;
      assert names[k] in names;
      OidLength(h, format, children[names[k]]);
    }
  }

  /** The item of one child, found among the items of its directory. */
  lemma ItemOfChild(h: Hashes, format: Format, children: map<Bytes, Node>, name: Bytes)
    requires name in children
    ensures Item(name, if children[name].Leaf? then children[name].mode else DIRECTORY, Oid(h, format, children[name]))
            in ItemsOf(h, format, children)
  {
    var names := Sorted(children.Keys, Directories(children));
    assert name in names;
    var k :| 0 <= k < |names| && names[k] == name;
    assert ItemsOf(h, format, children)[k].name == name;
  }

  lemma ChildOfItem(h: Hashes, format: Format, children: map<Bytes, Node>, i: Item)
    requires i in ItemsOf(h, format, children)
    ensures i.name in children
    ensures i == Item(i.name, if children[i.name].Leaf? then children[i.name].mode else DIRECTORY,
                      Oid(h, format, children[i.name]))
  {
    var names := Sorted(children.Keys, Directories(children));
    var items := ItemsOf(h, format, children);
    var k :| 0 <= k < |items| && items[k] == i;
    assert names[k] in names;
  }

  /** Two well-formed trees with the same id are the same tree, unless two of the
      objects hashed for them collide. */
  lemma {:induction false} RootDeterminesTree(h: Hashes, format: Format, a: Node, b: Node)
    requires FixedLength(h) && NodeOk(a, format) && NodeOk(b, format) && a.Directory? && b.Directory?
    requires CollisionFree(HashOf(h, format), Hashed(h, format, a) + Hashed(h, format, b))
    requires Oid(h, format, a) == Oid(h, format, b)
    ensures a == b
    decreases a
  {
    hide ItemsOf, Body, FixedLength, HashOf, NodeOk, Hashed, Oid, CollisionFree;
    SameBodies(h, format, a, b);
    SameChildren(h, format, a, b);
    forall k | k in a.children ensures a.children[k] == b.children[k] {
      var c, d := a.children[k], b.children[k];
      if c.Directory? {
        SmallerHashed(h, format, a, k);
        SmallerHashed(h, format, b, k);
        StillFree(HashOf(h, format), Hashed(h, format, a) + Hashed(h, format, b),
                  Hashed(h, format, c) + Hashed(h, format, d));
        RootDeterminesTree(h, format, c, d);
      }
    }
    assert a.children == b.children;
  }

  lemma StillFree(f: Bytes -> Bytes, all: set<Bytes>, some: set<Bytes>)
    requires CollisionFree(f, all) && some <= all
    ensures CollisionFree(f, some)
  {
  }

  /** Equal bodies: the same names, and under each name the same mode and id. */
  lemma SameChildren(h: Hashes, format: Format, a: Node, b: Node)
    requires FixedLength(h) && NodeOk(a, format) && NodeOk(b, format) && a.Directory? && b.Directory?
    requires Body(ItemsOf(h, format, a.children)) == Body(ItemsOf(h, format, b.children))
    ensures a.children.Keys == b.children.Keys
    ensures forall k :: k in a.children ==>
              var c, d := a.children[k], b.children[k];
              && NodeOk(c, format) && NodeOk(d, format) && Oid(h, format, c) == Oid(h, format, d)
              && (c.Directory? <==> d.Directory?) && (c.Leaf? ==> c == d)
  {
    hide ItemsOf, Body, FixedLength, Oid;
    ItemsOk(h, format, a.children);
    ItemsOk(h, format, b.children);
    BodyInjective(ItemsOf(h, format, a.children), ItemsOf(h, format, b.children), format);
    forall k ensures k in a.children.Keys <==> k in b.children.Keys {
      if k in a.children { SharedItem(h, format, a.children, b.children, k); }
      if k in b.children { SharedItem(h, format, b.children, a.children, k); }
    }
    forall k | k in a.children
      ensures ItemAt(h, format, a.children, k) == ItemAt(h, format, b.children, k)
    {
      SharedItem(h, format, a.children, b.children, k);
    }
    LeafOid(h, format);
  }

  lemma LeafOid(h: Hashes, format: Format)
    ensures forall n: Node :: n.Leaf? ==> Oid(h, format, n) == n.oid
  {
  }

  lemma SharedItem(h: Hashes, format: Format, from: map<Bytes, Node>, to: map<Bytes, Node>, k: Bytes)
    requires ItemsOf(h, format, from) == ItemsOf(h, format, to) && k in from
    ensures k in to && ItemAt(h, format, from, k) == ItemAt(h, format, to, k)
  {
    hide ItemsOf, Oid;
    ItemOfChild(h, format, from, k);
    ChildOfItem(h, format, to, ItemAt(h, format, from, k));
  }

  function ItemAt(h: Hashes, format: Format, children: map<Bytes, Node>, name: Bytes): Item
    requires name in children
  {
    Item(name, if children[name].Leaf? then children[name].mode else DIRECTORY, Oid(h, format, children[name]))
  }

  lemma SameBodies(h: Hashes, format: Format, a: Node, b: Node)
    requires a.Directory? && b.Directory?
    requires CollisionFree(HashOf(h, format), Hashed(h, format, a) + Hashed(h, format, b))
    requires Oid(h, format, a) == Oid(h, format, b)
    ensures Body(ItemsOf(h, format, a.children)) == Body(ItemsOf(h, format, b.children))
  {
    hide Body, Items, Sorted, TREE;
    var x, y := Body(ItemsOf(h, format, a.children)), Body(ItemsOf(h, format, b.children));
    assert Object(TREE, x) in Hashed(h, format, a) && Object(TREE, y) in Hashed(h, format, b);
    TreeTagIsPlain();
    ObjectInjective(TREE, x, y);
  }

  lemma TreeTagIsPlain()
    ensures 0 !in TREE
  {
  }

  lemma SmallerHashed(h: Hashes, format: Format, a: Node, k: Bytes)
    requires a.Directory? && k in a.children
    ensures Hashed(h, format, a.children[k]) <= Hashed(h, format, a)
  {
    hide Body, Items, Sorted, TREE, Object;
  }
}
