/**
 * The trie as the program keeps it: nodes that own their subtrees and are
 * changed in place.  Insertion is proved against module GitTree.
 */
module GitTrie {
  import opened Wrappers
  import opened Bytes
  import opened GitObject
  import opened Candidate
  import opened GitTree
  import opened GitMerkle
  import Paths
  import Hex

  datatype Child = Subtree(node: TreeNode) | File(mode: Text, oid: Bytes)

  class TreeNode {
    var children: map<Bytes, Child>
    ghost var Repr: set<object>

    ghost predicate Valid()
      reads this, Repr
      decreases Repr
      ensures Valid() ==> this in Repr
    {
      && this in Repr
      && (forall k :: k in children && children[k].Subtree? ==>
            && children[k].node in Repr && children[k].node.Repr <= Repr
            && this !in children[k].node.Repr && children[k].node.Valid())
      && (forall j, k :: j in children && k in children && j != k && children[j].Subtree? && children[k].Subtree? ==>
            children[j].node.Repr !! children[k].node.Repr)
    }

    /** The trie rooted here, as a value. */
    ghost function Model(): Node
      requires Valid()
      reads Repr
      decreases Repr
    {
      Directory(map k | k in children ::
                  match children[k] case Subtree(n) => n.Model() case File(mode, oid) => Leaf(mode, oid))
    }

    constructor ()
      ensures Valid() && fresh(Repr) && Model() == NoEntries
    {
      children := map[];
      Repr := {this};
    }

    method PutFile(name: Bytes, mode: Text, oid: Bytes)
      requires Valid() && name !in children
      modifies this
      ensures Valid() && Repr == old(Repr)
      ensures Model() == Directory(old(Model()).children[name := Leaf(mode, oid)])
    {
      children := children[name := File(mode, oid)];
      assert Model().children == old(Model()).children[name := Leaf(mode, oid)];
    }

    /** The child of that name, created as an empty directory if there is none. */
    method EntryOrDirectory(name: Bytes) returns (child: Child)
      requires Valid()
      modifies this
      ensures Valid() && fresh(Repr - old(Repr)) && name in children && children[name] == child
      ensures name in old(children) ==> Model() == old(Model())
      ensures name !in old(children) ==>
                child.Subtree? && Model() == Directory(old(Model()).children[name := NoEntries])
    {
      if name !in children {
        var empty := new TreeNode();
        children := children[name := Subtree(empty)];
        Repr := Repr + empty.Repr;
        assert Model().children == old(Model()).children[name := NoEntries];
      }
      child := children[name];
    }

    /** The last component: a leaf of this node. */
    method InsertHere(parts: seq<Bytes>, mode: Text, oid: Text, format: Format) returns (failure: Option<Code>)
      requires Valid() && |parts| == 1
      modifies this
      ensures Valid() && Repr == old(Repr)
      ensures failure.None? ==> Inserted(old(Model()), parts, mode, oid, format) == Ok(Model())
      ensures failure.Some? ==> Inserted(old(Model()), parts, mode, oid, format) == Err(failure.value)
      ensures failure.Some? ==> Model() == old(Model())
    {
      hide OidOk, Hex.Decode;
      if parts[0] in children { return Some(PathNoncanonical); }
      if !OidOk(oid, format) { return Some(OidInvalid); }
      var bytes := Hex.Decode(oid);
      if bytes.None? { return Some(FieldInvalid); }
      PutFile(parts[0], mode, bytes.value);
      failure := None;
    }

    /** Adds a leaf at a component path, or reports why it does not fit. */
    method Insert(parts: seq<Bytes>, mode: Text, oid: Text, format: Format) returns (failure: Option<Code>)
      requires Valid() && parts != []
      modifies Repr
      ensures Valid() && fresh(Repr - old(Repr))
      ensures failure.None? ==> Inserted(old(Model()), parts, mode, oid, format) == Ok(Model())
      ensures failure.Some? ==> Inserted(old(Model()), parts, mode, oid, format) == Err(failure.value)
      ensures failure.Some? ==> Model() == Opened(old(Model()), parts)
      decreases |parts|, 1
    {
      hide OidOk, Hex.Decode;
      var name := parts[0];
      if |parts| == 1 {
        failure := InsertHere(parts, mode, oid, format);
        return;
      }
      ghost var before := Model();
      var child := EntryOrDirectory(name);
      ghost var after := Model();
      assert after.children[name] == if name in before.children then before.children[name] else NoEntries;
      if child.File? { return Some(PathNoncanonical); }
      assert after.children[name] == child.node.Model();
      failure := InsertBelow(name, parts, mode, oid, format);
      ghost var grown := Inserted(after.children[name], parts[1..], mode, oid, format);
      ghost var left := Opened(after.children[name], parts[1..]);
      assert after.children[name := left] == before.children[name := left];
      if grown.Ok? { assert after.children[name := grown.value] == before.children[name := grown.value]; }
    }

    /** Descends into the directory of that name. */
    method InsertBelow(name: Bytes, parts: seq<Bytes>, mode: Text, oid: Text, format: Format)
      returns (failure: Option<Code>)
      requires Valid() && |parts| > 1 && name in children && children[name].Subtree?
      modifies Repr
      ensures Valid() && fresh(Repr - old(Repr)) && children == old(children)
      ensures
        match Inserted(old(children[name].node.Model()), parts[1..], mode, oid, format)
        case Ok(grown) => failure.None? && Model() == Directory(old(Model()).children[name := grown])
        case Err(code) =>
          && failure == Some(code)
          && Model() == Directory(old(Model()).children[name := Opened(old(children[name].node.Model()), parts[1..])])
      decreases |parts|, 0
    {
      hide Inserted, Opened;
      var child := children[name].node;
      failure := child.Insert(parts[1..], mode, oid, format);
      Repr := Repr + child.Repr;
      assert Model().children == old(Model()).children[name := child.Model()];
    }

    method ItemFor(h: Hashes, format: Format, name: Bytes) returns (item: Item)
      requires Valid() && name in children
      ensures item == ItemAt(h, format, Model().children, name)
      decreases Repr, 0
    {
      match children[name]
      case Subtree(node) =>
        var oid := node.ObjectId(h, format);
        item := Item(name, DIRECTORY, oid);
      case File(mode, oid) => item := Item(name, mode, oid);
    }

    /** The object id of this directory: its items, in Git order, hashed. */
    method ObjectId(h: Hashes, format: Format) returns (oid: Bytes)
      requires Valid()
      ensures oid == Oid(h, format, Model())
      decreases Repr, 1
    {
      hide ObjectHash, Sorted, Items, ItemAt, ItemBytes, Oid, ItemsOf, Directories, Body;
      var names := Sorted(children.Keys, set k | k in children && children[k].Subtree?);
      ghost var all := Model().children;
      NamesOfModel();
      ItemsInOrder(h, format, all);
      OidOfItems(h, format, all);
      ghost var items := ItemsOf(h, format, all);
      assert items[0..] == items;
      var body: Bytes := [];
      for k := 0 to |names|
        invariant body + Body(items[k..]) == Body(items)
      {
        assert names[k] in names;
        var item := ItemFor(h, format, names[k]);
        BodyStep(items, k);
        body := body + ItemBytes(item);
      }
      BodyEnds(items);
      assert body + [] == body;
      oid := ObjectHash(h, format, TREE, body);
    }

    lemma NamesOfModel()
      requires Valid()
      ensures Model().Directory? && Model().children.Keys == children.Keys
      ensures Directories(Model().children) == set k | k in children && children[k].Subtree?
    {
    }
  }

  lemma BodyStep(items: seq<Item>, k: nat)
    requires k < |items|
    ensures Body(items[k..]) == ItemBytes(items[k]) + Body(items[k + 1..])
  {
    assert items[k..][1..] == items[k + 1..];
  }

  lemma BodyEnds(items: seq<Item>)
    ensures Body(items[|items|..]) == []
  {
  }

  lemma OidOfItems(h: Hashes, format: Format, all: map<Bytes, Node>)
    ensures Oid(h, format, Directory(all)) == ObjectHash(h, format, TREE, Body(ItemsOf(h, format, all)))
  {
    hide Body, Items, Sorted, ObjectHash;
  }

  lemma ItemsInOrder(h: Hashes, format: Format, all: map<Bytes, Node>)
    ensures
      var names, items := Sorted(all.Keys, Directories(all)), ItemsOf(h, format, all);
      && |items| == |names| && (forall x :: x in names <==> x in all)
      && forall k :: 0 <= k < |names| ==> names[k] in all && items[k] == ItemAt(h, format, all, names[k])
  {
    hide Oid;
    var names := Sorted(all.Keys, Directories(all));
    assert forall k :: 0 <= k < |names| ==> names[k] in names;
  }
}
