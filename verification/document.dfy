/**
 * The nested document that keys operations write into: mappings, sequences
 * (lists and tuples) and leaves, addressed by keys.
 */
module Document {
  import opened Wrappers

  /** A key of a keys path: a mapping key or a non-negative sequence index. */
  datatype Key = KStr(name: string) | KIdx(index: nat)

  /** The payload of a leaf: any value that is neither a mapping nor a sequence. */
  datatype Scalar = Str(s: string) | Int(i: int) | Float(r: real) | Bool(b: bool) | Null

  /** A document node. `isTuple` tells an immutable tuple from a list. */
  datatype Node =
    | Mapping(entries: map<Key, Node>)
    | Sequence(items: seq<Node>, isTuple: bool)
    | Leaf(scalar: Scalar)

  /**
   * `node[key]`, defined exactly where the subscript names an existing slot;
   * what it yields is one of the container's own members.
   */
  function Child(node: Node, key: Key): (r: Option<Node>)
    ensures node.Leaf? ==> r.None?
    ensures node.Mapping? ==> (r.Some? <==> key in node.entries)
    ensures node.Sequence? ==> (r.Some? <==> key.KIdx? && key.index < |node.items|)
    ensures r.Some? && node.Mapping? ==> key in node.entries && r.value in node.entries.Values
    ensures r.Some? && node.Sequence? ==> r.value in node.items
  {
    match node
    case Mapping(m) => if key in m then Some(m[key]) else None
    case Sequence(items, _) => if key.KIdx? && key.index < |items| then Some(items[key.index]) else None
    case Leaf(_) => None
  }

  /** The node reached by subscripting with `keys` in order, if every slot exists. */
  function Lookup(node: Node, keys: seq<Key>): Option<Node>
    decreases |keys|
  {
    if keys == [] then Some(node)
    else
      match Child(node, keys[0])
      case None => None
      case Some(next) => Lookup(next, keys[1..])
  }

  /** Two nodes of the same kind and extent: equal key sets, equal lengths, equal leaves. */
  predicate SameShape(a: Node, b: Node)
  {
    match a
    case Mapping(m) => b.Mapping? && b.entries.Keys == m.Keys
    case Sequence(items, isTuple) => b.Sequence? && |b.items| == |items| && b.isTuple == isTuple
    case Leaf(_) => b == a
  }

  /** Overwrites the existing slot `key` of `node` with `child`; nothing else changes. */
  function Replace(node: Node, key: Key, child: Node): (r: Node)
    requires Child(node, key).Some?
    ensures Child(r, key) == Some(child)
    ensures forall k :: k != key ==> Child(r, k) == Child(node, k)
    ensures SameShape(node, r)
  {
    match node
    case Mapping(m) => Mapping(m[key := child])
    case Sequence(items, isTuple) => Sequence(items[key.index := child], isTuple)
  }

  /**
   * The document `root` after the node at `path` has been replaced by `sub`:
   * what writing through a reference obtained by walking `path` does to a tree.
   */
  function Graft(root: Node, path: seq<Key>, sub: Node): (r: Node)
    requires Lookup(root, path).Some?
    ensures Lookup(r, path) == Some(sub)
    decreases |path|
  {
    if path == [] then sub
    else Replace(root, path[0], Graft(Child(root, path[0]).value, path[1..], sub))
  }

  /** Looking up `a + b` is looking up `a`, then `b` from there. */
  lemma {:induction false} LookupAppend(node: Node, a: seq<Key>, b: seq<Key>)
    ensures Lookup(node, a + b) ==
            if Lookup(node, a).Some? then Lookup(Lookup(node, a).value, b) else None
    decreases |a|
  {
    if a == [] {
      assert a + b == b;
    } else {
      assert (a + b)[0] == a[0] && (a + b)[1..] == a[1..] + b;
      if Child(node, a[0]).Some? {
        LookupAppend(Child(node, a[0]).value, a[1..], b);
      }
    }
  }

  /** Grafting at `path` leaves every location that is neither above nor below `path` alone. */
  lemma {:induction false} GraftFrame(root: Node, path: seq<Key>, sub: Node, q: seq<Key>)
    requires Lookup(root, path).Some?
    requires !(q <= path) && !(path <= q)
    ensures Lookup(Graft(root, path, sub), q) == Lookup(root, q)
    decreases |path|
  {
    var k := path[0];
    var child := Child(root, k).value;
    var g := Graft(root, path, sub);
    assert g == Replace(root, k, Graft(child, path[1..], sub));
    if q[0] == k {
      assert !(q[1..] <= path[1..]) && !(path[1..] <= q[1..]);
      GraftFrame(child, path[1..], sub, q[1..]);
    }
  }

  /** Every proper ancestor of the grafted location keeps its shape. */
  lemma {:induction false} GraftAncestor(root: Node, path: seq<Key>, sub: Node, q: seq<Key>)
    requires Lookup(root, path).Some?
    requires q < path
    ensures Lookup(root, q).Some? && Lookup(Graft(root, path, sub), q).Some?
    ensures SameShape(Lookup(root, q).value, Lookup(Graft(root, path, sub), q).value)
    decreases |path|
  {
    var k := path[0];
    var child := Child(root, k).value;
    var g := Graft(root, path, sub);
    assert g == Replace(root, k, Graft(child, path[1..], sub));
    if q != [] {
      assert q[0] == k && q[1..] < path[1..];
      GraftAncestor(child, path[1..], sub, q[1..]);
    }
  }

  /** Grafting back the node already found at `path` gives the same document. */
  lemma {:induction false} GraftIdentity(root: Node, path: seq<Key>)
    requires Lookup(root, path).Some?
    ensures Graft(root, path, Lookup(root, path).value) == root
    decreases |path|
  {
    if path != [] {
      var k := path[0];
      var child := Child(root, k).value;
      GraftIdentity(child, path[1..]);
      match root
      case Mapping(m) =>
        assert m[k := child] == m;
      case Sequence(items, isTuple) =>
        assert items[k.index := child] == items;
    }
  }
}
