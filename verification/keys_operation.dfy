/**
 * The keys operations of the resource keys mixin: `set` writes the value of
 * every keys path of a batch into the document, `delete` is accepted and does
 * nothing, and any other operation tag is refused.
 */
module KeysOperation {
  import opened Wrappers
  import opened Document

  const OperationSet: string := "set"
  const OperationDelete: string := "delete"
  const Operations: seq<string> := [OperationSet, OperationDelete]

  /**
   * A keys path as the source's list: `Path(keys, value)` is the list
   * `keys + [value]`, so its last key is the target and the keys before it
   * are navigation keys; `NoItems` is the empty list.
   */
  datatype KeysPath = NoItems | Path(keys: seq<Key>, value: Node)
  {
    function Length(): nat
    {
      if NoItems? then 0 else |keys| + 1
    }

    /** The navigation keys: every element but the last two. */
    function NavKeys(): seq<Key>
      requires Length() >= 2
    {
      keys[..|keys| - 1]
    }

    /** The key at which the value is assigned: the last but one element. */
    function Target(): Key
      requires Length() >= 2
    {
      keys[|keys| - 1]
    }
  }

  /**
   * The errors the operations raise. The first four are the tool's own kinds;
   * `TypeFailure` stands for the untyped error the runtime raises when a value
   * is assigned into a leaf or a tuple, or a string key is compared with a
   * sequence length.
   */
  datatype KeysError =
    | KeysPathInvalid(path: KeysPath)
    | KeysPathUnreachable(leaf: Scalar, key: Key, path: KeysPath)
    | KeysPathNotExisted(path: KeysPath, key: Key)
    | UnknownKeysOperation(operation: string, allowed: seq<string>)
    | TypeFailure(path: KeysPath, key: Key)

  /** What a batch leaves behind: the document, and the error that stopped it if any. */
  datatype BatchResult = BatchResult(doc: Node, error: Option<KeysError>)

  /**
   * Fails on a sequence whose length the key does not stay below: on a
   * sequence it passes exactly when the slot exists, elsewhere it always passes.
   */
  function CheckOutOfIndex(cur: Node, key: Key, path: KeysPath): (r: Option<KeysError>)
    ensures cur.Sequence? ==> (r.None? <==> Child(cur, key).Some?)
    ensures !cur.Sequence? ==> r.None?
    ensures r.Some? && key.KIdx? ==> r.value == KeysPathNotExisted(path, key)
    ensures cur.Sequence? && key.KStr? ==> r == Some(TypeFailure(path, key))
  {
    match cur
    case Sequence(items, _) =>
      if key.KStr? then Some(TypeFailure(path, key))
      else if key.index >= |items| then Some(KeysPathNotExisted(path, key))
      else None
    case _ => None
  }

  /** Fails on a mapping that lacks the key: on a mapping it passes exactly when the slot exists. */
  function CheckKeyExisted(cur: Node, key: Key, path: KeysPath): (r: Option<KeysError>)
    ensures cur.Mapping? ==> (r.None? <==> Child(cur, key).Some?)
    ensures !cur.Mapping? ==> r.None?
    ensures r.Some? ==> r.value == KeysPathNotExisted(path, key)
  {
    if cur.Mapping? && key !in cur.entries then Some(KeysPathNotExisted(path, key)) else None
  }

  /** Fails on anything that is neither a mapping nor a sequence, naming the leaf it found. */
  function CheckPathIsReachable(cur: Node, key: Key, path: KeysPath): (r: Option<KeysError>)
    ensures r.None? <==> !cur.Leaf?
    ensures r.Some? ==> r.value == KeysPathUnreachable(cur.scalar, key, path)
  {
    if cur.Leaf? then Some(KeysPathUnreachable(cur.scalar, key, path)) else None
  }

  /**
   * One navigation step: the three checks in the source's order, then
   * descending into `cur[key]`. The checks let the step through exactly when
   * the slot exists, and a leaf is reported as unreachable whatever the key.
   */
  function Step(cur: Node, key: Key, path: KeysPath): (r: Result<Node, KeysError>)
    ensures r.Success? <==> Child(cur, key).Some?
    ensures r.Success? ==> r.value == Child(cur, key).value
    ensures cur.Leaf? ==> r == Failure(KeysPathUnreachable(cur.scalar, key, path))
    ensures cur.Mapping? && key !in cur.entries ==> r == Failure(KeysPathNotExisted(path, key))
    ensures cur.Sequence? && key.KIdx? && key.index >= |cur.items| ==>
              r == Failure(KeysPathNotExisted(path, key))
    ensures cur.Sequence? && key.KStr? ==> r == Failure(TypeFailure(path, key))
  {
    match CheckPathIsReachable(cur, key, path)
    case Some(e) => Failure(e)
    case None =>
      match CheckOutOfIndex(cur, key, path)
      case Some(e) => Failure(e)
      case None =>
        match CheckKeyExisted(cur, key, path)
        case Some(e) => Failure(e)
        case None => Success(Child(cur, key).value)
  }

  /**
   * Walks `keys` from `cur`, one checked step at a time; it reaches a node
   * exactly when every slot on the way exists, and that node is the one
   * `Lookup` finds.
   */
  function Navigate(cur: Node, keys: seq<Key>, path: KeysPath): (r: Result<Node, KeysError>)
    ensures r.Success? <==> Lookup(cur, keys).Some?
    ensures r.Success? ==> r.value == Lookup(cur, keys).value
    ensures r.Failure? ==> !r.error.KeysPathInvalid? && !r.error.UnknownKeysOperation?
    decreases |keys|
  {
    if keys == [] then Success(cur)
    else
      match Step(cur, keys[0], path)
      case Failure(e) => Failure(e)
      case Success(next) => Navigate(next, keys[1..], path)
  }

  /**
   * Where the final assignment can land: any key of a mapping, present or not,
   * but only an existing index of a list, and never a leaf or a tuple.
   */
  predicate Writable(cur: Node, key: Key)
    ensures cur.Mapping? ==> Writable(cur, key)
    ensures Writable(cur, key) && cur.Sequence? ==> Child(cur, key).Some? && !cur.isTuple
    ensures cur.Leaf? ==> !Writable(cur, key)
  {
    match cur
    case Mapping(_) => true
    case Sequence(items, isTuple) => !isTuple && key.KIdx? && key.index < |items|
    case Leaf(_) => false
  }

  /**
   * The final step: only the out-of-index check runs, then `cur[key] = value`.
   * A mapping gains the key if it lacked it; a list keeps its length; a leaf
   * or a tuple cannot take the assignment.
   */
  function Assign(cur: Node, key: Key, value: Node, path: KeysPath): (r: Result<Node, KeysError>)
    ensures r.Success? <==> Writable(cur, key)
    ensures r.Success? ==> Child(r.value, key) == Some(value)
    ensures r.Success? ==> forall k :: k != key ==> Child(r.value, k) == Child(cur, k)
    ensures r.Success? && cur.Mapping? ==>
              r.value.Mapping? && r.value.entries.Keys == cur.entries.Keys + {key}
    ensures r.Success? && cur.Sequence? ==>
              r.value.Sequence? && |r.value.items| == |cur.items| && !r.value.isTuple
    ensures cur.Sequence? && key.KIdx? && key.index >= |cur.items| ==>
              r == Failure(KeysPathNotExisted(path, key))
    ensures r.Failure? && !(cur.Sequence? && key.KIdx? && key.index >= |cur.items|) ==>
              r == Failure(TypeFailure(path, key))
  {
    match CheckOutOfIndex(cur, key, path)
    case Some(e) => Failure(e)
    case None =>
      match cur
      case Mapping(m) => Success(Mapping(m[key := value]))
      case Sequence(items, isTuple) =>
        if isTuple then Failure(TypeFailure(path, key))
        else Success(Sequence(items[key.index := value], false))
      case Leaf(_) => Failure(TypeFailure(path, key))
  }

  /**
   * The effect of `set` with one keys path on the document `storage`. A path
   * shorter than two elements is invalid; a successful one walked existing
   * slots only and leaves its value at the target.
   */
  function SetPath(storage: Node, path: KeysPath): (r: Result<Node, KeysError>)
    ensures path.Length() < 2 ==> r == Failure(KeysPathInvalid(path))
    ensures r.Failure? ==> !r.error.UnknownKeysOperation?
    ensures r.Success? ==> path.Length() >= 2 && Lookup(storage, path.NavKeys()).Some?
    ensures r.Success? ==>
              && Lookup(r.value, path.NavKeys()).Some?
              && Child(Lookup(r.value, path.NavKeys()).value, path.Target()) == Some(path.value)
  {
    if path.Length() < 2 then Failure(KeysPathInvalid(path))
    else
      match Navigate(storage, path.NavKeys(), path)
      case Failure(e) => Failure(e)
      case Success(cur) =>
        match Assign(cur, path.Target(), path.value, path)
        case Failure(e) => Failure(e)
        case Success(written) => Success(Graft(storage, path.NavKeys(), written))
  }

  /**
   * The effect of `set` with a batch: paths in order, each on the document its
   * predecessors left; the first error stops the batch and keeps what was done.
   */
  function ApplyBatch(storage: Node, paths: seq<KeysPath>): (r: BatchResult)
    ensures r.error.None? ==> forall i | 0 <= i < |paths| :: paths[i].Length() >= 2
    ensures r.error.Some? ==> !r.error.value.UnknownKeysOperation?
    decreases |paths|
  {
    if paths == [] then BatchResult(storage, None)
    else
      match SetPath(storage, paths[0])
      case Failure(e) => BatchResult(storage, Some(e))
      case Success(next) => ApplyBatch(next, paths[1..])
  }

  /**
   * `do_set`: for every keys path, walk the navigation keys running the three
   * checks, then assign the value at the target. On the first error it returns
   * that error with the document as the earlier paths left it.
   */
  method DoSet(storage: Node, keysPaths: seq<KeysPath>) returns (doc: Node, err: Option<KeysError>)
    ensures BatchResult(doc, err) == ApplyBatch(storage, keysPaths)
  {
    doc := storage;
    var n := 0;
    while n < |keysPaths|
      invariant 0 <= n <= |keysPaths|
      invariant ApplyBatch(storage, keysPaths) == ApplyBatch(doc, keysPaths[n..])
    {
      var keysPath := keysPaths[n];
      assert keysPaths[n..][0] == keysPath && keysPaths[n..][1..] == keysPaths[n + 1..];
      if keysPath.Length() < 2 {
        return doc, Some(KeysPathInvalid(keysPath));
      }
      var nav := keysPath.NavKeys();
      var cur := doc;
      var j := 0;
      while j < |nav|
        invariant 0 <= j <= |nav|
        invariant Navigate(doc, nav, keysPath) == Navigate(cur, nav[j..], keysPath)
      {
        var key := nav[j];
        assert nav[j..][0] == key && nav[j..][1..] == nav[j + 1..];
        var failed := CheckPathIsReachable(cur, key, keysPath);
        if failed.None? {
          failed := CheckOutOfIndex(cur, key, keysPath);
        }
        if failed.None? {
          failed := CheckKeyExisted(cur, key, keysPath);
        }
        if failed.Some? {
          return doc, failed;
        }
        cur := Child(cur, key).value;
        j := j + 1;
      }
      assert nav[j..] == [];
      var written := Assign(cur, keysPath.Target(), keysPath.value, keysPath);
      if written.Failure? {
        return doc, Some(written.error);
      }
      doc := Graft(doc, nav, written.value);
      n := n + 1;
    }
    err := None;
  }

  /**
   * `perform_operation`: `set` runs the batch, `delete` changes nothing, and
   * any other tag is refused with the allowed tags.
   */
  method PerformOperation(operation: string, storage: Node, keysPaths: seq<KeysPath>)
    returns (doc: Node, err: Option<KeysError>)
    ensures operation == OperationSet ==> BatchResult(doc, err) == ApplyBatch(storage, keysPaths)
    ensures operation == OperationDelete ==> doc == storage && err == None
    ensures operation !in Operations ==>
              doc == storage && err == Some(UnknownKeysOperation(operation, Operations))
  {
    if operation == OperationSet {
      doc, err := DoSet(storage, keysPaths);
    } else if operation == OperationDelete {
      doc, err := storage, None;
    } else {
      doc, err := storage, Some(UnknownKeysOperation(operation, Operations));
    }
  }
}
