/** What `set` promises about the document, about errors and about batches. */
module KeysOperationProperties {
  import opened Wrappers
  import opened Document
  import opened KeysOperation

  /** The keys of a path name, from the root, the slot its value is written into. */
  lemma SlotIsNavThenTarget(path: KeysPath)
    requires path.Length() >= 2
    ensures path.keys == path.NavKeys() + [path.Target()]
  {
  }

  /** Walking `a + b` is walking `a`, then `b` from where `a` ended. */
  lemma {:induction false} NavigateAppend(cur: Node, a: seq<Key>, b: seq<Key>, path: KeysPath)
    ensures Navigate(cur, a + b, path) ==
            match Navigate(cur, a, path)
            case Failure(e) => Failure(e)
            case Success(mid) => Navigate(mid, b, path)
    decreases |a|
  {
    if a == [] {
      assert a + b == b;
    } else {
      assert (a + b)[0] == a[0] && (a + b)[1..] == a[1..] + b;
      match Step(cur, a[0], path)
      case Failure(_) =>
      case Success(next) => NavigateAppend(next, a[1..], b, path);
    }
  }

  /**
   * `set` succeeds exactly when the path has a target and a value, every
   * navigation key names an existing slot, and the node reached can take the
   * assignment at the target.
   */
  lemma SetSucceedsIff(storage: Node, path: KeysPath)
    ensures SetPath(storage, path).Success? <==>
              && path.Length() >= 2
              && Lookup(storage, path.NavKeys()).Some?
              && Writable(Lookup(storage, path.NavKeys()).value, path.Target())
  {
  }

  /** After a successful `set`, the path's keys lead to its value, and below it to the value's parts. */
  lemma {:induction false} SetThenLookup(storage: Node, path: KeysPath, doc: Node, rest: seq<Key>)
    requires SetPath(storage, path) == Success(doc)
    ensures Lookup(doc, path.keys) == Some(path.value)
    ensures Lookup(doc, path.keys + rest) == Lookup(path.value, rest)
  {
    var nav, target := path.NavKeys(), path.Target();
    var written := Assign(Lookup(storage, nav).value, target, path.value, path).value;
    SlotIsNavThenTarget(path);
    LookupAppend(doc, nav, [target]);
    assert Lookup(doc, nav) == Some(written);
    assert Lookup(written, [target]) == Some(path.value) by {
      assert [target][1..] == [];
    }
    LookupAppend(doc, path.keys, rest);
  }

  /** A target missing from the final mapping is inserted, not refused. */
  lemma FinalMappingInsert(storage: Node, path: KeysPath, m: map<Key, Node>)
    requires path.Length() >= 2
    requires Lookup(storage, path.NavKeys()) == Some(Mapping(m))
    requires path.Target() !in m
    ensures SetPath(storage, path).Success?
    ensures Lookup(SetPath(storage, path).value, path.NavKeys()) ==
              Some(Mapping(m[path.Target() := path.value]))
  {
  }

  /** A path with fewer than two elements is refused as invalid. */
  lemma ShortPathInvalid(storage: Node, path: KeysPath)
    requires path.Length() < 2
    ensures SetPath(storage, path) == Failure(KeysPathInvalid(path))
  {
  }

  /**
   * When the first `i` navigation keys lead to `c` but `c` has no slot for the
   * next one, `set` fails on that key: a leaf is unreachable (whatever the key),
   * a missing mapping key or an index past a sequence's end does not exist.
   */
  lemma NavigationFailure(storage: Node, path: KeysPath, i: nat)
    requires path.Length() >= 2
    requires i < |path.NavKeys()|
    requires Lookup(storage, path.NavKeys()[..i]).Some?
    requires Child(Lookup(storage, path.NavKeys()[..i]).value, path.NavKeys()[i]).None?
    ensures var c, k := Lookup(storage, path.NavKeys()[..i]).value, path.NavKeys()[i];
            SetPath(storage, path) ==
              Failure(if c.Leaf? then KeysPathUnreachable(c.scalar, k, path)
                      else if c.Sequence? && k.KStr? then TypeFailure(path, k)
                      else KeysPathNotExisted(path, k))
  {
    var nav := path.NavKeys();
    assert nav == nav[..i] + nav[i..];
    NavigateAppend(storage, nav[..i], nav[i..], path);
    assert nav[i..][0] == nav[i];
  }

  /** At the final step a sequence index at or past the end does not exist: sequences never grow. */
  lemma FinalIndexOutOfRange(storage: Node, path: KeysPath)
    requires path.Length() >= 2
    requires Lookup(storage, path.NavKeys()).Some?
    requires Lookup(storage, path.NavKeys()).value.Sequence?
    requires path.Target().KIdx?
    requires path.Target().index >= |Lookup(storage, path.NavKeys()).value.items|
    ensures SetPath(storage, path) == Failure(KeysPathNotExisted(path, path.Target()))
  {
  }

  /** Below the written node's parent, a location off the target is the one that was there. */
  lemma {:induction false} BesideTarget(storage: Node, path: KeysPath, doc: Node, r: seq<Key>)
    requires SetPath(storage, path) == Success(doc)
    requires r != [] && r[0] != path.Target()
    ensures Lookup(doc, path.NavKeys() + r) == Lookup(storage, path.NavKeys() + r)
  {
    var nav := path.NavKeys();
    var cur := Lookup(storage, nav).value;
    var written := Assign(cur, path.Target(), path.value, path).value;
    assert Lookup(doc, nav) == Some(written);
    LookupAppend(doc, nav, r);
    LookupAppend(storage, nav, r);
    assert Child(written, r[0]) == Child(cur, r[0]);
  }

  /** A successful `set` changes no location outside the written slot and its ancestors. */
  lemma {:induction false} SetKeepsOtherLocations(storage: Node, path: KeysPath, doc: Node, q: seq<Key>)
    requires SetPath(storage, path) == Success(doc)
    requires !(q <= path.keys) && !(path.keys <= q)
    ensures Lookup(doc, q) == Lookup(storage, q)
  {
    var nav := path.NavKeys();
    SlotIsNavThenTarget(path);
    if nav <= q {
      var r := q[|nav|..];
      assert q == nav + r;
      assert r != [] && r[0] != path.Target();
      BesideTarget(storage, path, doc, r);
    } else {
      assert !(q <= nav);
      var cur := Lookup(storage, nav).value;
      GraftFrame(storage, nav, Assign(cur, path.Target(), path.value, path).value, q);
    }
  }

  /**
   * Outside the written slot, a successful `set` keeps every location's
   * existence, every sequence's length and every mapping's keys, except that
   * the mapping holding the target may gain the target key.
   */
  lemma {:induction false} SetKeepsShape(storage: Node, path: KeysPath, doc: Node, q: seq<Key>)
    requires SetPath(storage, path) == Success(doc)
    requires !(path.keys <= q)
    ensures Lookup(doc, q).Some? <==> Lookup(storage, q).Some?
    ensures Lookup(storage, q).Some? && Lookup(storage, q).value.Sequence? ==>
              && Lookup(doc, q).value.Sequence?
              && |Lookup(doc, q).value.items| == |Lookup(storage, q).value.items|
    ensures Lookup(storage, q).Some? && Lookup(storage, q).value.Mapping? ==>
              && Lookup(doc, q).value.Mapping?
              && Lookup(doc, q).value.entries.Keys ==
                   Lookup(storage, q).value.entries.Keys +
                   (if q == path.NavKeys() then {path.Target()} else {})
  {
    var nav := path.NavKeys();
    var cur := Lookup(storage, nav).value;
    var written := Assign(cur, path.Target(), path.value, path).value;
    SlotIsNavThenTarget(path);
    if q < nav {
      GraftAncestor(storage, nav, written, q);
    } else if q == nav {
      assert Lookup(doc, nav) == Some(written);
    } else {
      SetKeepsOtherLocations(storage, path, doc, q);
    }
  }

  /** Applying a successful keys path again leaves the document as it is. */
  lemma {:induction false} SetIdempotent(storage: Node, path: KeysPath, doc: Node)
    requires SetPath(storage, path) == Success(doc)
    ensures SetPath(doc, path) == Success(doc)
  {
    var nav, target := path.NavKeys(), path.Target();
    var cur := Lookup(storage, nav).value;
    var written := Assign(cur, target, path.value, path).value;
    assert Lookup(doc, nav) == Some(written);
    assert Navigate(doc, nav, path) == Success(written);
    if written.Mapping? {
      assert written.entries[target := path.value] == written.entries;
    } else {
      assert written.items[target.index := path.value] == written.items;
    }
    assert Assign(written, target, path.value, path) == Success(written);
    GraftIdentity(doc, nav);
  }

  /** A batch split in two is the first part, then the second on what the first left, unless the first failed. */
  lemma {:induction false} ApplyBatchAppend(storage: Node, first: seq<KeysPath>, second: seq<KeysPath>)
    ensures ApplyBatch(storage, first + second) ==
            var r := ApplyBatch(storage, first);
            if r.error.None? then ApplyBatch(r.doc, second) else r
    decreases |first|
  {
    if first == [] {
      assert first + second == second;
    } else {
      assert (first + second)[0] == first[0] && (first + second)[1..] == first[1..] + second;
      match SetPath(storage, first[0])
      case Failure(_) =>
      case Success(next) => ApplyBatchAppend(next, first[1..], second);
    }
  }

  /**
   * The first failing path stops the batch with its error: the paths before it
   * stay applied and the paths after it are never run.
   */
  lemma FirstErrorStopsBatch(storage: Node, done: seq<KeysPath>, path: KeysPath, rest: seq<KeysPath>)
    requires ApplyBatch(storage, done).error.None?
    requires SetPath(ApplyBatch(storage, done).doc, path).Failure?
    ensures ApplyBatch(storage, done + [path] + rest) ==
              BatchResult(ApplyBatch(storage, done).doc,
                          Some(SetPath(ApplyBatch(storage, done).doc, path).error))
  {
    assert done + [path] + rest == done + ([path] + rest);
    ApplyBatchAppend(storage, done, [path] + rest);
  }

  /** A path with fewer than two elements stops the batch; what the paths before it wrote stays written. */
  lemma InvalidPathStopsBatch(storage: Node, done: seq<KeysPath>, path: KeysPath, rest: seq<KeysPath>)
    requires ApplyBatch(storage, done).error.None?
    requires path.Length() < 2
    ensures ApplyBatch(storage, done + [path] + rest) ==
              BatchResult(ApplyBatch(storage, done).doc, Some(KeysPathInvalid(path)))
  {
    FirstErrorStopsBatch(storage, done, path, rest);
  }

  /**
   * Paths see what earlier paths wrote: inserting "a" and then writing under
   * it succeeds, while the same two paths in the other order fail on "a".
   */
  lemma BatchOrderMatters()
    ensures var empty := Mapping(map[]);
            var insert := Path([KStr("a")], empty);
            var under := Path([KStr("a"), KStr("b")], Leaf(Int(1)));
            && ApplyBatch(empty, [insert, under]) ==
                 BatchResult(Mapping(map[KStr("a") := Mapping(map[KStr("b") := Leaf(Int(1))])]), None)
            && ApplyBatch(empty, [under, insert]) ==
                 BatchResult(empty, Some(KeysPathNotExisted(under, KStr("a"))))
  {
    var empty := Mapping(map[]);
    var insert := Path([KStr("a")], empty);
    var under := Path([KStr("a"), KStr("b")], Leaf(Int(1)));
    var inserted := Mapping(map[KStr("a") := empty]);
    assert SetPath(empty, insert) == Success(inserted);
    assert [insert, under][1..] == [under];
    var leafB := Mapping(map[KStr("b") := Leaf(Int(1))]);
    assert Navigate(inserted, [KStr("a")], under) == Success(empty);
    assert Assign(empty, KStr("b"), Leaf(Int(1)), under) == Success(leafB);
    assert Graft(inserted, [KStr("a")], leafB) == Replace(inserted, KStr("a"), leafB);
    assert map[KStr("a") := empty][KStr("a") := leafB] == map[KStr("a") := leafB];
    assert SetPath(inserted, under) ==
             Success(Mapping(map[KStr("a") := Mapping(map[KStr("b") := Leaf(Int(1))])]));
    var both := Mapping(map[KStr("a") := leafB]);
    assert [under][1..] == [];
    assert ApplyBatch(inserted, [under]) == ApplyBatch(both, []);
    assert Navigate(empty, [KStr("a")], under) == Failure(KeysPathNotExisted(under, KStr("a")));
  }

  /**
   * Paths see what earlier paths wrote: after a path inserts (or overwrites)
   * `inserted` at `nav + [a]`, a later path writing at `nav + [a] + more`
   * succeeds whenever `more` leads to a writable place inside `inserted`.
   */
  lemma {:induction false} InsertThenWriteUnder(storage: Node, nav: seq<Key>, a: Key, inserted: Node,
                                                more: seq<Key>, value: Node)
    requires SetPath(storage, Path(nav + [a], inserted)).Success?
    requires |more| >= 1
    requires Lookup(inserted, more[..|more| - 1]).Some?
    requires Writable(Lookup(inserted, more[..|more| - 1]).value, more[|more| - 1])
    ensures var insert := Path(nav + [a], inserted);
            var under := Path(nav + [a] + more, value);
            var r := ApplyBatch(storage, [insert, under]);
            r.error.None? && Lookup(r.doc, nav + [a] + more) == Some(value)
  {
    var insert := Path(nav + [a], inserted);
    var under := Path(nav + [a] + more, value);
    var k := |more| - 1;
    var d1 := SetPath(storage, insert).value;
    SetThenLookup(storage, insert, d1, more[..k]);
    assert under.NavKeys() == insert.keys + more[..k] && under.Target() == more[k];
    SetSucceedsIff(d1, under);
    var d2 := SetPath(d1, under).value;
    SetThenLookup(d1, under, d2, []);
    assert [insert, under][1..] == [under] && [under][1..] == [];
    assert ApplyBatch(storage, [insert, under]) == ApplyBatch(d2, []);
  }

  /**
   * A path that navigates through a key its predecessor would insert fails
   * when it runs first: the key is missing, so the batch stops on it and the
   * document is untouched.
   */
  lemma ReverseOrderFails(storage: Node, nav: seq<Key>, m: map<Key, Node>, a: Key,
                          more: seq<Key>, value: Node, inserted: Node)
    requires Lookup(storage, nav) == Some(Mapping(m))
    requires a !in m
    requires |more| >= 1
    ensures var under := Path(nav + [a] + more, value);
            var insert := Path(nav + [a], inserted);
            ApplyBatch(storage, [under, insert]) ==
              BatchResult(storage, Some(KeysPathNotExisted(under, a)))
  {
    var under := Path(nav + [a] + more, value);
    var navKeys := under.NavKeys();
    assert navKeys == nav + [a] + more[..|more| - 1];
    assert navKeys[..|nav|] == nav && navKeys[|nav|] == a;
    NavigationFailure(storage, under, |nav|);
  }

  /**
   * A final container that is a leaf or a tuple cannot take the assignment:
   * `set` fails untyped, never as unreachable, whatever the target.
   */
  lemma FinalLeafOrTupleUntyped(storage: Node, path: KeysPath)
    requires path.Length() >= 2
    requires Lookup(storage, path.NavKeys()).Some?
    requires var cur := Lookup(storage, path.NavKeys()).value;
             cur.Leaf? || (cur.Sequence? && cur.isTuple && path.Target().KIdx? &&
                           path.Target().index < |cur.items|)
    ensures SetPath(storage, path) == Failure(TypeFailure(path, path.Target()))
  {
  }

  /**
   * Writing under a string leaf: with the leaf as the final container the
   * assignment itself fails untyped, not as unreachable; with the leaf on the
   * way the navigation reports it unreachable.
   */
  lemma LeafExamples()
    ensures var storage := Mapping(map[KStr("a") := Leaf(Str("leaf"))]);
            var atLeaf := Path([KStr("a"), KStr("b")], Leaf(Null));
            var throughLeaf := Path([KStr("a"), KStr("b"), KStr("c")], Leaf(Null));
            && SetPath(storage, atLeaf) == Failure(TypeFailure(atLeaf, KStr("b")))
            && SetPath(storage, throughLeaf) ==
                 Failure(KeysPathUnreachable(Str("leaf"), KStr("b"), throughLeaf))
  {
  }

  /** Index 5 of a two-element list does not exist, as a target or as a navigation key. */
  lemma IndexExamples()
    ensures var storage := Mapping(map[KStr("a") := Sequence([Leaf(Int(1)), Leaf(Int(2))], false)]);
            var asTarget := Path([KStr("a"), KIdx(5)], Leaf(Int(0)));
            var asStep := Path([KStr("a"), KIdx(5), KStr("x")], Leaf(Int(0)));
            && SetPath(storage, asTarget) == Failure(KeysPathNotExisted(asTarget, KIdx(5)))
            && SetPath(storage, asStep) == Failure(KeysPathNotExisted(asStep, KIdx(5)))
  {
  }
}
