# Keys operations on nested documents

A Dafny model of `KeysOperationMixin` from tuning_box (`tuning_box/library/resource_keys_operation.py`).
The mixin writes values into a nested document of mappings, sequences and leaves.
A keys path is a list `[k0, …, kn-3, target, value]`.
`do_set` walks the navigation keys `k0 … kn-3` from the root and runs three checks before each step:
- the current point is a container (`_check_path_is_reachable`);
- a sequence index is below the length (`_check_out_of_index`);
- a mapping key exists (`_check_key_existed`).

It then assigns `value` at `target`.
At that final step only the out-of-index check runs.
So a new key can be inserted into the final mapping, but a sequence can never grow.
Paths of a batch are applied in order.
The first error stops the batch, and what earlier paths wrote stays written.
`perform_operation` dispatches `set` to `do_set`, accepts `delete` and does nothing, and refuses any other tag with `UnknownKeysOperation`.

Files:
- `wrappers.dfy`: `Option` and `Result`.
- `document.dfy` (module `Document`): the document as a tree value; `Child` (one subscript) and `Lookup` (a walk), the reference definitions of which slots exist; `Graft`, the in-place write of line 71 seen from the root, and the lemmas that it touches nothing else.
- `keys_operation.dfy` (module `KeysOperation`): keys paths, the error kinds, the three checks, one navigation step (`Step`), the walk (`Navigate`), the final assignment (`Assign`), the specification functions `SetPath` (one path) and `ApplyBatch` (a batch), and the methods `DoSet` (the nested loops of `do_set`) and `PerformOperation`.
- `keys_operation_properties.dfy` (module `KeysOperationProperties`): what `set` promises, proved about `SetPath` and `ApplyBatch`.

Modelling choices:
- A node is `Mapping(map<Key, Node>)`, `Sequence(seq<Node>, isTuple)` or `Leaf(Scalar)`, where a scalar is a string, an integer, a real number, a boolean or null.
- A key is `KStr(string)` or `KIdx(nat)`.
- A keys path `Path(keys, value)` stands for the list `keys + [value]`; `NoItems` is the empty list.
- The error payloads are those the messages format: the keys path, the offending key, and for `KeysPathUnreachable` the leaf found.
- Python raises a bare `TypeError` in three places, and the model reports each as `TypeFailure`, never as one of the tool's four kinds: assigning into a leaf or a tuple at line 71, and comparing a string key with a sequence length at line 24.
- Writing a value with `{"a": "leaf"}` as storage and `["a", "b", v]` as the path reaches line 71 and fails with `TypeFailure`. It does not fail with `KeysPathUnreachable`, because the reachability check runs only on navigation keys. The model follows the code here (see `LeafExamples`).

## Model

| member | source | states |
|---|---|---|
| `KeysOperation.CheckOutOfIndex` | tuning_box/library/resource_keys_operation.py:23-28 | on a sequence it passes exactly when the index names an existing item, an integer index at or past the end is reported as `KeysPathNotExisted`, a string key on a sequence gets the untyped failure, and on anything else it passes |
| `KeysOperation.CheckKeyExisted` | tuning_box/library/resource_keys_operation.py:30-35 | on a mapping it passes exactly when the key is present, otherwise reports `KeysPathNotExisted`; on anything else it passes |
| `KeysOperation.CheckPathIsReachable` | tuning_box/library/resource_keys_operation.py:37-42 | fails exactly on a leaf, with `KeysPathUnreachable` naming the leaf, the key and the path |
| `Document.Child` | tuning_box/library/resource_keys_operation.py:67 | the subscript `cur[key]`: defined on a mapping exactly for its keys and on a sequence exactly for indices below its length, never on a leaf; what it yields is a value of the mapping or an item of the sequence |
| `KeysOperation.Step` | tuning_box/library/resource_keys_operation.py:63-67 | the three checks in order let a step through exactly when `cur[key]` exists, and then it yields that child; a leaf is unreachable whatever the key; a missing mapping key or an index past the end is `KeysPathNotExisted` |
| `KeysOperation.Navigate` | tuning_box/library/resource_keys_operation.py:63-67 | the checked walk reaches a node exactly when every slot on the way exists, and it is the node `Lookup` finds; it never fails as invalid or as an unknown operation |
| `KeysOperation.Writable` | tuning_box/library/resource_keys_operation.py:69-71 | the final assignment can land on any key of a mapping, present or not, but on a list only at an existing index, and never on a leaf or a tuple |
| `KeysOperation.Assign` | tuning_box/library/resource_keys_operation.py:69-71 | the final assignment succeeds exactly on a mapping (any key) or a list with an in-range index; afterwards the target holds the value, every other slot is unchanged, a mapping's keys grow by the target only and a list keeps its length; an index past the end is `KeysPathNotExisted` and every other failure is the untyped one |
| `KeysOperation.SetPath` | tuning_box/library/resource_keys_operation.py:55-71 | one pass of the outer loop: a path shorter than two elements is `KeysPathInvalid`; a successful pass walked only existing slots and leaves the value at the target; it never reports an unknown operation (the `KeysOperationProperties` lemmas state the rest) |
| `KeysOperation.ApplyBatch` | tuning_box/library/resource_keys_operation.py:44-71 | the whole batch: a batch that ends without error held only paths of at least two elements, and its error is never an unknown operation (ordering, the first error stopping the batch and earlier writes staying are stated by the `KeysOperationProperties` lemmas) |
| `KeysOperation.DoSet` | tuning_box/library/resource_keys_operation.py:44-71 | the nested loops return exactly what `ApplyBatch` specifies: the document after all paths, or the first error with the document as the earlier paths left it |
| `KeysOperation.PerformOperation` | tuning_box/library/resource_keys_operation.py:76-85 | `set` behaves as `DoSet`; `delete` returns the storage unchanged without error; any other tag fails with `UnknownKeysOperation` carrying the tag and the allowed tags `set`, `delete` |
| `Document.Replace` | tuning_box/library/resource_keys_operation.py:71 | overwriting an existing slot changes only that slot and keeps the container's kind, keys and length |
| `Document.Graft` | tuning_box/library/resource_keys_operation.py:67-71 | writing at the node reached by a walk makes that node, looked up from the root, the written one |
| `Document.LookupAppend` | tuning_box/library/resource_keys_operation.py:63-67 | walking `a + b` is walking `a` and then `b` from where `a` ended |
| `Document.GraftFrame` | tuning_box/library/resource_keys_operation.py:67-71 | a write leaves every location that is neither above nor below the written node as it was |
| `Document.GraftAncestor` | tuning_box/library/resource_keys_operation.py:63-71 | every container above the written node exists before and after the write and keeps its keys, length and tuple-ness |
| `Document.GraftIdentity` | tuning_box/library/resource_keys_operation.py:67-71 | writing back the node already found at a location leaves the document unchanged |
| `KeysOperationProperties.NavigateAppend` | tuning_box/library/resource_keys_operation.py:63-67 | the checked walk over `a + b` is the walk over `a`, then over `b`, with the first error winning |
| `KeysOperationProperties.SetSucceedsIff` | tuning_box/library/resource_keys_operation.py:55-71 | `set` with one path succeeds exactly when the path has at least two elements, all navigation slots exist and the node reached can take the assignment at the target |
| `KeysOperationProperties.SetThenLookup` | tuning_box/library/resource_keys_operation.py:69-71 | after a successful `set`, looking up the navigation keys and then the target yields the value, and below it the value's own parts |
| `KeysOperationProperties.FinalMappingInsert` | tuning_box/library/resource_keys_operation.py:69-71 | a target absent from the final mapping is inserted rather than refused, and that mapping becomes the old one plus the target |
| `KeysOperationProperties.ShortPathInvalid` | tuning_box/library/resource_keys_operation.py:57-61 | a path with fewer than two elements fails with `KeysPathInvalid` |
| `KeysOperationProperties.NavigationFailure` | tuning_box/library/resource_keys_operation.py:63-67 | at the first navigation key whose slot is missing, `set` fails on that key: `KeysPathUnreachable` on a leaf whatever the key, `KeysPathNotExisted` for a missing mapping key or an index at or past the end |
| `KeysOperationProperties.FinalIndexOutOfRange` | tuning_box/library/resource_keys_operation.py:69-71 | a final sequence index at or past the end fails with `KeysPathNotExisted`, so a sequence never grows |
| `KeysOperationProperties.BesideTarget` | tuning_box/library/resource_keys_operation.py:69-71 | in the container written into, every slot other than the target, and everything below it, is unchanged |
| `KeysOperationProperties.SetKeepsOtherLocations` | tuning_box/library/resource_keys_operation.py:67-71 | a successful `set` changes no location that is neither an ancestor of the written slot nor inside it |
| `KeysOperationProperties.SetKeepsShape` | tuning_box/library/resource_keys_operation.py:67-71 | outside the written slot a successful `set` keeps which locations exist, every sequence's length and every mapping's keys, except that the mapping holding the target may gain the target key |
| `KeysOperationProperties.SetIdempotent` | tuning_box/library/resource_keys_operation.py:55-71 | re-applying a successful path leaves the document as it is |
| `KeysOperationProperties.ApplyBatchAppend` | tuning_box/library/resource_keys_operation.py:55-71 | a batch split in two is the first part, then the second on the document the first left, unless the first part failed |
| `KeysOperationProperties.FirstErrorStopsBatch` | tuning_box/library/resource_keys_operation.py:55-71 | the first failing path ends the batch with its error; the paths before it stay applied and the paths after it never run |
| `KeysOperationProperties.InvalidPathStopsBatch` | tuning_box/library/resource_keys_operation.py:55-61 | a path with fewer than two elements ends the batch with `KeysPathInvalid`, and the paths before it stay applied |
| `KeysOperationProperties.BatchOrderMatters` | tuning_box/library/resource_keys_operation.py:55-71 | under `{}`, `["a", {}]` then `["a", "b", 1]` succeeds and gives `{"a": {"b": 1}}`, while the same two paths in the other order fail with `KeysPathNotExisted` on `"a"` and leave `{}` |
| `KeysOperationProperties.InsertThenWriteUnder` | tuning_box/library/resource_keys_operation.py:55-71 | for any document, once a path has written a node at `nav + [a]`, a later path in the same batch writing at `nav + [a] + more` succeeds when `more` leads to a writable place inside that node, and its value is found there afterwards |
| `KeysOperationProperties.ReverseOrderFails` | tuning_box/library/resource_keys_operation.py:55-67 | for any document, a path that navigates through a key missing from a mapping, run before the path that would insert that key, stops the batch with `KeysPathNotExisted` on that key and leaves the document untouched |
| `KeysOperationProperties.FinalLeafOrTupleUntyped` | tuning_box/library/resource_keys_operation.py:69-71 | for any document, when the navigation keys lead to a leaf, or to a tuple with the target index in range, `set` fails with the untyped failure on the target, never as unreachable |
| `KeysOperationProperties.LeafExamples` | tuning_box/library/resource_keys_operation.py:63-71 | under `{"a": "leaf"}`, `["a", "b", v]` fails at the assignment with the untyped error, while `["a", "b", "c", v]` fails as unreachable at `"b"` |
| `KeysOperationProperties.IndexExamples` | tuning_box/library/resource_keys_operation.py:63-71 | under `{"a": [1, 2]}`, index 5 fails with `KeysPathNotExisted` both as the target and as a navigation key |

## Left out

- Error message text: each error carries its payload (path, key, leaf) instead of the formatted string.
- The module that defines the error classes is not part of this model; the four error kinds are plain constructors.
- Python's untyped failures are one `TypeFailure` kind; the model does not tell which `TypeError` the runtime would raise.
- `CheckOutOfIndex` and `Step` follow Python 3 for a string key on a sequence: comparing it with the length raises `TypeError`. Under Python 2 the comparison is true, so that case would be `KeysPathNotExisted`; the model does not capture the Python 2 behaviour.
- Negative indices, keys that are neither strings nor non-negative integers, and unhashable keys are outside the model: a key is `KStr` or `KIdx(nat)`.
- Identity and aliasing: the document is a tree value. The in-place write of line 71 becomes `Graft`, which rebuilds the nodes along the path. Two places in a Python document that share one object would both see a write; here they are independent.
- Insertion order of mappings: a Dafny `map` has no order, so the model does not say where an inserted key goes.
- `do_delete` (lines 73-74) is an empty stub that `perform_operation` never calls; its `delete` branch is modelled in `PerformOperation`.
- In-place mutation of the caller's object: `DoSet` and `PerformOperation` return the new document, and on an error also the document as far as it was written, instead of mutating their argument.
- The mixin class, `self`, concurrency, persistence and the service layer around the mixin.
