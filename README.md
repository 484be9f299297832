# snarky-smt compact sparse Merkle tree, modelled in Dafny

This project models the core of snarky-smt:

- The compact sparse Merkle tree engine (`CompactSparseMerkleTree`). It walks the tree along a path's bits and
  collects side nodes. It builds proofs of membership or non-membership. It inserts, updates and deletes leaves by
  staging node and value writes in a two-phase store, and it advances its in-memory root only after the store commits.
- The tree hasher. Its node encodings are tagged triples: empty `0`, leaf `1`, internal node `2`.
- The bit and hex helpers of `utils.js`.
- The fixed-height Merkle root fold used by the in-circuit membership checks (`ProvableMerkleTreeUtils`).

The modules follow the repository's files:

| module | file | models |
|---|---|---|
| `Fields` | `fields.dfy` | field elements as `nat`s, key and value field lists, `toBits`, `Array.reverse`, results and errors |
| `TreeHashing` | `tree_hasher.dfy` | `TreeHasher`: `digestLeaf`, `digestNode`, `parseLeaf`, `parseNode`, `isLeaf`, `isEmptyData`, `emptyData`, `path`, `digestValue` |
| `Utils` | `utils.dfy` | `countCommonPrefix`, `countSetBits`, `fieldToHexString`, `hexStringToField` |
| `Stores` | `store.dfy` | the store as the tree sees it: committed node and value maps, the root slot, the staged operations, `commit` |
| `CsmtSpec` | `csmt_spec.dfy` | what every tree operation computes, as functions of the committed node map: the traversal, the update plan, the delete plan, proofs, batch updates |
| `Csmt` | `csmt.dfy` | the `CompactSparseMerkleTree` class itself, each method proved against its `CsmtSpec` function |
| `MerkleVerify` | `merkle_verify.dfy` | `computeRootByFieldInCircuit`, `computeRoot`, `checkMembership`, `checkNonMembership` |

The hash function is an uninterpreted `seq<Field> -> Field`. Injectivity is never assumed. Where a lemma needs it,
it is stated as that lemma's hypothesis.

The tree's constants are fields of a `Config` parameter:

- `CSMT_DEPTH`: the depth, at least 1;
- `PLACEHOLDER`: the digest of an empty subtree;
- `RIGHT`: the bit value that sends a path to the right child;
- `CP_PADD_VALUE`: the reserved padding value;
- the `hashKey` and `hashValue` options.

The constant files these come from are not part of this model. The same holds for `EMPTY_VALUE` of the Merkle
checks, which is a parameter.

Each imperative loop of the source is a Dafny loop whose invariant ties it to a specification function:

- the walk of `sideNodesForRoot` to `Descend`;
- the rehash loop of `updateWithSideNodes` to `Climb`;
- the delete loop to `Collapse`, the loop as written;
- the `updateAll` loop to `UpdateAll`;
- the descending loop of `computeRootByFieldInCircuit` to `Fold`.

A store read that finds nothing is an explicit `NotFound` error. The test `test/level_store.test.ts:46-50` shows
reads of deleted keys rejecting, so reads of absent keys fail rather than returning `null`. Staged operations are
applied in order, and the last write to a key wins (`test/level_store.test.ts:36-50`).

The source's `undefined` root is `None`, and every other root is `Some(digest)`. A swallowed delete error leaves the
new root `undefined` (`csmt.js:304-319`).

The model follows the code where it behaves in ways a reader might not expect:

- Errors during a delete other than "key already empty" are logged and swallowed rather than surfaced, and the value
  deletion is still staged (`csmt.js:304-315`).
- Rewriting a leaf with its current value returns the tree's committed root, not the root the update started from
  (`csmt.js:366-369`).
- `has` never answers `false` (see "## Left out").
- The delete loop loses a leaf that bubbles up, or fails on a `PLACEHOLDER` side node after it (see "## Findings").
  The tree's delete path uses this loop as written.

## Model

| member | source | states |
|---|---|---|
| `Fields.ToBits` | build/module/lib/compact_smt/csmt.js:338 | the path bits of an element have exactly the requested length `depth` |
| `Fields.ToBitsInjective` | build/module/lib/compact_smt/csmt.js:338 | two elements below 2^n with the same n-bit expansion are equal, so different paths walk different bit strings |
| `Fields.Reverse` | build/module/lib/compact_smt/csmt.js:514-515 | reversal keeps the length and puts entry `|s|-1-i` at position `i` |
| `TreeHashing.DigestLeaf` | build/module/lib/compact_smt/tree_hasher.js:49-55 | a leaf digest's encoding is a leaf, is not empty, parses back to the given path and leaf data, and its hash is the hasher applied to the encoding's fields |
| `TreeHashing.DigestNode` | build/module/lib/compact_smt/tree_hasher.js:74-80 | a node digest's encoding is neither a leaf nor empty, parses back to the given children, and its hash is the hasher applied to its fields |
| `TreeHashing.EmptyData` | build/module/lib/compact_smt/tree_hasher.js:71-73 | the empty encoding is recognised as empty and not as a leaf |
| `TreeHashing.DigestLeafShape` | build/module/lib/compact_smt/tree_hasher.js:49-55 | `digestLeaf(p, d)` is hashed as exactly the three fields `[1, p, d]` |
| `TreeHashing.DigestNodeShape` | build/module/lib/compact_smt/tree_hasher.js:74-80 | `digestNode(l, r)` is hashed as exactly the three fields `[2, l, r]` |
| `TreeHashing.LeafRoundTrip` | build/module/lib/compact_smt/tree_hasher.js:49-61 | `parseLeaf` of a leaf digest's encoding gives back its path and leaf data |
| `TreeHashing.NodeRoundTrip` | build/module/lib/compact_smt/tree_hasher.js:74-86 | `parseNode` of a node digest's encoding gives back its left and right children |
| `TreeHashing.Classification` | build/module/lib/compact_smt/tree_hasher.js:62-73 | `isLeaf` holds on leaf encodings only, not on node encodings or `emptyData()`; `emptyData()` is `[0, 0, 0]` and is the only one of the three that `isEmptyData` accepts |
| `TreeHashing.LeafIsNotNode` | build/module/lib/compact_smt/tree_hasher.js:49-80 | a leaf encoding never equals a node encoding, because their first fields differ |
| `TreeHashing.LeafHashIsNotNodeHash` | build/module/lib/compact_smt/tree_hasher.js:49-80 | for a hasher injective on three-field inputs, a leaf hash never equals a node hash |
| `TreeHashing.DigestValue` | build/module/lib/compact_smt/tree_hasher.js:40-42 | `digestValue`: the hasher applied to the value's fields |
| `TreeHashing.KeyPath` | build/module/lib/compact_smt/tree_hasher.js:43-45 | `path`: the hasher applied to the key's fields |
| `TreeHashing.ParseLeaf` | build/module/lib/compact_smt/tree_hasher.js:56-61 | the path and leaf data of a leaf encoding, its second and third fields; stated by `LeafRoundTrip` |
| `TreeHashing.ParseNode` | build/module/lib/compact_smt/tree_hasher.js:81-86 | the left and right children of a node encoding, its second and third fields; stated by `NodeRoundTrip` |
| `TreeHashing.IsLeaf` | build/module/lib/compact_smt/tree_hasher.js:62-64 | the encoding's tag is the leaf prefix `1`; stated by `Classification` |
| `TreeHashing.IsEmptyData` | build/module/lib/compact_smt/tree_hasher.js:65-67 | the encoding's tag is the empty prefix `0`; stated by `Classification` |
| `Utils.CommonPrefix` | build/module/lib/utils.js:54-66 | the count is at most `|a|`, the strings agree below it, and they differ at it when it is below `|a|` |
| `Utils.CommonPrefixUnique` | build/module/lib/utils.js:57-63 | any count that agrees on a prefix and stops at the first divergence is the common-prefix length |
| `Utils.CommonPrefixSelf` | build/module/lib/utils.js:54-66 | a bit string shares all of its length with itself |
| `Utils.CountCommonPrefix` | build/module/lib/utils.js:54-66 | needs `|b| >= |a|`; the count is `<= |a|`, the first `count` positions agree, the strings differ at `count` when it is below `|a|`, and the count is the common-prefix length |
| `Utils.CountSetBits` | build/module/lib/utils.js:67-75 | the count is the number of `true` entries, hence at most the length |
| `Utils.ToHex` | build/module/lib/utils.js:28 | base-16 rendering has at least one digit |
| `Utils.FieldToHexString` | build/module/lib/utils.js:27-29 | the string is `0x` followed by the base-16 digits of the element |
| `Utils.DigitValue` | build/module/lib/utils.js:36-38 | a digit character's value is below its base |
| `Utils.HexStringToField` | build/module/lib/utils.js:36-38 | a parsed number is reduced below the modulus; a string that is not a number literal is `InvalidNumberString` |
| `Utils.ToHexValue` | build/module/lib/utils.js:28-37 | the base-16 digits of `n` read back as `n` |
| `Utils.ToHexCanonical` | build/module/lib/utils.js:28 | the digits are lower-case hex, and a leading `0` occurs only for the number 0 |
| `Utils.HexStringRoundTrip` | build/module/lib/utils.js:27-38 | `hexStringToField(fieldToHexString(f)) == f` for every element below the modulus |
| `Stores.Apply` | test/level_store.test.ts:36-50 | one staged operation applied to the committed state: a put writes its key, a delete removes it, a root update sets the root slot |
| `Stores.ApplyAll` | test/level_store.test.ts:36-59 | the staged operations applied in order; stated by `ApplyAllAppend`, `CommitLastWriteWins` and `PutThenDelete` |
| `Stores.ApplyAllAppend` | test/level_store.test.ts:36-46 | committing two batches one after the other is committing their concatenation |
| `Stores.CommitLastWriteWins` | test/level_store.test.ts:36-50 | after a commit each node and value key holds what its last staged operation wrote, or is absent if that was a delete |
| `Stores.PutThenDelete` | test/level_store.test.ts:36-50 | a staged put followed, after anything else, by a staged delete of the same key leaves the key absent after commit |
| `Stores.Store.GetNodes` | test/level_store.test.ts:48-53 | a read succeeds exactly when the key is committed, gives its encoding, and fails with `NotFound` otherwise |
| `Stores.Store.GetValue` | test/level_store.test.ts:50-56 | a read succeeds exactly when the path is committed, gives its value, and fails with `NotFound` otherwise |
| `Stores.Store.GetRoot` | test/level_store.test.ts:58-59 | the committed root, `None` when there is none |
| `Stores.Store.PreparePutNodes` | test/level_store.test.ts:36 | appends one node put to the staged operations and changes nothing committed |
| `Stores.Store.PrepareDelNodes` | test/level_store.test.ts:43 | appends one node delete to the staged operations |
| `Stores.Store.PreparePutValue` | test/level_store.test.ts:37 | appends one value put to the staged operations |
| `Stores.Store.PrepareDelValue` | test/level_store.test.ts:44 | appends one value delete to the staged operations |
| `Stores.Store.PrepareUpdateRoot` | test/level_store.test.ts:41 | appends one root update to the staged operations |
| `Stores.Store.ClearPrepareOperationCache` | build/module/lib/compact_smt/csmt.js:149 | empties the staged operations |
| `Stores.Store.Commit` | test/level_store.test.ts:46-59 | on success the committed state is the old one with the staged operations applied in order and the stage is empty; on an I/O failure nothing changes |
| `Stores.Store.Clear` | build/module/lib/compact_smt/csmt.js:169-171 | erases the committed nodes, values and root |
| `CsmtSpec.PathBits` | build/module/lib/compact_smt/csmt.js:338 | a path has exactly `depth` bits |
| `CsmtSpec.GetKeyField` | build/module/lib/compact_smt/csmt.js:100-113 | with `hashKey` the key's hash; otherwise the key's only field, and `KeyFieldsTooLong` exactly when it has more than one |
| `CsmtSpec.ValueField` | build/module/lib/compact_smt/csmt.js:322-335 | with `hashValue` the value's digest; otherwise its only field, failing with `ValueFieldsTooLong` for more than one field and `ReservedPaddingValue` when it equals `CP_PADD_VALUE` |
| `CsmtSpec.Descend` | build/module/lib/compact_smt/csmt.js:487-509 | the walk records equally many side and path nodes, at least one and at most the levels left; its data is missing exactly when it stopped at a `PLACEHOLDER`; a store miss is `NotFound` |
| `CsmtSpec.Traverse` | build/module/lib/compact_smt/csmt.js:461-519 | a successful traversal has one more path node than side nodes and at most `depth` side nodes, and its terminal is a `PLACEHOLDER` exactly when no data was found; failures are `NotFound` |
| `CsmtSpec.Split` | build/module/lib/compact_smt/csmt.js:488-496 | at an internal node, the side node is the child off the path and the next node the child on it: the left child is the side node exactly when the path bit is `RIGHT`; stated by `DescendChain` and `TraverseSteps` |
| `CsmtSpec.DescendChain` | build/module/lib/compact_smt/csmt.js:487-498 | at every step the node above splits, by that level's path bit, into the recorded side node and the next path node |
| `CsmtSpec.DescendInterior` | build/module/lib/compact_smt/csmt.js:499-508 | every node the walk visits before its last one is a stored internal node, not a `PLACEHOLDER` |
| `CsmtSpec.DescendEnd` | build/module/lib/compact_smt/csmt.js:499-508 | the data the walk ends with is the stored encoding of its last node, which is a leaf unless every level was walked |
| `CsmtSpec.TraverseTrivialRoot` | build/module/lib/compact_smt/csmt.js:462-482 | from a `PLACEHOLDER` root or a leaf root there are no side nodes, the path nodes are `[root]`, there is no sibling data, and the data is none or that leaf |
| `CsmtSpec.TraverseSteps` | build/module/lib/compact_smt/csmt.js:483-518 | `|pathNodes| == |sideNodes| + 1 <= depth + 1`, the root is the last path node, and at descent step `k` the path node above splits by bit `k` into side node and next path node, counted from the terminal end at index 0 |
| `CsmtSpec.TraverseInterior` | build/module/lib/compact_smt/csmt.js:487-509 | every path node above the terminal is a stored internal node |
| `CsmtSpec.TraverseTerminal` | build/module/lib/compact_smt/csmt.js:499-516 | the terminal is a `PLACEHOLDER` exactly when no data was found; otherwise the data is the terminal's stored encoding, a leaf unless all `depth` levels were walked |
| `CsmtSpec.ProveClassification` | build/module/lib/compact_smt/csmt.js:278-297 | the proof carries the traversal's side nodes and the given root; its non-membership leaf is the stored terminal exactly when the terminal is not `PLACEHOLDER` and its leaf has another path, and `emptyData()` otherwise; missing sibling data becomes `emptyData()`, and an updatable proof carries the stored encoding of the side node nearest the terminal |
| `CsmtSpec.DelNodesAll` | build/module/lib/compact_smt/csmt.js:376-378 | one node deletion per given node, in order |
| `CsmtSpec.CommonPrefixCount` | build/module/lib/compact_smt/csmt.js:341-352 | the shared prefix of the new path and the terminal leaf's path is at most `depth` |
| `CsmtSpec.ClimbWithoutSiblings` | build/module/lib/compact_smt/csmt.js:380-392 | when no level has a sibling the rehash keeps its start and stages nothing |
| `CsmtSpec.ClimbAboveLeafRoot` | build/module/lib/compact_smt/csmt.js:380-407 | above a new branch at level `commonPrefixCount` under a single-leaf tree, the climb from any level, the update's full `depth` included, stages exactly `min(level, commonPrefixCount)` nodes; each joins `PLACEHOLDER` with the node below it (the branch for the first), `PLACEHOLDER` on the left exactly when the level's path bit is `RIGHT`, and the root is the last one's hash |
| `CsmtSpec.UpdateSameValue` | build/module/lib/compact_smt/csmt.js:343-369 | updating an existing key with an equal value digest returns the committed root, whatever root the walk started from, and recomputes nothing above the leaf |
| `CsmtSpec.UpdateBranchOrder` | build/module/lib/compact_smt/csmt.js:353-365 | when the paths diverge at bit `cpc < depth`, the branch node staged right after the leaf has the existing terminal on the left exactly when bit `cpc` of the new path is `RIGHT`, and the value is staged last |
| `CsmtSpec.UpdateAllAppend` | build/module/lib/compact_smt/csmt.js:223-233 | a batch split in two runs its second part from the root the first part returns, staging both parts in order, and an error in the first part ends the whole batch |
| `CsmtSpec.BatchReadsCommittedOnly` | build/module/lib/compact_smt/csmt.js:223-233 | within one batch the walks read only committed nodes: two inserts into the empty tree fail with `NotFound`, because the second walk starts at the first leaf, which is staged and not committed |
| `CsmtSpec.InsertIntoEmptyTree` | build/module/lib/compact_smt/csmt.js:336-409 | inserting into the empty tree makes the root exactly the new leaf's hash and stages only the leaf and the value |
| `CsmtSpec.DeleteSingleLeaf` | build/module/lib/compact_smt/csmt.js:411-459 | deleting the key of a tree whose root is that key's leaf returns `PLACEHOLDER` and stages only the leaf's and the value's deletion |
| `CsmtSpec.InsertThenDelete` | build/module/lib/compact_smt/csmt.js:298-319 | after committing an insert into the empty tree, deleting the same key returns `PLACEHOLDER` again, provided the leaf hash is not the `PLACEHOLDER` digest |
| `CsmtSpec.DeleteAbsentKey` | build/module/lib/compact_smt/csmt.js:304-313 | deleting a key whose walk ends at `PLACEHOLDER` or at another path's leaf returns the root it started from and stages nothing, not even a value deletion |
| `CsmtSpec.DeleteErrorSwallowed` | build/module/lib/compact_smt/csmt.js:304-315 | a delete whose store read fails still succeeds, with an `undefined` new root, and the value deletion is still staged last |
| `CsmtSpec.Lookup` | build/module/lib/compact_smt/csmt.js:179-185 | `get` succeeds exactly when the root is defined and not `PLACEHOLDER`, the key has a field and a value is committed under it, and then returns that value; an empty tree is `KeyDoesNotExist` |
| `CsmtSpec.UpdatePlanEndsWithValue` | build/module/lib/compact_smt/csmt.js:408-409 | an update that changes the tree succeeds with a defined root and stages the value under its path last |
| `CsmtSpec.UpdateThenGet` | build/module/lib/compact_smt/csmt.js:208-215 | once an update's staged operations and new root are committed, `get` of the same key returns the new value, provided the new root is not the `PLACEHOLDER` digest |
| `CsmtSpec.CollapseDropsBubbledLeaf` | build/module/lib/compact_smt/csmt.js:427-433 | the delete loop as written drops a bubbled-up leaf when the next side node is a leaf, and reads the store for a `PLACEHOLDER` side node after a leaf |
| `CsmtSpec.CollapseStagesDigests` | build/module/lib/compact_smt/csmt.js:444-456 | every node the delete loop stages is a node put stored under the hash of its own encoding |
| `CsmtSpec.CollapseAfterReached` | build/module/lib/compact_smt/csmt.js:439-457 | once a real sibling has been hashed in, the loop reads the store no more, cannot fail, stages one node per remaining side node and returns the last one's hash |
| `CsmtSpec.CollapseBesideSubtree` | build/module/lib/compact_smt/csmt.js:427-457 | when the sibling next to the deleted leaf is internal, it is left beside a `PLACEHOLDER` ordered by the leaf's path bit, and every level above is rehashed: one staged node per side node, the last being the new root |
| `CsmtSpec.DeleteBesideSubtree` | build/module/lib/compact_smt/csmt.js:411-459 | deleting a stored key whose nearest sibling is internal succeeds: it stages the deletion of every path node, then one node per side node, and returns the last of them |
| `CsmtSpec.Collapse` | build/module/lib/compact_smt/csmt.js:424-459 | the delete loop as written, from side node `i` on: undefined `currentData` reads the store, a leaf side node only replaces the hash, an internal one resets it to `PLACEHOLDER`; its properties are stated by `CollapseStagesDigests`, `CollapseAfterReached`, `CollapseBesideSubtree` and `CollapseDropsBubbledLeaf` |
| `CsmtSpec.CollapseFixed` | build/module/lib/compact_smt/csmt.js:427-458 | the same loop with `currentData` set when a leaf side node is taken over, the intended behaviour described under Findings; its properties are stated by `CollapseFixedNoReads`, `CollapseFixedSkipsPlaceholders` and `CollapseFixedKeepsLeafSibling` |
| `CsmtSpec.DeletePlan` | build/module/lib/compact_smt/csmt.js:411-459 | `deleteWithSideNodes`: `KeyAlreadyEmpty` for a `PLACEHOLDER` terminal or a leaf of another path, otherwise the path node deletions followed by `Collapse`; stated by `DeleteSingleLeaf`, `DeleteAbsentKey`, `DeleteErrorSwallowed` and `DeleteBesideSubtree` |
| `CsmtSpec.UpdatePlan` | build/module/lib/compact_smt/csmt.js:321-410 | `updateWithSideNodes` over a traversal; stated by `UpdateSameValue`, `UpdateBranchOrder`, `UpdatePlanEndsWithValue`, `InsertIntoEmptyTree` and `UpdateThenGet` |
| `CsmtSpec.BranchNode` | build/module/lib/compact_smt/csmt.js:353-363 | the node joining the existing terminal and the new leaf, the terminal on the left exactly when the diverging bit is `RIGHT`; stated by `UpdateBranchOrder` |
| `CsmtSpec.SiblingAt` | build/module/lib/compact_smt/csmt.js:380-395 | the sibling of a level on the way up: the recorded side node for the walked levels, `PLACEHOLDER` between the walk's end and a new branch, none otherwise |
| `CsmtSpec.Climb` | build/module/lib/compact_smt/csmt.js:380-407 | the rehash from the bottom level to the root, one staged node per level with a sibling; stated by `ClimbWithoutSiblings` and `ClimbAboveLeafRoot` |
| `CsmtSpec.ProofFrom` | build/module/lib/compact_smt/csmt.js:281-296 | the proof built from a traversal: its side nodes, the non-membership leaf and the sibling data, each defaulting to `emptyData()` |
| `CsmtSpec.ProveForRoot` | build/module/lib/compact_smt/csmt.js:278-297 | `doProveForRoot`, with the key and traversal errors; stated by `ProveClassification` |
| `CsmtSpec.UpdateForRoot` | build/module/lib/compact_smt/csmt.js:298-320 | `updateForRoot`: an update with a value, a delete without one, the absent-key and swallowed-error cases of the delete; stated by `InsertIntoEmptyTree`, `DeleteSingleLeaf`, `InsertThenDelete`, `DeleteAbsentKey` and `DeleteErrorSwallowed` |
| `CsmtSpec.UpdateAll` | build/module/lib/compact_smt/csmt.js:223-233 | `updateAll`'s loop: each entry from the previous entry's root, stopping at the first error; stated by `UpdateAllAppend` |
| `CsmtSpec.CollapseFixedNoReads` | build/module/lib/compact_smt/csmt.js:427-458 | once `currentData` is set the corrected delete loop never reads the store, so it cannot fail |
| `CsmtSpec.CollapseFixedSkipsPlaceholders` | build/module/lib/compact_smt/csmt.js:440-443 | `PLACEHOLDER` side nodes before the first real one are skipped without staging anything |
| `CsmtSpec.CollapseFixedKeepsLeafSibling` | build/module/lib/compact_smt/csmt.js:427-458 | the corrected loop keeps a leaf sibling: with only `PLACEHOLDER`s above it, it becomes the new root; for any list, when the first real side node after it is at position `j` (any `PLACEHOLDER`s in between are skipped), the delete succeeds and its first staged node joins the leaf with that side node in the path-bit order of level `j`; with exactly two side nodes that join is the whole result |
| `CsmtSpec.CollapseFixedJoinsNext` | build/module/lib/compact_smt/csmt.js:440-457 | from a bubbled-up hash, the corrected loop skips the `PLACEHOLDER`s before position `j`, joins the hash with the real side node at `j` in path-bit order, and does not fail |
| `Csmt.CompactSparseMerkleTree.constructor` | build/module/lib/compact_smt/csmt.js:31-58 | the tree takes the given root, or `PLACEHOLDER` when none is given |
| `Csmt.CompactSparseMerkleTree.Import` | build/module/lib/compact_smt/csmt.js:78-99 | a tree over the store at its committed root; a store without a root is refused with `RootNotInStore` |
| `Csmt.CompactSparseMerkleTree.GetKeyField` | build/module/lib/compact_smt/csmt.js:100-113 | the key field that `CsmtSpec.GetKeyField` describes |
| `Csmt.CompactSparseMerkleTree.GetRoot` | build/module/lib/compact_smt/csmt.js:120-122 | the tree's current root |
| `Csmt.CompactSparseMerkleTree.Depth` | build/module/lib/compact_smt/csmt.js:160-162 | the configured depth, at least 1 |
| `Csmt.CompactSparseMerkleTree.SetRoot` | build/module/lib/compact_smt/csmt.js:148-153 | clears the stage and commits the new root; the tree adopts it only when the commit succeeds, and a failed commit changes nothing committed |
| `Csmt.CompactSparseMerkleTree.Clear` | build/module/lib/compact_smt/csmt.js:169-171 | erases the store and keeps the tree's root |
| `Csmt.CompactSparseMerkleTree.Get` | build/module/lib/compact_smt/csmt.js:179-185 | the committed value of the key, with the error cases of `CsmtSpec.Lookup` |
| `Csmt.CompactSparseMerkleTree.Has` | build/module/lib/compact_smt/csmt.js:193-199 | succeeds exactly when `get` does, and then answers `true`; otherwise it gives `get`'s error |
| `Csmt.CompactSparseMerkleTree.SideNodesForRoot` | build/module/lib/compact_smt/csmt.js:461-519 | the traversal `CsmtSpec.Traverse` describes over the committed nodes |
| `Csmt.CompactSparseMerkleTree.Walk` | build/module/lib/compact_smt/csmt.js:487-509 | the loop's side and path nodes and final data are those of `CsmtSpec.Descend` |
| `Csmt.CompactSparseMerkleTree.Finish` | build/module/lib/compact_smt/csmt.js:510-518 | both lists reversed, and when asked for, the stored encoding of the last side node, or `NotFound` |
| `Csmt.CompactSparseMerkleTree.DoProveForRoot` | build/module/lib/compact_smt/csmt.js:278-297 | the proof `CsmtSpec.ProveForRoot` describes, whose shape `CsmtSpec.ProveClassification` states |
| `Csmt.CompactSparseMerkleTree.Prove` | build/module/lib/compact_smt/csmt.js:251-253 | the non-updatable proof against the current root |
| `Csmt.CompactSparseMerkleTree.ProveUpdatable` | build/module/lib/compact_smt/csmt.js:261-263 | the updatable proof against the current root |
| `Csmt.CompactSparseMerkleTree.UpdateWithSideNodes` | build/module/lib/compact_smt/csmt.js:321-410 | returns the result of `CsmtSpec.UpdatePlan` and appends its staged operations to the stage |
| `Csmt.CompactSparseMerkleTree.LeafValueField` | build/module/lib/compact_smt/csmt.js:322-335 | the value field that `CsmtSpec.ValueField` describes, with its errors |
| `Csmt.CompactSparseMerkleTree.StageDelNodes` | build/module/lib/compact_smt/csmt.js:421-423 | stages one node deletion per node, in order |
| `Csmt.CompactSparseMerkleTree.ClimbToRoot` | build/module/lib/compact_smt/csmt.js:380-407 | the rehashed root and staged nodes are those of `CsmtSpec.Climb`, whose sibling at each level is `CsmtSpec.SiblingAt` |
| `Csmt.CompactSparseMerkleTree.DeleteWithSideNodes` | build/module/lib/compact_smt/csmt.js:411-460 | returns the result of `CsmtSpec.DeletePlan`, the loop as written, and appends its staged operations; an absent key is `KeyAlreadyEmpty` and a failed side node read is `NotFound` |
| `Csmt.CompactSparseMerkleTree.CollapseToRoot` | build/module/lib/compact_smt/csmt.js:424-459 | the new root and staged nodes are those of the delete loop as written, `CsmtSpec.Collapse`, whose behaviour `CsmtSpec.CollapseAfterReached`, `CsmtSpec.CollapseBesideSubtree` and `CsmtSpec.CollapseDropsBubbledLeaf` state |
| `Csmt.CompactSparseMerkleTree.UpdateForRoot` | build/module/lib/compact_smt/csmt.js:298-320 | the result and staged operations of `CsmtSpec.UpdateForRoot`, with the tree's own root as the committed root |
| `Csmt.CompactSparseMerkleTree.Update` | build/module/lib/compact_smt/csmt.js:208-215 | clears the stage, computes the update, and commits its writes with the new root; the root advances only after a successful commit, and an error or a failed commit leaves the committed state and the root as they were |
| `Csmt.CompactSparseMerkleTree.Delete` | build/module/lib/compact_smt/csmt.js:241-243 | an update without a value, with the same commit discipline |
| `Csmt.CompactSparseMerkleTree.UpdateAll` | build/module/lib/compact_smt/csmt.js:223-233 | threads the entries through the evolving root in order, commits all their writes with the final root once, and advances the root only after that commit |
| `Csmt.CompactSparseMerkleTree.UpdateEach` | build/module/lib/compact_smt/csmt.js:225-228 | the loop's result and staged operations are those of `CsmtSpec.UpdateAll` from the committed root |
| `MerkleVerify.Step` | build/module/lib/merkle/verify_circuit.js:115-117 | one level's hash: the side node first when the index bit is set, the current hash first otherwise |
| `MerkleVerify.Fold` | build/module/lib/merkle/verify_circuit.js:111-119 | the loop over levels `n-1` down to 0, one `Step` per level; stated by `FoldIsTopDown`, `FoldReadsPrefix` and `FoldInjective` |
| `MerkleVerify.TopDown` | build/module/lib/merkle/verify_circuit.js:110-120 | an independent root-first reading of the same computation, against which `FoldIsTopDown` checks `Fold` |
| `MerkleVerify.RootFor` | build/module/lib/merkle/verify_circuit.js:110-120 | the root a proof gives for a leaf at an index: the fold over the `height` low bits of the index |
| `MerkleVerify.FoldIsTopDown` | build/module/lib/merkle/verify_circuit.js:110-120 | the bottom-up loop over levels `h-1` down to 0 equals the top-down reading, in which level 0 joins its side node with the subtree below |
| `MerkleVerify.FoldReadsPrefix` | build/module/lib/merkle/verify_circuit.js:114-118 | the fold reads only the first `h` bits and side nodes |
| `MerkleVerify.FoldInjective` | build/module/lib/merkle/verify_circuit.js:114-118 | with a hasher injective on pairs, different leaves fold to different roots along the same path |
| `MerkleVerify.ComputeRootByFieldInCircuit` | build/module/lib/merkle/verify_circuit.js:110-120 | needs at least `height` side nodes; applies exactly `height` hash steps from level `height-1` down to 0, with the side node first when the index bit is set; with height 0 the leaf is returned unchanged |
| `MerkleVerify.ComputeRoot` | build/module/lib/merkle/verify_circuit.js:47-61 | the fold starts from the hash of the value's fields when `hashValue` is set, and from its first field otherwise |
| `MerkleVerify.LeafField` | build/module/lib/merkle/verify_circuit.js:55-59 | the leaf the fold starts from: the hash of the value's fields when `hashValue` is set, otherwise the value's first field |
| `MerkleVerify.CheckMembership` | build/module/lib/merkle/verify_circuit.js:80-86 | holds exactly when the expected root is the root the value's leaf folds to |
| `MerkleVerify.CheckNonMembership` | build/module/lib/merkle/verify_circuit.js:98-101 | holds exactly when the expected root is the root the empty value folds to |
| `MerkleVerify.MembershipDeterminesLeaf` | build/module/lib/merkle/verify_circuit.js:80-86 | with a hasher injective on pairs, one proof and root admit at most one leaf at an index |
| `MerkleVerify.MembershipExcludesNonMembership` | build/module/lib/merkle/verify_circuit.js:80-101 | with a hasher injective on pairs, a value whose leaf is not the empty value never passes both checks against the same root |
| `MerkleVerify.ExtraSideNodesIgnored` | build/module/lib/merkle/verify_circuit.js:110-119 | side nodes past the height do not affect the root |

## Left out

- Poseidon and every other hash function: the hasher is uninterpreted, and any collision resistance a lemma needs is its explicit hypothesis.
- The LevelDB, memory and Mongo stores: they are I/O. Only the committed maps, the staged operations and `commit` are modelled, and a commit's I/O failure is a boolean parameter.
- `async`/`await`: execution is sequential, and store reads are ordinary calls.
- `Field` modular arithmetic: field elements are `nat`s. `hexStringToField` reduces modulo a `modulus` parameter.
- `toBits` on an element that does not fit in the requested width throws in snarkyjs. `Fields.ToBits` takes the low bits instead.
- `Provable.toFields`/`fromFields`, `createEmptyValue` and `strToFieldArry`: snarkyjs plumbing. Keys and values appear only as their field lists.
- `BigInt` string forms other than `0x`/`0X` hex and plain decimal: there is no model of whitespace, `0o`, `0b` or a sign in `hexStringToField`.
- `printBits`: console output.
- The `MerkleProof` class factory and its `arrayProp` decorator (`verify_circuit.js:19-29`): metaprogramming. A proof is a `MerkleProof` datatype that carries its own height.
- `proveCompact`, `proveCompactForRoot`, `compactProof`/`decompactProof`, `verifyProof` and the deep-subtree operations: only their declarations exist, so their behaviour cannot be modelled.
- `getTreeHasher` and `getStore`: accessors that return the tree's collaborators.
- Option defaulting in the constructor and `import` (`csmt.js:31-99`): configuration. The hasher and the options are passed in.
- Csmt.CompactSparseMerkleTree.Import: it gives the new tree the hasher it is passed. The source's `import` passes its `config`, which has no `hasher`, as the constructor's options (`csmt.js:94-98`). A custom hasher is therefore replaced by Poseidon, which looks like a defect. It is not modelled, because the model has one uninterpreted hasher and no Poseidon to fall back to.
- Stores.Store.GetNodes: the store implementations are not part of this model, and it assumes that reads see only the committed maps, never the staged operations. The test shows reads only after a commit, so this is an assumption. Under it, a batch of `updateAll` whose later entries walk through nodes staged by earlier entries fails with `NotFound`. For example, two inserts into the empty tree fail (`CsmtSpec.BatchReadsCommittedOnly`). A store whose reads saw its staged writes would succeed there.
- `console.log` of the swallowed delete error (`csmt.js:308`).
- The constant files for `CSMT_DEPTH`, `PLACEHOLDER`, `RIGHT`, `CP_PADD_VALUE`, `ERR_KEY_ALREADY_EMPTY` and `EMPTY_VALUE` are not part of this model. The constants are parameters.
- Csmt.CompactSparseMerkleTree.Has: it never answers `false`. The store rejects a read of an absent path (`test/level_store.test.ts:50`) instead of returning `null`, so a missing value surfaces as `get`'s error.
- A general "delete inverts insert" property is not stated. The delete loop as written, which the tree uses, breaks it (see "## Findings"). Only the single-leaf round trip (`CsmtSpec.InsertThenDelete`) and the delete beside an internal sibling (`CsmtSpec.DeleteBesideSubtree`) are proved.

## Findings

| source | as written | input that shows it | evidently intended | confidence | as-written member | corrected member |
|---|---|---|---|---|---|---|
| build/module/lib/compact_smt/csmt.js:427-433 | In `deleteWithSideNodes`, a leaf side node becomes `currentHash` but `currentData` stays `null`. The next iteration therefore reads the store again and, on a leaf or internal side node, replaces or resets `currentHash`. | A tree whose root has children `node(A, B)` and `C`, all three leaves. Deleting `A` gives side nodes `[B, C]`. `B` is taken over, then `C` replaces it, so the new root is `C` and `B` is lost. With side nodes `[B, PLACEHOLDER]`, the store is read for `PLACEHOLDER` and the read fails; `updateForRoot` swallows the error and returns an `undefined` root. | The bubbled-up leaf should set `currentData`. Later `PLACEHOLDER`s are then skipped and the next real side node, wherever it is in the list, is hashed together with it. | not executed | `CsmtSpec.CollapseDropsBubbledLeaf` | `CsmtSpec.CollapseFixedKeepsLeafSibling` |

The tree's own delete, update and batch operations use the loop as written (`CsmtSpec.Collapse`), as the code does. The corrected loop `CsmtSpec.CollapseFixed` and its lemmas state the intended behaviour beside it.
