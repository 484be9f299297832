/**
 * The in-circuit checks of a fixed-height Merkle tree: fold a leaf up through the side nodes of a proof, choosing
 * the hash input order at each level by the bit of the leaf index, and compare the result with an expected root.
 */
module MerkleVerify {
  import opened Fields
  import opened TreeHashing

  /**
   * A Merkle proof of a tree of height `height`: the root it was taken against and one side node per level,
   * level 0 (next to the root) first.
   */
  datatype MerkleProof = MerkleProof(height: nat, root: Field, sideNodes: seq<Field>)

  /** The hash that joins `cur` with the side node `node` at one level: the side node goes left when the bit is set. */
  function Step(hasher: Hasher, bit: bool, node: Field, cur: Field): Field
  {
    if bit then hasher([node, cur]) else hasher([cur, node])
  }

  /** `cur` hashed through levels `n - 1` down to 0, deepest level first. */
  function Fold(hasher: Hasher, bits: seq<bool>, sideNodes: seq<Field>, n: nat, cur: Field): Field
    requires n <= |bits| && n <= |sideNodes|
    decreases n
  {
    if n == 0 then cur else Fold(hasher, bits, sideNodes, n - 1, Step(hasher, bits[n - 1], sideNodes[n - 1], cur))
  }

  /**
   * A reference definition read from the root down: the root is level 0's hash of its side node with the root of
   * the subtree below, which is computed the same way from the remaining levels.
   */
  function TopDown(hasher: Hasher, bits: seq<bool>, sideNodes: seq<Field>, leaf: Field): Field
    requires |bits| == |sideNodes|
    decreases |sideNodes|
  {
    if sideNodes == [] then leaf else Step(hasher, bits[0], sideNodes[0], TopDown(hasher, bits[1..], sideNodes[1..], leaf))
  }

  /** The root a proof gives for `leaf` at `index`: the fold over the `height` low bits of the index. */
  function RootFor(proof: MerkleProof, index: Field, leaf: Field, hasher: Hasher): Field
    requires proof.height <= |proof.sideNodes|
  {
    Fold(hasher, ToBits(index, proof.height), proof.sideNodes, proof.height, leaf)
  }

  /** The leaf of a value: the hash of its fields when values are hashed, otherwise its first field. */
  function LeafField(hasher: Hasher, valueFields: FieldList, hashValue: bool): Field
  {
    if hashValue then hasher(valueFields) else valueFields[0]
  }

  /** A hasher that never maps two different two-field inputs to the same value. */
  ghost predicate PairInjective(hasher: Hasher)
  {
    forall x: seq<Field>, y: seq<Field> :: |x| == 2 && |y| == 2 && hasher(x) == hasher(y) ==> x == y
  }

  // ---------------------------------------------------------------------------
  // Properties of the fold
  // ---------------------------------------------------------------------------

  /** Putting one more level at the bottom of the top-down reading hashes the leaf with that level's side node first. */
  lemma {:induction false} TopDownSnoc(hasher: Hasher, bits: seq<bool>, sideNodes: seq<Field>, bit: bool, node: Field, leaf: Field)
    requires |bits| == |sideNodes|
    ensures TopDown(hasher, bits + [bit], sideNodes + [node], leaf) == TopDown(hasher, bits, sideNodes, Step(hasher, bit, node, leaf))
    decreases |sideNodes|
  {
    if sideNodes != [] {
      assert (bits + [bit])[0] == bits[0] && (bits + [bit])[1..] == bits[1..] + [bit];
      assert (sideNodes + [node])[0] == sideNodes[0] && (sideNodes + [node])[1..] == sideNodes[1..] + [node];
      TopDownSnoc(hasher, bits[1..], sideNodes[1..], bit, node, leaf);
    } else {
      assert bits + [bit] == [bit] && sideNodes + [node] == [node];
      assert [bit][1..] == [] && [node][1..] == [];
    }
  }

  /** The bottom-up fold over the first `n` levels agrees with the top-down reading of those levels. */
  lemma {:induction false} FoldIsTopDown(hasher: Hasher, bits: seq<bool>, sideNodes: seq<Field>, n: nat, cur: Field)
    requires n <= |bits| && n <= |sideNodes|
    ensures Fold(hasher, bits, sideNodes, n, cur) == TopDown(hasher, bits[..n], sideNodes[..n], cur)
    decreases n
  {
    if n > 0 {
      var s := Step(hasher, bits[n - 1], sideNodes[n - 1], cur);
      FoldIsTopDown(hasher, bits, sideNodes, n - 1, s);
      assert bits[..n] == bits[..n - 1] + [bits[n - 1]];
      assert sideNodes[..n] == sideNodes[..n - 1] + [sideNodes[n - 1]];
      TopDownSnoc(hasher, bits[..n - 1], sideNodes[..n - 1], bits[n - 1], sideNodes[n - 1], cur);
    }
  }

  /** The fold reads only the first `n` bits and side nodes: side nodes past the height are ignored. */
  lemma {:induction false} FoldReadsPrefix(hasher: Hasher, bits1: seq<bool>, side1: seq<Field>, bits2: seq<bool>, side2: seq<Field>, n: nat, cur: Field)
    requires n <= |bits1| && n <= |side1| && n <= |bits2| && n <= |side2|
    requires bits1[..n] == bits2[..n] && side1[..n] == side2[..n]
    ensures Fold(hasher, bits1, side1, n, cur) == Fold(hasher, bits2, side2, n, cur)
    decreases n
  {
    if n > 0 {
      assert bits1[n - 1] == bits1[..n][n - 1] && bits2[n - 1] == bits2[..n][n - 1];
      assert side1[n - 1] == side1[..n][n - 1] && side2[n - 1] == side2[..n][n - 1];
      assert bits1[..n - 1] == bits1[..n][..n - 1] && bits2[..n - 1] == bits2[..n][..n - 1];
      assert side1[..n - 1] == side1[..n][..n - 1] && side2[..n - 1] == side2[..n][..n - 1];
      FoldReadsPrefix(hasher, bits1, side1, bits2, side2, n - 1, Step(hasher, bits1[n - 1], side1[n - 1], cur));
    }
  }

  /** With a hasher injective on pairs, different leaves fold to different roots along the same path and proof. */
  lemma {:induction false} FoldInjective(hasher: Hasher, bits: seq<bool>, sideNodes: seq<Field>, n: nat, cur1: Field, cur2: Field)
    requires PairInjective(hasher)
    requires n <= |bits| && n <= |sideNodes|
    requires Fold(hasher, bits, sideNodes, n, cur1) == Fold(hasher, bits, sideNodes, n, cur2)
    ensures cur1 == cur2
    decreases n
  {
    if n > 0 {
      var s1 := Step(hasher, bits[n - 1], sideNodes[n - 1], cur1);
      var s2 := Step(hasher, bits[n - 1], sideNodes[n - 1], cur2);
      FoldInjective(hasher, bits, sideNodes, n - 1, s1, s2);
      if bits[n - 1] {
        assert [sideNodes[n - 1], cur1] == [sideNodes[n - 1], cur2];
      } else {
        assert [cur1, sideNodes[n - 1]] == [cur2, sideNodes[n - 1]];
      }
    }
  }

  // ---------------------------------------------------------------------------
  // ProvableMerkleTreeUtils
  // ---------------------------------------------------------------------------

  /**
   * `computeRootByFieldInCircuit`: from level `height - 1` up to level 0, hash the current value with the level's
   * side node, ordered by the index bit of the level.
   */
  method ComputeRootByFieldInCircuit(proof: MerkleProof, index: Field, valueHashOrValueField: Field, hasher: Hasher)
    returns (currentHash: Field)
    requires proof.height <= |proof.sideNodes|
    ensures currentHash == RootFor(proof, index, valueHashOrValueField, hasher)
    ensures currentHash
      == TopDown(hasher, ToBits(index, proof.height), proof.sideNodes[..proof.height], valueHashOrValueField)
    ensures proof.height == 0 ==> currentHash == valueHashOrValueField
  {
    var h := proof.height;
    currentHash := valueHashOrValueField;
    var pathBits := ToBits(index, h);
    for i := h downto 0
      invariant Fold(hasher, pathBits, proof.sideNodes, h, valueHashOrValueField)
        == Fold(hasher, pathBits, proof.sideNodes, i, currentHash)
    {
      var node := proof.sideNodes[i];
      var currentValue := if pathBits[i] then [node, currentHash] else [currentHash, node];
      currentHash := hasher(currentValue);
    }
    FoldIsTopDown(hasher, pathBits, proof.sideNodes, h, valueHashOrValueField);
    assert pathBits[..h] == pathBits;
  }

  /** `computeRoot`: the root for a value, whose leaf is its fields' hash or, unhashed, its first field. */
  method ComputeRoot(proof: MerkleProof, index: Field, valueFields: FieldList, hasher: Hasher, hashValue: bool)
    returns (r: Field)
    requires proof.height <= |proof.sideNodes|
    ensures hashValue ==> r == RootFor(proof, index, hasher(valueFields), hasher)
    ensures !hashValue ==> r == RootFor(proof, index, valueFields[0], hasher)
  {
    var valueHashOrValueField := valueFields[0];
    if hashValue {
      valueHashOrValueField := hasher(valueFields);
    }
    r := ComputeRootByFieldInCircuit(proof, index, valueHashOrValueField, hasher);
  }

  /** `checkMembership`: whether the value's root along the proof is the expected root. */
  method CheckMembership(proof: MerkleProof, expectedRoot: Field, index: Field, valueFields: FieldList, hasher: Hasher, hashValue: bool)
    returns (b: bool)
    requires proof.height <= |proof.sideNodes|
    ensures b <==> expectedRoot == RootFor(proof, index, LeafField(hasher, valueFields, hashValue), hasher)
  {
    var currentRoot := ComputeRoot(proof, index, valueFields, hasher, hashValue);
    b := expectedRoot == currentRoot;
  }

  /** `checkNonMembership`: whether the root of the empty value `emptyValue` along the proof is the expected root. */
  method CheckNonMembership(proof: MerkleProof, expectedRoot: Field, index: Field, hasher: Hasher, emptyValue: Field)
    returns (b: bool)
    requires proof.height <= |proof.sideNodes|
    ensures b <==> expectedRoot == RootFor(proof, index, emptyValue, hasher)
  {
    var currentRoot := ComputeRootByFieldInCircuit(proof, index, emptyValue, hasher);
    b := expectedRoot == currentRoot;
  }

  // ---------------------------------------------------------------------------
  // What the checks establish
  // ---------------------------------------------------------------------------

  /** With a hasher injective on pairs, one proof and root admit at most one leaf at an index. */
  lemma MembershipDeterminesLeaf(proof: MerkleProof, expectedRoot: Field, index: Field, leaf1: Field, leaf2: Field, hasher: Hasher)
    requires PairInjective(hasher) && proof.height <= |proof.sideNodes|
    requires expectedRoot == RootFor(proof, index, leaf1, hasher)
    requires expectedRoot == RootFor(proof, index, leaf2, hasher)
    ensures leaf1 == leaf2
  {
    FoldInjective(hasher, ToBits(index, proof.height), proof.sideNodes, proof.height, leaf1, leaf2);
  }

  /** With a hasher injective on pairs, a value whose leaf is not the empty value is never both present and absent. */
  lemma MembershipExcludesNonMembership(proof: MerkleProof, expectedRoot: Field, index: Field, valueFields: FieldList,
                                        hasher: Hasher, hashValue: bool, emptyValue: Field)
    requires PairInjective(hasher) && proof.height <= |proof.sideNodes|
    requires LeafField(hasher, valueFields, hashValue) != emptyValue
    ensures !(expectedRoot == RootFor(proof, index, LeafField(hasher, valueFields, hashValue), hasher)
              && expectedRoot == RootFor(proof, index, emptyValue, hasher))
  {
    if expectedRoot == RootFor(proof, index, LeafField(hasher, valueFields, hashValue), hasher)
       && expectedRoot == RootFor(proof, index, emptyValue, hasher) {
      MembershipDeterminesLeaf(proof, expectedRoot, index, LeafField(hasher, valueFields, hashValue), emptyValue, hasher);
    }
  }

  /** A side node list longer than the height gives the same root as its first `height` entries. */
  lemma ExtraSideNodesIgnored(proof: MerkleProof, index: Field, leaf: Field, hasher: Hasher)
    requires proof.height <= |proof.sideNodes|
    ensures RootFor(proof, index, leaf, hasher)
      == RootFor(MerkleProof(proof.height, proof.root, proof.sideNodes[..proof.height]), index, leaf, hasher)
  {
    var h := proof.height;
    var bits := ToBits(index, h);
    assert proof.sideNodes[..h][..h] == proof.sideNodes[..h];
    FoldReadsPrefix(hasher, bits, proof.sideNodes, bits, proof.sideNodes[..h], h, leaf);
  }
}
