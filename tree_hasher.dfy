/**
 * The tree hasher of the compact sparse Merkle tree: node encodings are three-field arrays whose first field is a
 * domain tag (empty 0, leaf 1, internal node 2), and a node's digest is the hash of its encoding.
 */
module TreeHashing {
  import opened Fields

  const EmptyPrefix: Field := 0
  const LeafPrefix: Field := 1
  const NodePrefix: Field := 2

  /** A node encoding `[tag, first, second]`: a leaf holds `[1, path, leaf]`, an internal node `[2, left, right]`. */
  datatype Encoding = Encoding(tag: Field, first: Field, second: Field)

  /** What `digestLeaf` and `digestNode` return: the hash and the encoding it was computed from. */
  datatype Digest = Digest(hash: Field, value: Encoding)

  datatype LeafParts = LeafParts(path: Field, leaf: Field)
  datatype NodeParts = NodeParts(leftNode: Field, rightNode: Field)

  /** A hash of a list of field elements; the model treats it as an uninterpreted function. */
  type Hasher = seq<Field> -> Field

  /** The tree hasher; its key and value types appear in the model only through their field lists. */
  datatype TreeHasher = TreeHasher(hasher: Hasher)

  /** The fields an encoding is hashed as. */
  function ToFields(e: Encoding): (fs: seq<Field>)
    ensures |fs| == 3 && fs[0] == e.tag
  {
    [e.tag, e.first, e.second]
  }

  /** `digestValue`: the hash of a value's fields. */
  function DigestValue(th: TreeHasher, value: FieldList): Field
  {
    th.hasher(value)
  }

  /** `path`: the hash of a key's fields. */
  function KeyPath(th: TreeHasher, key: FieldList): Field
  {
    th.hasher(key)
  }

  function ParseLeaf(data: Encoding): LeafParts
  {
    LeafParts(data.first, data.second)
  }

  function ParseNode(data: Encoding): NodeParts
  {
    NodeParts(data.first, data.second)
  }

  predicate IsLeaf(data: Encoding)
  {
    data.tag == LeafPrefix
  }

  predicate IsEmptyData(data: Encoding)
  {
    data.tag == EmptyPrefix
  }

  function EmptyData(): (e: Encoding)
    ensures IsEmptyData(e) && !IsLeaf(e)
  {
    Encoding(EmptyPrefix, 0, 0)
  }

  /** `digestLeaf`: a leaf encoding that parses back to its path and data, and its hash. */
  function DigestLeaf(th: TreeHasher, path: Field, leafData: Field): (d: Digest)
    ensures IsLeaf(d.value) && !IsEmptyData(d.value)
    ensures ParseLeaf(d.value) == LeafParts(path, leafData)
    ensures d.hash == th.hasher(ToFields(d.value))
  {
    var value := Encoding(LeafPrefix, path, leafData);
    Digest(th.hasher(ToFields(value)), value)
  }

  /** `digestNode`: an internal-node encoding that parses back to its children, and its hash. */
  function DigestNode(th: TreeHasher, leftData: Field, rightData: Field): (d: Digest)
    ensures !IsLeaf(d.value) && !IsEmptyData(d.value)
    ensures ParseNode(d.value) == NodeParts(leftData, rightData)
    ensures d.hash == th.hasher(ToFields(d.value))
  {
    var value := Encoding(NodePrefix, leftData, rightData);
    Digest(th.hasher(ToFields(value)), value)
  }

  /** The leaf encoding is `[1, path, leafData]` and is hashed as exactly those three fields. */
  lemma DigestLeafShape(th: TreeHasher, path: Field, leafData: Field)
    ensures ToFields(DigestLeaf(th, path, leafData).value) == [LeafPrefix, path, leafData]
    ensures DigestLeaf(th, path, leafData).hash == th.hasher([1, path, leafData])
  {
  }

  /** The internal-node encoding is `[2, left, right]` and is hashed as exactly those three fields. */
  lemma DigestNodeShape(th: TreeHasher, leftData: Field, rightData: Field)
    ensures ToFields(DigestNode(th, leftData, rightData).value) == [NodePrefix, leftData, rightData]
    ensures DigestNode(th, leftData, rightData).hash == th.hasher([2, leftData, rightData])
  {
  }

  /** `parseLeaf(digestLeaf(p, d).value) == {path: p, leaf: d}`. */
  lemma LeafRoundTrip(th: TreeHasher, path: Field, leafData: Field)
    ensures ParseLeaf(DigestLeaf(th, path, leafData).value) == LeafParts(path, leafData)
  {
  }

  /** `parseNode(digestNode(l, r).value) == {leftNode: l, rightNode: r}`. */
  lemma NodeRoundTrip(th: TreeHasher, leftData: Field, rightData: Field)
    ensures ParseNode(DigestNode(th, leftData, rightData).value) == NodeParts(leftData, rightData)
  {
  }

  /** An encoding is classified by its tag alone, and the three tags pick out three disjoint kinds. */
  lemma Classification(th: TreeHasher, p: Field, d: Field, l: Field, r: Field)
    ensures IsLeaf(DigestLeaf(th, p, d).value)
    ensures !IsLeaf(DigestNode(th, l, r).value) && !IsLeaf(EmptyData())
    ensures IsEmptyData(EmptyData()) && ToFields(EmptyData()) == [0, 0, 0]
    ensures !IsEmptyData(DigestLeaf(th, p, d).value) && !IsEmptyData(DigestNode(th, l, r).value)
  {
  }

  /** A leaf encoding never equals an internal-node encoding: their first fields differ. */
  lemma LeafIsNotNode(th: TreeHasher, p: Field, d: Field, l: Field, r: Field)
    ensures DigestLeaf(th, p, d).value != DigestNode(th, l, r).value
    ensures DigestLeaf(th, p, d).value.tag != DigestNode(th, l, r).value.tag
  {
  }

  /** For a hasher that is injective on three-field inputs, a leaf digest never collides with a node digest. */
  lemma LeafHashIsNotNodeHash(th: TreeHasher, p: Field, d: Field, l: Field, r: Field)
    requires forall x: seq<Field>, y: seq<Field> :: |x| == 3 && |y| == 3 && th.hasher(x) == th.hasher(y) ==> x == y
    ensures DigestLeaf(th, p, d).hash != DigestNode(th, l, r).hash
  {
    var a, b := ToFields(DigestLeaf(th, p, d).value), ToFields(DigestNode(th, l, r).value);
    assert a[0] != b[0];
  }
}
