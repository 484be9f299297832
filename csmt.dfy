/**
 * The compact sparse Merkle tree object: a store, a tree hasher, the configuration and the current root. Every
 * operation reads the committed store, stages its writes and, for `update`, `updateAll`, `delete` and `setRoot`,
 * commits them together with the new root. Each method is proved against the functions of module CsmtSpec.
 */
module Csmt {
  import opened Fields
  import opened TreeHashing
  import opened Stores
  import opened Utils
  import opened CsmtSpec

  /** `sides` and `visited` put in front of the lists a descent records. */
  function Extend(sides: seq<Field>, visited: seq<Field>, r: Result<Descent>): Result<Descent>
  {
    match r
    case Err(e) => Err(e)
    case Ok(d) => Ok(Descent(sides + d.sides, visited + d.visited, d.last))
  }

  /** Putting nothing in front of a descent leaves it unchanged. */
  lemma ExtendNothing(r: Result<Descent>)
    ensures Extend([], [], r) == r
  {
    if r.Ok? {
      assert [] + r.value.sides == r.value.sides && [] + r.value.visited == r.value.visited;
    }
  }

  /** Two extensions in a row are one extension by the joined lists. */
  lemma ExtendTwice(sides: seq<Field>, visited: seq<Field>, side: Field, next: Field, r: Result<Descent>)
    ensures Extend(sides, visited, Extend([side], [next], r)) == Extend(sides + [side], visited + [next], r)
  {
    if r.Ok? {
      assert sides + ([side] + r.value.sides) == (sides + [side]) + r.value.sides;
      assert visited + ([next] + r.value.visited) == (visited + [next]) + r.value.visited;
    }
  }

  /** Six staged groups appended in either association give the same operations. */
  lemma Associate(a: seq<Op>, b: seq<Op>, c: seq<Op>, d: seq<Op>, e: seq<Op>, f: seq<Op>)
    ensures a + b + c + d + e + f == a + (b + c + d + e + f)
  {
  }

  /** `prefix` put in front of a staged computation's operations. */
  function Then<T>(prefix: seq<Op>, s: Staged<T>): Staged<T>
  {
    Staged(s.result, prefix + s.ops)
  }

  /** One step of `Descend`, with the rest of the walk put behind the step it takes. */
  lemma DescendStep(nodes: map<Field, Encoding>, cfg: TreeConfig, bits: seq<bool>, i: nat, data: Encoding)
    requires |bits| == cfg.depth && i < cfg.depth
    ensures var b := Split(cfg, data, bits[i]);
      Descend(nodes, cfg, bits, i, data)
        == if b.next == cfg.placeholder then Ok(Descent([b.side], [b.next], None))
           else if b.next !in nodes then Err(NotFound)
           else if IsLeaf(nodes[b.next]) then Ok(Descent([b.side], [b.next], Some(nodes[b.next])))
           else Extend([b.side], [b.next], Descend(nodes, cfg, bits, i + 1, nodes[b.next]))
  {
  }

  /** The traversal below an internal root, given the descent from it. */
  lemma TraverseFromDescent(nodes: map<Field, Encoding>, cfg: TreeConfig, path: Field, root: Field, getSiblingData: bool, d: Descent)
    requires root != cfg.placeholder && root in nodes && !IsLeaf(nodes[root])
    requires Descend(nodes, cfg, PathBits(cfg, path), 0, nodes[root]) == Ok(d)
    ensures |d.sides| >= 1
    ensures Traverse(nodes, cfg, path, root, getSiblingData)
      == if !getSiblingData then Ok(Traversal(Reverse(d.sides), Reverse([root] + d.visited), d.last, None))
         else if d.sides[|d.sides| - 1] in nodes
         then Ok(Traversal(Reverse(d.sides), Reverse([root] + d.visited), d.last, Some(nodes[d.sides[|d.sides| - 1]])))
         else Err(NotFound)
  {
  }

  /** One entry of a batch: the whole batch's outcome seen from entry `i` after `done` was staged. */
  lemma UpdateEachStep(nodes: map<Field, Encoding>, cfg: TreeConfig, th: TreeHasher, committedRoot: Option<Field>,
                       root: Option<Field>, kvs: seq<KeyValue>, i: nat, done: seq<Op>, whole: Staged<Result<Option<Field>>>)
    requires i < |kvs|
    requires whole == Then(done, UpdateAll(nodes, cfg, th, committedRoot, root, kvs[i..]))
    ensures var step := CsmtSpec.UpdateForRoot(nodes, cfg, th, committedRoot, root, kvs[i].key, kvs[i].value);
      && (step.result.Err? ==> whole == Staged(Err(step.result.error), done + step.ops))
      && (step.result.Ok? ==> whole == Then(done + step.ops, UpdateAll(nodes, cfg, th, committedRoot, step.result.value, kvs[i + 1..])))
  {
    UpdateAllFrom(nodes, cfg, th, committedRoot, root, kvs, i);
    var step := CsmtSpec.UpdateForRoot(nodes, cfg, th, committedRoot, root, kvs[i].key, kvs[i].value);
    if step.result.Ok? {
      var rest := UpdateAll(nodes, cfg, th, committedRoot, step.result.value, kvs[i + 1..]);
      Concat3(done, step.ops, rest.ops);
    }
  }

  class CompactSparseMerkleTree {
    const th: TreeHasher
    const cfg: TreeConfig
    const store: Store
    var root: Option<Field>

    /** `new CompactSparseMerkleTree(store, ..., root)`: the given root, or `PLACEHOLDER` (the empty tree) without one. */
    constructor (store: Store, th: TreeHasher, cfg: TreeConfig, root: Option<Field>)
      ensures this.store == store && this.th == th && this.cfg == cfg
      ensures this.root == Some(if root.Some? then root.value else cfg.placeholder)
    {
      this.store := store;
      this.th := th;
      this.cfg := cfg;
      this.root := Some(if root.Some? then root.value else cfg.placeholder);
    }

    /** `import`: a tree over `store` at the store's committed root; a store without a root is refused. */
    static method Import(store: Store, th: TreeHasher, cfg: TreeConfig) returns (r: Result<CompactSparseMerkleTree>)
      ensures r.Err? <==> store.root.None?
      ensures r.Err? ==> r.error == RootNotInStore
      ensures r.Ok? ==> fresh(r.value) && r.value.store == store && r.value.th == th && r.value.cfg == cfg && r.value.root == store.root
    {
      var committed := store.GetRoot();
      if committed.None? {
        return Err(RootNotInStore);
      }
      var tree := new CompactSparseMerkleTree(store, th, cfg, committed);
      return Ok(tree);
    }

    /** `getKeyField`: the hashed key, or the key's single field when keys are not hashed. */
    method GetKeyField(key: FieldList) returns (r: Result<Field>)
      ensures r == CsmtSpec.GetKeyField(cfg, th, key)
    {
      if cfg.hashKey {
        return Ok(KeyPath(th, key));
      }
      var keyFields := key;
      if |keyFields| > 1 {
        return Err(KeyFieldsTooLong);
      }
      return Ok(keyFields[0]);
    }

    method GetRoot() returns (r: Option<Field>)
      ensures r == root
    {
      return root;
    }

    method Depth() returns (d: nat)
      ensures d == cfg.depth && d >= 1
    {
      return cfg.depth;
    }

    /** `setRoot`: commit `newRoot` as the store's root, then adopt it; a failed commit changes nothing committed. */
    method SetRoot(newRoot: Option<Field>, ioError: bool) returns (r: Result<()>)
      modifies this, store
      ensures r.Ok? <==> !ioError
      ensures r.Err? ==>
        r.error == CommitFailure && root == old(root) && store.State() == old(store.State()) && store.staged == [UpdateRoot(newRoot)]
      ensures r.Ok? ==> root == newRoot && store.State() == old(store.State()).(root := newRoot) && store.staged == []
    {
      store.ClearPrepareOperationCache();
      store.PrepareUpdateRoot(newRoot);
      var ok := store.Commit(ioError);
      if !ok {
        return Err(CommitFailure);
      }
      assert ApplyAll(old(store.State()), [UpdateRoot(newRoot)]) == ApplyAll(old(store.State()).(root := newRoot), []);
      root := newRoot;
      return Ok(());
    }

    /** `clear`: erase the store; the tree keeps its root. */
    method Clear()
      modifies store
      ensures store.nodes == map[] && store.values == map[] && store.root == None
      ensures store.staged == old(store.staged) && root == old(root)
    {
      store.Clear();
    }

    /** `get`: the committed value of `key`, with the errors of `Lookup`. */
    method Get(key: FieldList) returns (r: Result<FieldList>)
      ensures r == Lookup(store.values, cfg, th, root, key)
    {
      if root.None? {
        return Err(UndefinedRoot);
      }
      if root.value == cfg.placeholder {
        return Err(KeyDoesNotExist);
      }
      var path := GetKeyField(key);
      if path.Err? {
        return Err(path.error);
      }
      r := store.GetValue(path.value);
    }

    /**
     * `has`: whether `get` finds a value. The store rejects an absent path instead of returning `null`, so a missing
     * key surfaces as `get`'s error rather than as `false`.
     */
    method Has(key: FieldList) returns (r: Result<bool>)
      ensures r.Ok? <==> Lookup(store.values, cfg, th, root, key).Ok?
      ensures r.Ok? ==> r.value
      ensures r.Err? ==> r.error == Lookup(store.values, cfg, th, root, key).error
    {
      var v := Get(key);
      if v.Err? {
        return Err(v.error);
      }
      return Ok(true);
    }

    /**
     * `sideNodesForRoot`: walk from `root` following the bits of `path`, reading the committed store, and return
     * the side and path nodes leaf end first, exactly as `Traverse` describes.
     */
    method SideNodesForRoot(path: Field, root: Field, getSiblingData: bool) returns (r: Result<Traversal>)
      ensures r == Traverse(store.nodes, cfg, path, root, getSiblingData)
    {
      if root == cfg.placeholder {
        return Ok(Traversal([], [root], None, None));
      }
      var fetched := store.GetNodes(root);
      if fetched.Err? {
        return Err(fetched.error);
      }
      var currentData := fetched.value;
      if IsLeaf(currentData) {
        return Ok(Traversal([], [root], Some(currentData), None));
      }
      var pathBits := ToBits(path, cfg.depth);
      var walk := Walk(pathBits, currentData);
      if walk.Err? {
        return Err(walk.error);
      }
      TraverseFromDescent(store.nodes, cfg, path, root, getSiblingData, walk.value);
      r := Finish(walk.value.sides, [root] + walk.value.visited, walk.value.last, getSiblingData);
    }

    /**
     * The loop of `sideNodesForRoot` below an internal root: at each level record the side node and the next path
     * node, and stop at a `PLACEHOLDER`, at a leaf, or after the last level.
     */
    method Walk(pathBits: seq<bool>, rootData: Encoding) returns (r: Result<Descent>)
      requires |pathBits| == cfg.depth
      ensures r == Descend(store.nodes, cfg, pathBits, 0, rootData)
    {
      var sideNodes: seq<Field> := [];
      var pathNodes: seq<Field> := [];
      var currentData := rootData;
      ExtendNothing(Descend(store.nodes, cfg, pathBits, 0, rootData));
      var i := 0;
      while i < cfg.depth
        invariant 0 <= i <= cfg.depth
        invariant |sideNodes| == i && |pathNodes| == i
        invariant Descend(store.nodes, cfg, pathBits, 0, rootData)
          == Extend(sideNodes, pathNodes, Descend(store.nodes, cfg, pathBits, i, currentData))
        decreases cfg.depth - i
      {
        var n := ParseNode(currentData);
        var sideNode, nodeHash;
        if pathBits[i] == cfg.right {
          sideNode, nodeHash := n.leftNode, n.rightNode;
        } else {
          sideNode, nodeHash := n.rightNode, n.leftNode;
        }
        DescendStep(store.nodes, cfg, pathBits, i, currentData);
        assert Split(cfg, currentData, pathBits[i]) == Branch(sideNode, nodeHash);
        ExtendTwice(sideNodes, pathNodes, sideNode, nodeHash, Descend(store.nodes, cfg, pathBits, i + 1, currentData));
        ghost var sideNodes0, pathNodes0 := sideNodes, pathNodes;
        sideNodes := sideNodes + [sideNode];
        pathNodes := pathNodes + [nodeHash];
        if nodeHash == cfg.placeholder {
          return Ok(Descent(sideNodes, pathNodes, None));
        }
        var fetched := store.GetNodes(nodeHash);
        if fetched.Err? {
          return Err(fetched.error);
        }
        if IsLeaf(fetched.value) {
          return Ok(Descent(sideNodes, pathNodes, Some(fetched.value)));
        }
        ExtendTwice(sideNodes0, pathNodes0, sideNode, nodeHash, Descend(store.nodes, cfg, pathBits, i + 1, fetched.value));
        currentData := fetched.value;
        i := i + 1;
      }
      assert Descend(store.nodes, cfg, pathBits, i, currentData) == Ok(Descent([], [], Some(currentData)));
      assert sideNodes + [] == sideNodes && pathNodes + [] == pathNodes;
      return Ok(Descent(sideNodes, pathNodes, Some(currentData)));
    }

    /** The end of the walk: the stored encoding of the last side node when asked for, and both lists reversed. */
    method Finish(sideNodes: seq<Field>, pathNodes: seq<Field>, currentData: Option<Encoding>, getSiblingData: bool) returns (r: Result<Traversal>)
      requires |sideNodes| >= 1
      ensures !getSiblingData ==> r == Ok(Traversal(Reverse(sideNodes), Reverse(pathNodes), currentData, None))
      ensures getSiblingData ==> r == (if sideNodes[|sideNodes| - 1] in store.nodes
        then Ok(Traversal(Reverse(sideNodes), Reverse(pathNodes), currentData, Some(store.nodes[sideNodes[|sideNodes| - 1]])))
        else Err(NotFound))
    {
      var siblingData: Option<Encoding> := None;
      if getSiblingData {
        var fetched := store.GetNodes(sideNodes[|sideNodes| - 1]);
        if fetched.Err? {
          return Err(fetched.error);
        }
        siblingData := Some(fetched.value);
      }
      return Ok(Traversal(Reverse(sideNodes), Reverse(pathNodes), currentData, siblingData));
    }

    /** `doProveForRoot`: the proof for `key` against `root`, as `ProveForRoot` describes. */
    method DoProveForRoot(root: Option<Field>, key: FieldList, isUpdatable: bool) returns (r: Result<Proof>)
      ensures r == ProveForRoot(store.nodes, cfg, th, root, key, isUpdatable)
    {
      var path := GetKeyField(key);
      if path.Err? {
        return Err(path.error);
      }
      if root.None? {
        return Err(UndefinedRoot);
      }
      var t := SideNodesForRoot(path.value, root.value, isUpdatable);
      if t.Err? {
        return Err(t.error);
      }
      var nonMembershipLeafData := EmptyData();
      if t.value.pathNodes[0] != cfg.placeholder {
        var actualPath := ParseLeaf(t.value.currentData.value).path;
        if actualPath != path.value {
          nonMembershipLeafData := t.value.currentData.value;
        }
      }
      var siblingData := if t.value.siblingData.None? then EmptyData() else t.value.siblingData.value;
      return Ok(Proof(t.value.sideNodes, nonMembershipLeafData, siblingData, root.value));
    }

    /** `prove`: a proof against the current root. */
    method Prove(key: FieldList) returns (r: Result<Proof>)
      ensures r == ProveForRoot(store.nodes, cfg, th, root, key, false)
    {
      r := DoProveForRoot(root, key, false);
    }

    /** `proveUpdatable`: a proof against the current root that also carries the sibling's data. */
    method ProveUpdatable(key: FieldList) returns (r: Result<Proof>)
      ensures r == ProveForRoot(store.nodes, cfg, th, root, key, true)
    {
      r := DoProveForRoot(root, key, true);
    }

    /**
     * `updateWithSideNodes`: stage the writes of an insert or update of `path` and return the new root, as
     * `UpdatePlan` describes; the unchanged-value case returns the tree's committed root.
     */
    method UpdateWithSideNodes(path: Field, value: FieldList, sideNodes: seq<Field>, pathNodes: seq<Field>, oldLeafData: Option<Encoding>)
      returns (r: Result<Option<Field>>)
      requires WellFormed(cfg, Traversal(sideNodes, pathNodes, oldLeafData, None))
      modifies store`staged
      ensures var plan := UpdatePlan(cfg, th, root, path, value, Traversal(sideNodes, pathNodes, oldLeafData, None));
        r == plan.result && store.staged == old(store.staged) + plan.ops
    {
      ghost var t := Traversal(sideNodes, pathNodes, oldLeafData, None);
      var checked := LeafValueField(value);
      if checked.Err? {
        assert UpdatePlan(cfg, th, root, path, value, t) == Staged(Err(checked.error), []);
        return Err(checked.error);
      }
      var valueField := checked.value;
      var leaf := DigestLeaf(th, path, valueField);
      var currentHash, currentData := leaf.hash, leaf.value;
      store.PreparePutNodes(currentHash, currentData);
      var pathBits := ToBits(path, cfg.depth);
      var commonPrefixCount: nat := 0;
      var oldValueHash: Option<Field> := None;
      if pathNodes[0] == cfg.placeholder {
        commonPrefixCount := cfg.depth;
      } else {
        var result := ParseLeaf(oldLeafData.value);
        oldValueHash := Some(result.leaf);
        commonPrefixCount := CountCommonPrefix(pathBits, ToBits(result.path, cfg.depth));
      }
      assert commonPrefixCount == CommonPrefixCount(cfg, path, t);
      ghost var head: seq<Op> := [];
      if commonPrefixCount != cfg.depth {
        if pathBits[commonPrefixCount] == cfg.right {
          var result := DigestNode(th, pathNodes[0], currentHash);
          currentHash, currentData := result.hash, result.value;
        } else {
          var result := DigestNode(th, currentHash, pathNodes[0]);
          currentHash, currentData := result.hash, result.value;
        }
        store.PreparePutNodes(currentHash, currentData);
        head := [PutNodes(currentHash, currentData)];
      } else if oldValueHash.Some? {
        if oldValueHash.value == valueField {
          UpdatePlanUnchanged(cfg, th, root, path, value, t, valueField);
          return Ok(root);
        }
        store.PrepareDelNodes(pathNodes[0]);
        store.PrepareDelValue(path);
        head := [DelNodes(pathNodes[0]), DelValue(path)];
      }
      UpdatePlanParts(cfg, th, root, path, value, t, valueField);
      ghost var start := if commonPrefixCount != cfg.depth then BranchNode(cfg, th, pathBits[commonPrefixCount], pathNodes[0], leaf.hash) else leaf;
      assert currentHash == start.hash;
      assert head == if commonPrefixCount != cfg.depth then [PutNodes(start.hash, start.value)]
        else if pathNodes[0] != cfg.placeholder then [DelNodes(pathNodes[0]), DelValue(path)] else [];
      ghost var s1 := old(store.staged) + [PutNodes(leaf.hash, leaf.value)] + head;
      assert store.staged == s1;
      StageDelNodes(pathNodes[1..]);
      ghost var climb := Climb(cfg, th, pathBits, sideNodes, commonPrefixCount, cfg.depth, currentHash);
      currentHash := ClimbToRoot(pathBits, sideNodes, commonPrefixCount, currentHash);
      store.PreparePutValue(path, value);
      assert store.staged == s1 + DelNodesAll(pathNodes[1..]) + climb.ops + [PutValue(path, value)];
      Associate(old(store.staged), [PutNodes(leaf.hash, leaf.value)], head, DelNodesAll(pathNodes[1..]), climb.ops, [PutValue(path, value)]);
      return Ok(Some(currentHash));
    }

    /** The field stored for `value` in its leaf: `digestValue`, or the value's single, non-reserved field. */
    method LeafValueField(value: FieldList) returns (r: Result<Field>)
      ensures r == ValueField(cfg, th, value)
    {
      if cfg.hashValue {
        return Ok(DigestValue(th, value));
      }
      var valueFields := value;
      if |valueFields| > 1 {
        return Err(ValueFieldsTooLong);
      }
      var valueField := valueFields[0];
      if valueField == cfg.cpPaddValue {
        return Err(ReservedPaddingValue);
      }
      return Ok(valueField);
    }

    /** Stage the deletion of each node of `nodes`, in order. */
    method StageDelNodes(nodes: seq<Field>)
      modifies store`staged
      ensures store.staged == old(store.staged) + DelNodesAll(nodes)
    {
      for i := 0 to |nodes|
        invariant store.staged == old(store.staged) + DelNodesAll(nodes[..i])
      {
        assert DelNodesAll(nodes[..i + 1]) == DelNodesAll(nodes[..i]) + [DelNodes(nodes[i])];
        store.PrepareDelNodes(nodes[i]);
        Concat3(old(store.staged), DelNodesAll(nodes[..i]), [DelNodes(nodes[i])]);
      }
      assert nodes[..|nodes|] == nodes;
    }

    /**
     * The second loop of `updateWithSideNodes`: from the deepest level up, hash `currentHash` with the level's
     * sibling and stage each new node; the side-node offset arithmetic picks the sibling `SiblingAt` describes.
     */
    method ClimbToRoot(pathBits: seq<bool>, sideNodes: seq<Field>, commonPrefixCount: nat, start: Field) returns (currentHash: Field)
      requires |pathBits| == cfg.depth && |sideNodes| <= cfg.depth
      modifies store`staged
      ensures var c := Climb(cfg, th, pathBits, sideNodes, commonPrefixCount, cfg.depth, start);
        currentHash == c.result && store.staged == old(store.staged) + c.ops
    {
      currentHash := start;
      ghost var climbed: seq<Op> := [];
      var offsetOfSideNodes: int := cfg.depth - |sideNodes|;
      for i := 0 to cfg.depth
        invariant store.staged == old(store.staged) + climbed
        invariant Climb(cfg, th, pathBits, sideNodes, commonPrefixCount, cfg.depth, start)
          == Then(climbed, Climb(cfg, th, pathBits, sideNodes, commonPrefixCount, cfg.depth - i, currentHash))
      {
        var sideNode;
        var offset := i - offsetOfSideNodes;
        ghost var level := cfg.depth - 1 - i;
        if offset < 0 || offset >= |sideNodes| {
          if commonPrefixCount != cfg.depth && commonPrefixCount > cfg.depth - 1 - i {
            sideNode := cfg.placeholder;
          } else {
            assert SiblingAt(cfg, sideNodes, commonPrefixCount, level).None?;
            continue;
          }
        } else {
          sideNode := sideNodes[offset];
        }
        assert SiblingAt(cfg, sideNodes, commonPrefixCount, level) == Some(sideNode);
        var currentData;
        if pathBits[cfg.depth - 1 - i] == cfg.right {
          var result := DigestNode(th, sideNode, currentHash);
          currentHash, currentData := result.hash, result.value;
        } else {
          var result := DigestNode(th, currentHash, sideNode);
          currentHash, currentData := result.hash, result.value;
        }
        store.PreparePutNodes(currentHash, currentData);
        Concat3(climbed, [PutNodes(currentHash, currentData)], Climb(cfg, th, pathBits, sideNodes, commonPrefixCount, level, currentHash).ops);
        Concat3(old(store.staged), climbed, [PutNodes(currentHash, currentData)]);
        climbed := climbed + [PutNodes(currentHash, currentData)];
      }
    }

    /**
     * `deleteWithSideNodes`: stage the removal of the leaf of `path` and the collapse of the tree above it, as
     * `DeletePlan` describes; a side node missing from the store fails with `NotFound`.
     */
    method DeleteWithSideNodes(path: Field, sideNodes: seq<Field>, pathNodes: seq<Field>, oldLeafData: Option<Encoding>)
      returns (r: Result<Field>)
      requires WellFormed(cfg, Traversal(sideNodes, pathNodes, oldLeafData, None))
      modifies store`staged
      ensures var plan := DeletePlan(store.nodes, cfg, th, path, Traversal(sideNodes, pathNodes, oldLeafData, None));
        r == plan.result && store.staged == old(store.staged) + plan.ops
    {
      if pathNodes[0] == cfg.placeholder {
        return Err(KeyAlreadyEmpty);
      }
      var actualPath := ParseLeaf(oldLeafData.value).path;
      if path != actualPath {
        return Err(KeyAlreadyEmpty);
      }
      var pathBits := ToBits(path, cfg.depth);
      StageDelNodes(pathNodes);
      r := CollapseToRoot(pathBits, sideNodes);
    }

    /**
     * The loop of `deleteWithSideNodes`: walk the side nodes from the leaf end, reading the store while
     * `currentData` is null, skipping `PLACEHOLDER`s until a real sibling is reached, and staging each new node.
     * A leaf sibling taken over as the current hash leaves `currentData` null, so the next side node is read from
     * the store too (the behaviour `CollapseDropsBubbledLeaf` exhibits).
     */
    method CollapseToRoot(pathBits: seq<bool>, sideNodes: seq<Field>) returns (r: Result<Field>)
      requires |sideNodes| <= |pathBits|
      modifies store`staged
      ensures var c := Collapse(store.nodes, cfg, th, pathBits, sideNodes, 0, cfg.placeholder, true, false);
        r == c.result && store.staged == old(store.staged) + c.ops
    {
      var currentHash := cfg.placeholder;
      var currentData: Option<Encoding> := None;
      var nonPlaceholderReached := false;
      ghost var collapsed: seq<Op> := [];
      for i := 0 to |sideNodes|
        invariant store.staged == old(store.staged) + collapsed
        invariant Collapse(store.nodes, cfg, th, pathBits, sideNodes, 0, cfg.placeholder, true, false)
          == Then(collapsed, Collapse(store.nodes, cfg, th, pathBits, sideNodes, i, currentHash, currentData.None?, nonPlaceholderReached))
      {
        if currentData.None? {
          var sideNodeValue := store.GetNodes(sideNodes[i]);
          if sideNodeValue.Err? {
            return Err(sideNodeValue.error);
          }
          if IsLeaf(sideNodeValue.value) {
            currentHash := sideNodes[i];
            continue;
          } else {
            currentHash := cfg.placeholder;
            nonPlaceholderReached := true;
          }
        }
        if !nonPlaceholderReached && sideNodes[i] == cfg.placeholder {
          continue;
        } else if !nonPlaceholderReached {
          nonPlaceholderReached := true;
        }
        if pathBits[|sideNodes| - 1 - i] == cfg.right {
          var result := DigestNode(th, sideNodes[i], currentHash);
          currentHash, currentData := result.hash, Some(result.value);
        } else {
          var result := DigestNode(th, currentHash, sideNodes[i]);
          currentHash, currentData := result.hash, Some(result.value);
        }
        store.PreparePutNodes(currentHash, currentData.value);
        ghost var rest := Collapse(store.nodes, cfg, th, pathBits, sideNodes, i + 1, currentHash, false, true);
        Concat3(collapsed, [PutNodes(currentHash, currentData.value)], rest.ops);
        Concat3(old(store.staged), collapsed, [PutNodes(currentHash, currentData.value)]);
        collapsed := collapsed + [PutNodes(currentHash, currentData.value)];
      }
      return Ok(currentHash);
    }

    /**
     * `updateForRoot`: one insert, update or delete against `root`, staging its writes; the result and the staged
     * operations are those of `CsmtSpec.UpdateForRoot` with the tree's own root as the committed root.
     */
    method UpdateForRoot(root: Option<Field>, key: FieldList, value: Option<FieldList>) returns (r: Result<Option<Field>>)
      modifies store`staged
      ensures var plan := CsmtSpec.UpdateForRoot(store.nodes, cfg, th, this.root, root, key, value);
        r == plan.result && store.staged == old(store.staged) + plan.ops
    {
      var path := GetKeyField(key);
      if path.Err? {
        return Err(path.error);
      }
      if root.None? {
        return Err(UndefinedRoot);
      }
      var t := SideNodesForRoot(path.value, root.value, false);
      if t.Err? {
        return Err(t.error);
      }
      if value.None? {
        ghost var staged := store.staged;
        var deleted := DeleteWithSideNodes(path.value, t.value.sideNodes, t.value.pathNodes, t.value.currentData);
        ghost var plan := DeletePlan(store.nodes, cfg, th, path.value, Traversal(t.value.sideNodes, t.value.pathNodes, t.value.currentData, None));
        var newRoot: Option<Field> := None;
        if deleted.Err? {
          if deleted.error == KeyAlreadyEmpty {
            return Ok(root);
          }
        } else {
          newRoot := Some(deleted.value);
        }
        store.PrepareDelValue(path.value);
        Concat3(staged, plan.ops, [DelValue(path.value)]);
        return Ok(newRoot);
      }
      r := UpdateWithSideNodes(path.value, value.value, t.value.sideNodes, t.value.pathNodes, t.value.currentData);
    }

    /**
     * `update`: apply one insert, update (a value) or delete (no value) to the current root and commit the staged
     * writes with the new root. On an error nothing is committed and the root is kept; `ioError` stands for a
     * failing commit, which likewise keeps everything committed as it was.
     */
    method Update(key: FieldList, value: Option<FieldList>, ioError: bool) returns (r: Result<Option<Field>>)
      modifies this, store
      ensures var plan := CsmtSpec.UpdateForRoot(old(store.nodes), cfg, th, old(root), old(root), key, value);
        && (plan.result.Err? ==> r == plan.result && root == old(root) && store.State() == old(store.State()) && store.staged == plan.ops)
        && (plan.result.Ok? && ioError ==>
              r == Err(CommitFailure) && root == old(root) && store.State() == old(store.State())
              && store.staged == plan.ops + [UpdateRoot(plan.result.value)])
        && (plan.result.Ok? && !ioError ==>
              r == plan.result && root == plan.result.value && store.staged == []
              && store.State() == ApplyAll(old(store.State()), plan.ops + [UpdateRoot(plan.result.value)]))
    {
      store.ClearPrepareOperationCache();
      var newRoot := UpdateForRoot(root, key, value);
      if newRoot.Err? {
        return newRoot;
      }
      store.PrepareUpdateRoot(newRoot.value);
      assert store.State() == old(store.State());
      assert store.staged == CsmtSpec.UpdateForRoot(old(store.nodes), cfg, th, old(root), old(root), key, value).ops + [UpdateRoot(newRoot.value)];
      var ok := store.Commit(ioError);
      if !ok {
        return Err(CommitFailure);
      }
      root := newRoot.value;
      return Ok(root);
    }

    /** `delete`: an update without a value. */
    method Delete(key: FieldList, ioError: bool) returns (r: Result<Option<Field>>)
      modifies this, store
      ensures var plan := CsmtSpec.UpdateForRoot(old(store.nodes), cfg, th, old(root), old(root), key, None);
        && (plan.result.Err? ==> r == plan.result && root == old(root) && store.State() == old(store.State()) && store.staged == plan.ops)
        && (plan.result.Ok? && ioError ==>
              r == Err(CommitFailure) && root == old(root) && store.State() == old(store.State())
              && store.staged == plan.ops + [UpdateRoot(plan.result.value)])
        && (plan.result.Ok? && !ioError ==>
              r == plan.result && root == plan.result.value && store.staged == []
              && store.State() == ApplyAll(old(store.State()), plan.ops + [UpdateRoot(plan.result.value)]))
    {
      r := Update(key, None, ioError);
    }

    /**
     * `updateAll`: apply the entries in order, each from the root the previous one returned, and commit all their
     * writes with the final root at once; the first error stops the batch and nothing is committed.
     */
    method UpdateAll(kvs: seq<KeyValue>, ioError: bool) returns (r: Result<Option<Field>>)
      modifies this, store
      ensures var plan := CsmtSpec.UpdateAll(old(store.nodes), cfg, th, old(root), old(root), kvs);
        && (plan.result.Err? ==> r == plan.result && root == old(root) && store.State() == old(store.State()) && store.staged == plan.ops)
        && (plan.result.Ok? && ioError ==>
              r == Err(CommitFailure) && root == old(root) && store.State() == old(store.State())
              && store.staged == plan.ops + [UpdateRoot(plan.result.value)])
        && (plan.result.Ok? && !ioError ==>
              r == plan.result && root == plan.result.value && store.staged == []
              && store.State() == ApplyAll(old(store.State()), plan.ops + [UpdateRoot(plan.result.value)]))
    {
      store.ClearPrepareOperationCache();
      var newRoot := UpdateEach(kvs, store.nodes, root);
      if newRoot.Err? {
        return newRoot;
      }
      store.PrepareUpdateRoot(newRoot.value);
      assert store.State() == old(store.State());
      assert store.staged == CsmtSpec.UpdateAll(old(store.nodes), cfg, th, old(root), old(root), kvs).ops + [UpdateRoot(newRoot.value)];
      var ok := store.Commit(ioError);
      if !ok {
        return Err(CommitFailure);
      }
      root := newRoot.value;
      return Ok(root);
    }

    /** The loop of `updateAll`: each entry from the root the previous one returned, staging every write. */
    method UpdateEach(kvs: seq<KeyValue>, ghost nodes: map<Field, Encoding>, ghost committedRoot: Option<Field>)
      returns (r: Result<Option<Field>>)
      requires nodes == store.nodes && committedRoot == root
      modifies store`staged
      ensures var plan := CsmtSpec.UpdateAll(nodes, cfg, th, committedRoot, committedRoot, kvs);
        r == plan.result && store.staged == old(store.staged) + plan.ops
    {
      ghost var whole := CsmtSpec.UpdateAll(nodes, cfg, th, committedRoot, committedRoot, kvs);
      ghost var done: seq<Op> := [];
      var newRoot := root;
      for i := 0 to |kvs|
        invariant store.staged == old(store.staged) + done
        invariant whole == Then(done, CsmtSpec.UpdateAll(nodes, cfg, th, committedRoot, newRoot, kvs[i..]))
      {
        UpdateEachStep(nodes, cfg, th, committedRoot, newRoot, kvs, i, done, whole);
        ghost var step := CsmtSpec.UpdateForRoot(nodes, cfg, th, committedRoot, newRoot, kvs[i].key, kvs[i].value);
        var u := UpdateForRoot(newRoot, kvs[i].key, kvs[i].value);
        Concat3(old(store.staged), done, step.ops);
        if u.Err? {
          return Err(u.error);
        }
        done := done + step.ops;
        newRoot := u.value;
      }
      assert kvs[|kvs|..] == [];
      assert CsmtSpec.UpdateAll(nodes, cfg, th, committedRoot, newRoot, []) == Staged(Ok(newRoot), []);
      assert done + [] == done;
      return Ok(newRoot);
    }
  }
}
