/**
 * The store the tree persists into, as the tree sees it: committed node and value maps and a root slot, reads of
 * the committed state, and a list of staged operations that `commit` applies in order, all or nothing.
 */
module Stores {
  import opened Fields
  import opened TreeHashing

  /** One staged operation. `UpdateRoot(None)` stages an `undefined` root. */
  datatype Op =
    | PutNodes(key: Field, nodes: Encoding)
    | DelNodes(key: Field)
    | PutValue(path: Field, value: FieldList)
    | DelValue(path: Field)
    | UpdateRoot(root: Option<Field>)

  /** The committed contents of a store. */
  datatype StoreState = StoreState(nodes: map<Field, Encoding>, values: map<Field, FieldList>, root: Option<Field>)

  function Apply(s: StoreState, op: Op): StoreState
  {
    match op
    case PutNodes(k, e) => s.(nodes := s.nodes[k := e])
    case DelNodes(k) => s.(nodes := s.nodes - {k})
    case PutValue(p, v) => s.(values := s.values[p := v])
    case DelValue(p) => s.(values := s.values - {p})
    case UpdateRoot(r) => s.(root := r)
  }

  /** The state after applying `ops` to `s` first to last. */
  function ApplyAll(s: StoreState, ops: seq<Op>): StoreState
    decreases |ops|
  {
    if ops == [] then s else ApplyAll(Apply(s, ops[0]), ops[1..])
  }

  /** Committing two batches one after the other is committing their concatenation. */
  lemma {:induction false} ApplyAllAppend(s: StoreState, a: seq<Op>, b: seq<Op>)
    ensures ApplyAll(s, a + b) == ApplyAll(ApplyAll(s, a), b)
    decreases |a|
  {
    if a == [] {
      assert a + b == b;
    } else {
      assert (a + b)[0] == a[0];
      assert (a + b)[1..] == a[1..] + b;
      ApplyAllAppend(Apply(s, a[0]), a[1..], b);
    }
  }

  /** Concatenation of staged operations is associative. */
  lemma Concat3(a: seq<Op>, b: seq<Op>, c: seq<Op>)
    ensures (a + b) + c == a + (b + c)
  {
  }

  /** The node entry under `k` after `ops`, read from the last operation on `k`: the last write wins. */
  function NodeAfter(s: StoreState, ops: seq<Op>, k: Field): Option<Encoding>
    decreases |ops|
  {
    if ops == [] then (if k in s.nodes then Some(s.nodes[k]) else None)
    else match ops[|ops| - 1]
      case PutNodes(k', e) => if k' == k then Some(e) else NodeAfter(s, ops[..|ops| - 1], k)
      case DelNodes(k') => if k' == k then None else NodeAfter(s, ops[..|ops| - 1], k)
      case _ => NodeAfter(s, ops[..|ops| - 1], k)
  }

  /** The value entry under `p` after `ops`, read from the last operation on `p`. */
  function ValueAfter(s: StoreState, ops: seq<Op>, p: Field): Option<FieldList>
    decreases |ops|
  {
    if ops == [] then (if p in s.values then Some(s.values[p]) else None)
    else match ops[|ops| - 1]
      case PutValue(p', v) => if p' == p then Some(v) else ValueAfter(s, ops[..|ops| - 1], p)
      case DelValue(p') => if p' == p then None else ValueAfter(s, ops[..|ops| - 1], p)
      case _ => ValueAfter(s, ops[..|ops| - 1], p)
  }

  /** Applying staged operations in order leaves each node and value key as its last staged operation says. */
  lemma {:induction false} CommitLastWriteWins(s: StoreState, ops: seq<Op>, k: Field)
    ensures var t := ApplyAll(s, ops);
      (if k in t.nodes then Some(t.nodes[k]) else None) == NodeAfter(s, ops, k)
      && (if k in t.values then Some(t.values[k]) else None) == ValueAfter(s, ops, k)
    decreases |ops|
  {
    if ops != [] {
      var init, last := ops[..|ops| - 1], ops[|ops| - 1];
      assert ops == init + [last];
      ApplyAllAppend(s, init, [last]);
      CommitLastWriteWins(s, init, k);
    }
  }

  /** A staged put followed, after any other staged operations, by a staged delete of the same key leaves it absent. */
  lemma PutThenDelete(s: StoreState, k: Field, e: Encoding, p: Field, v: FieldList, rest: seq<Op>)
    ensures var ops := [PutNodes(k, e), PutValue(p, v)] + rest + [DelNodes(k), DelValue(p)];
      k !in ApplyAll(s, ops).nodes && p !in ApplyAll(s, ops).values
  {
    var ops := [PutNodes(k, e), PutValue(p, v)] + rest + [DelNodes(k), DelValue(p)];
    CommitLastWriteWins(s, ops, k);
    CommitLastWriteWins(s, ops, p);
    assert ops[..|ops| - 1] == [PutNodes(k, e), PutValue(p, v)] + rest + [DelNodes(k)];
  }

  class Store {
    var nodes: map<Field, Encoding>
    var values: map<Field, FieldList>
    var root: Option<Field>
    var staged: seq<Op>

    function State(): StoreState
      reads this`nodes, this`values, this`root
    {
      StoreState(nodes, values, root)
    }

    constructor ()
      ensures nodes == map[] && values == map[] && root == None && staged == []
    {
      nodes, values, root, staged := map[], map[], None, [];
    }

    /** `getNodes`: the committed encoding under `key`, or `NotFound`. */
    method GetNodes(key: Field) returns (r: Result<Encoding>)
      ensures r.Ok? <==> key in nodes
      ensures r.Ok? ==> r.value == nodes[key]
      ensures r.Err? ==> r.error == NotFound
    {
      if key in nodes {
        r := Ok(nodes[key]);
      } else {
        r := Err(NotFound);
      }
    }

    /** `getValue`: the committed value under `path`, or `NotFound`. */
    method GetValue(path: Field) returns (r: Result<FieldList>)
      ensures r.Ok? <==> path in values
      ensures r.Ok? ==> r.value == values[path]
      ensures r.Err? ==> r.error == NotFound
    {
      if path in values {
        r := Ok(values[path]);
      } else {
        r := Err(NotFound);
      }
    }

    /** `getRoot`: the committed root, `None` when there is none. */
    method GetRoot() returns (r: Option<Field>)
      ensures r == root
    {
      r := root;
    }

    method PreparePutNodes(key: Field, e: Encoding)
      modifies this`staged
      ensures staged == old(staged) + [PutNodes(key, e)]
    {
      staged := staged + [PutNodes(key, e)];
    }

    method PrepareDelNodes(key: Field)
      modifies this`staged
      ensures staged == old(staged) + [DelNodes(key)]
    {
      staged := staged + [DelNodes(key)];
    }

    method PreparePutValue(path: Field, value: FieldList)
      modifies this`staged
      ensures staged == old(staged) + [PutValue(path, value)]
    {
      staged := staged + [PutValue(path, value)];
    }

    method PrepareDelValue(path: Field)
      modifies this`staged
      ensures staged == old(staged) + [DelValue(path)]
    {
      staged := staged + [DelValue(path)];
    }

    method PrepareUpdateRoot(r: Option<Field>)
      modifies this`staged
      ensures staged == old(staged) + [UpdateRoot(r)]
    {
      staged := staged + [UpdateRoot(r)];
    }

    /** `clearPrepareOperationCache`: discard every staged operation. */
    method ClearPrepareOperationCache()
      modifies this`staged
      ensures staged == []
    {
      staged := [];
    }

    /**
     * `commit`: apply the staged operations in order and empty the stage; `ioError` stands for a failure of the
     * underlying storage, after which nothing has changed.
     */
    method Commit(ioError: bool) returns (ok: bool)
      modifies this
      ensures ok == !ioError
      ensures ok ==> State() == ApplyAll(old(State()), old(staged)) && staged == []
      ensures !ok ==> State() == old(State()) && staged == old(staged)
    {
      if ioError {
        return false;
      }
      var s := ApplyAll(State(), staged);
      nodes, values, root, staged := s.nodes, s.values, s.root, [];
      return true;
    }

    /** `clear`: erase all persisted state. */
    method Clear()
      modifies this
      ensures nodes == map[] && values == map[] && root == None && staged == old(staged)
    {
      nodes, values, root := map[], map[], None;
    }
  }
}
