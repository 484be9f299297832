/** Field elements, result types and the bit view of a field element shared by the whole model. */
module Fields {

  /** A field element, as the non-negative integer it stands for. */
  type Field = nat

  /** The field representation (`toFields`) of a key or a value; every key and value type has at least one field. */
  type FieldList = s: seq<Field> | |s| >= 1 witness [0]

  datatype Option<T> = None | Some(value: T)

  /** The failures the tree, its store and the helpers report. */
  datatype Error =
    | NotFound              // the store has no entry under the requested key
    | KeyAlreadyEmpty       // a delete found no leaf for the key
    | KeyDoesNotExist       // `get` on an empty tree
    | KeyFieldsTooLong      // an unhashed key with more than one field
    | ValueFieldsTooLong    // an unhashed value with more than one field
    | ReservedPaddingValue  // an unhashed value equal to the padding constant
    | UndefinedRoot         // an operation on a root that is `undefined`
    | CommitFailure         // the store could not persist the staged operations
    | RootNotInStore        // `import` on a store without a root
    | InvalidNumberString   // a string that is not a number literal

  datatype Result<T> = Ok(value: T) | Err(error: Error)

  function Pow2(n: nat): (p: nat)
    ensures p >= 1
  {
    if n == 0 then 1 else 2 * Pow2(n - 1)
  }

  /** The lowest `n` bits of `f`, least significant bit first (the order of `Field.toBits(n)`). */
  function ToBits(f: nat, n: nat): (r: seq<bool>)
    ensures |r| == n
  {
    if n == 0 then [] else [f % 2 == 1] + ToBits(f / 2, n - 1)
  }

  /** Two values that fit in `n` bits have the same `n`-bit expansion only if they are equal. */
  lemma {:induction false} ToBitsInjective(f: nat, g: nat, n: nat)
    requires f < Pow2(n) && g < Pow2(n)
    requires ToBits(f, n) == ToBits(g, n)
    ensures f == g
  {
    if n > 0 {
      assert ToBits(f, n)[0] == ToBits(g, n)[0];
      assert ToBits(f, n)[1..] == ToBits(f / 2, n - 1);
      assert ToBits(g, n)[1..] == ToBits(g / 2, n - 1);
      ToBitsInjective(f / 2, g / 2, n - 1);
    }
  }

  /** The elements of `s` in the opposite order (`Array.prototype.reverse`). */
  function Reverse<T>(s: seq<T>): (r: seq<T>)
    ensures |r| == |s|
    ensures forall i :: 0 <= i < |s| ==> r[i] == s[|s| - 1 - i]
  {
    if s == [] then [] else Reverse(s[1..]) + [s[0]]
  }
}
