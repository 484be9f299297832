/** The bit and string helpers of the library: common prefix and set-bit counts, hex conversion of field elements. */
module Utils {
  import opened Fields

  // ---------------------------------------------------------------------------
  // Common prefix of two bit strings
  // ---------------------------------------------------------------------------

  /** The length of the longest common prefix of `a` and `b`, read up to the length of `a`. */
  function CommonPrefix(a: seq<bool>, b: seq<bool>): (n: nat)
    requires |a| <= |b|
    ensures n <= |a|
    ensures forall i :: 0 <= i < n ==> a[i] == b[i]
    ensures n < |a| ==> a[n] != b[n]
  {
    if |a| == 0 || a[0] != b[0] then 0 else 1 + CommonPrefix(a[1..], b[1..])
  }

  /** A count that agrees on a prefix and stops at the first divergence is the common prefix. */
  lemma {:induction false} CommonPrefixUnique(a: seq<bool>, b: seq<bool>, n: nat)
    requires |a| <= |b|
    requires n <= |a|
    requires forall i :: 0 <= i < n ==> a[i] == b[i]
    requires n < |a| ==> a[n] != b[n]
    ensures n == CommonPrefix(a, b)
  {
    if n > 0 {
      assert a[0] == b[0];
      CommonPrefixUnique(a[1..], b[1..], n - 1);
    }
  }

  /** A bit string shares all of itself with itself. */
  lemma CommonPrefixSelf(a: seq<bool>)
    ensures CommonPrefix(a, a) == |a|
  {
  }

  /** `countCommonPrefix`: count leading positions where the two bit strings agree, stopping at the first difference. */
  method CountCommonPrefix(data1bits: seq<bool>, data2bits: seq<bool>) returns (count: nat)
    requires |data1bits| <= |data2bits|
    ensures count <= |data1bits|
    ensures forall i :: 0 <= i < count ==> data1bits[i] == data2bits[i]
    ensures count < |data1bits| ==> data1bits[count] != data2bits[count]
    ensures count == CommonPrefix(data1bits, data2bits)
  {
    count := 0;
    var len := |data1bits|;
    for i := 0 to len
      invariant count == i
      invariant forall j :: 0 <= j < i ==> data1bits[j] == data2bits[j]
    {
      if data1bits[i] == data2bits[i] {
        count := count + 1;
      } else {
        break;
      }
    }
    CommonPrefixUnique(data1bits, data2bits, count);
  }

  // ---------------------------------------------------------------------------
  // Set bits
  // ---------------------------------------------------------------------------

  /** `countSetBits`: the number of `true` entries of `data`. */
  method CountSetBits(data: seq<bool>) returns (count: nat)
    ensures count == multiset(data)[true]
    ensures count <= |data|
  {
    count := 0;
    var len := |data|;
    for i := 0 to len
      invariant count == multiset(data[..i])[true]
      invariant count <= i
    {
      assert data[..i + 1] == data[..i] + [data[i]];
      if data[i] {
        count := count + 1;
      }
    }
    assert data[..len] == data;
  }

  // ---------------------------------------------------------------------------
  // Hexadecimal strings
  // ---------------------------------------------------------------------------

  const HexDigits: string := "0123456789abcdef"

  /** `n.toString(16)`: lower-case base-16 digits, most significant first, without leading zeros. */
  function ToHex(n: nat): (s: string)
    ensures |s| >= 1
    decreases n
  {
    if n < 16 then [HexDigits[n]] else ToHex(n / 16) + [HexDigits[n % 16]]
  }

  /** `fieldToHexString`: the prefix `0x` followed by the base-16 digits of the element's value. */
  function FieldToHexString(f: Field): (s: string)
    ensures |s| >= 3 && s[..2] == "0x" && s[2..] == ToHex(f)
  {
    "0x" + ToHex(f)
  }

  /** The value of one digit character in base 10 or 16 (either letter case), if it is one. */
  function DigitValue(c: char, base: nat): (r: Option<nat>)
    requires base == 10 || base == 16
    ensures r.Some? ==> r.value < base
  {
    if '0' <= c <= '9' then Some(c as nat - '0' as nat)
    else if base == 16 && 'a' <= c <= 'f' then Some(c as nat - 'a' as nat + 10)
    else if base == 16 && 'A' <= c <= 'F' then Some(c as nat - 'A' as nat + 10)
    else None
  }

  /** The value of a non-empty string of digits in `base`, most significant first. */
  function DigitsValue(s: string, base: nat): Option<nat>
    requires base == 10 || base == 16
  {
    if |s| == 0 then None
    else match DigitValue(s[|s| - 1], base)
      case None => None
      case Some(d) =>
        if |s| == 1 then Some(d)
        else match DigitsValue(s[..|s| - 1], base)
          case None => None
          case Some(v) => Some(v * base + d)
  }

  /**
   * `hexStringToField`: `Field(BigInt(s))`. A `0x`/`0X` prefix introduces hexadecimal digits, otherwise the
   * digits are decimal and the empty string reads as 0; the number is reduced modulo the field's `modulus`.
   */
  function HexStringToField(s: string, modulus: nat): (r: Result<Field>)
    requires modulus > 0
    ensures r.Ok? ==> r.value < modulus
    ensures r.Err? ==> r.error == InvalidNumberString
  {
    if |s| >= 2 && s[0] == '0' && (s[1] == 'x' || s[1] == 'X') then
      match DigitsValue(s[2..], 16)
      case None => Err(InvalidNumberString)
      case Some(v) => Ok(v % modulus)
    else if s == "" then Ok(0)
    else
      match DigitsValue(s, 10)
      case None => Err(InvalidNumberString)
      case Some(v) => Ok(v % modulus)
  }

  lemma HexDigitValue(d: nat)
    requires d < 16
    ensures DigitValue(HexDigits[d], 16) == Some(d)
  {
    if d < 10 {
      assert HexDigits[d] as nat == '0' as nat + d;
    } else {
      assert HexDigits[d] as nat == 'a' as nat + (d - 10);
    }
  }

  /** Reading back the digits `ToHex` writes gives the number. */
  lemma {:induction false} ToHexValue(n: nat)
    ensures DigitsValue(ToHex(n), 16) == Some(n)
    decreases n
  {
    if n < 16 {
      HexDigitValue(n);
    } else {
      var q, d := n / 16, n % 16;
      ToHexValue(q);
      HexDigitValue(d);
      DigitsSnoc(ToHex(q), HexDigits[d], q, d);
      assert ToHex(n) == ToHex(q) + [HexDigits[d]];
    }
  }

  /** Appending one hex digit to a digit string multiplies its value by 16 and adds the digit. */
  lemma DigitsSnoc(p: string, c: char, v: nat, d: nat)
    requires |p| >= 1 && DigitsValue(p, 16) == Some(v) && DigitValue(c, 16) == Some(d)
    ensures DigitsValue(p + [c], 16) == Some(v * 16 + d)
  {
    var s := p + [c];
    assert s[..|s| - 1] == p && s[|s| - 1] == c && |s| > 1;
    var w := v * 16 + d;
    assert DigitsValue(s, 16) == Some(w);
  }

  /** `ToHex` writes only lower-case hex digits, and a leading `0` only for the number 0. */
  lemma {:induction false} ToHexCanonical(n: nat)
    ensures forall i :: 0 <= i < |ToHex(n)| ==> ToHex(n)[i] in HexDigits
    ensures ToHex(n)[0] == '0' ==> n == 0
    decreases n
  {
    if n >= 16 {
      ToHexCanonical(n / 16);
      assert ToHex(n)[0] == ToHex(n / 16)[0];
    } else {
      assert HexDigits[n] == '0' ==> n == 0;
    }
  }

  /** `hexStringToField(fieldToHexString(f)) == f` for every element below the modulus. */
  lemma HexStringRoundTrip(f: Field, modulus: nat)
    requires f < modulus
    ensures HexStringToField(FieldToHexString(f), modulus) == Ok(f)
  {
    var s := FieldToHexString(f);
    assert s[0] == '0' && s[1] == 'x';
    assert s[2..] == ToHex(f);
    ToHexValue(f);
    HexPrefixed(s, modulus, f);
    ModSmall(f, modulus);
  }

  lemma HexPrefixed(s: string, modulus: nat, v: nat)
    requires modulus > 0
    requires |s| >= 2 && s[0] == '0' && s[1] == 'x'
    requires DigitsValue(s[2..], 16) == Some(v)
    ensures HexStringToField(s, modulus) == Ok(v % modulus)
  {
  }

  lemma ModSmall(f: nat, m: nat)
    requires f < m
    ensures f % m == f
  {
  }
}
