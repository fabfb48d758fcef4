/**
 * The immutable bit string of src/utils/binary-string.js.  A `BinaryString`
 * wraps its bit array `data`; every operation builds a new value, so no
 * operation can change an existing one.
 */
module BinaryStrings {
  import opened Wrappers

  type Bit = b: int | 0 <= b <= 1

  function Pow2(n: nat): (r: nat)
    ensures r >= 1
  {
    if n == 0 then 1 else 2 * Pow2(n - 1)
  }

  /** The number that `d` denotes when read most-significant bit first. */
  function Value(d: seq<Bit>): nat
  {
    if |d| == 0 then 0 else 2 * Value(d[..|d| - 1]) + d[|d| - 1]
  }

  /** The digits of `x.toString(2)`: minimal, most-significant bit first. */
  function Digits(x: nat): (d: seq<Bit>)
    ensures |d| >= 1
    ensures x == 0 ==> d == [0]
    ensures x >= 1 ==> d[0] == 1 && |d| <= x
    ensures x >= 2 ==> |d| >= 2
  {
    if x < 2 then [x] else Digits(x / 2) + [x % 2]
  }

  /** A string made only of the characters '0' and '1'. */
  predicate IsBitText(s: string)
  {
    forall i :: 0 <= i < |s| ==> s[i] == '0' || s[i] == '1'
  }

  /** JS `Array.prototype.slice` bound: negative counts from the end, then clamp to [0, len]. */
  function RelativeIndex(k: int, len: nat): (r: nat)
    ensures r <= len
    ensures 0 <= k <= len ==> r == k
    ensures k > len ==> r == len
  {
    if k < 0 then (if len + k < 0 then 0 else len + k)
    else if k > len then len
    else k
  }

  datatype BinaryString = BinaryString(data: seq<Bit>)
  {
    /** `at(i)`: the bit at `i`, or `undefined` (None) outside the string. */
    function At(i: int): (r: Option<Bit>)
      ensures r.Some? <==> 0 <= i < |data|
      ensures r.Some? ==> r.value == data[i]
    {
      if 0 <= i < |data| then Some(data[i]) else None
    }

    /** `concat(other)`: this string's bits, then the other's. */
    function Concat(other: BinaryString): (r: BinaryString)
      ensures r.Length() == Length() + other.Length()
    {
      BinaryString(data + other.data)
    }

    function Prepend(bit: Bit): (r: BinaryString)
    {
      BinaryString([bit] + data)
    }

    function Append(bit: Bit): (r: BinaryString)
    {
      BinaryString(data + [bit])
    }

    /**
     * `slice(a, b)` with the bound clamping of `Array.prototype.slice`: as
     * many bits as lie between the clamped bounds, none when they cross.
     */
    function Slice(a: int, b: int): (r: BinaryString)
      ensures var lo, hi := RelativeIndex(a, Length()), RelativeIndex(b, Length());
        r.Length() == if hi <= lo then 0 else hi - lo
    {
      var lo := RelativeIndex(a, |data|);
      var hi := RelativeIndex(b, |data|);
      if hi <= lo then BinaryString([]) else BinaryString(data[lo..hi])
    }

    /** `slice(a)`: the end bound is omitted, so the slice runs to the end. */
    function SliceFrom(a: int): (r: BinaryString)
    {
      Slice(a, |data|)
    }

    /**
     * `split(i)`: two pieces whose concatenation is the string, for every
     * i, negative and out of range included; within bounds the first
     * piece is the first i bits.
     */
    function Split(i: int): (r: (BinaryString, BinaryString))
      ensures r.0.data + r.1.data == data
      ensures 0 <= i <= Length() ==> r.0.data == data[..i] && r.1.data == data[i..]
    {
      var lo := RelativeIndex(i, |data|);
      assert Slice(0, i).data == data[..lo] && SliceFrom(i).data == data[lo..];
      assert data[..lo] + data[lo..] == data;
      (Slice(0, i), SliceFrom(i))
    }

    function Length(): nat
    {
      |data|
    }

    /** `toString()`: the bits joined as '0'/'1' characters. */
    function ToString(): (s: string)
      ensures |s| == Length() && IsBitText(s)
      ensures forall i :: 0 <= i < |s| ==> (s[i] == '1' <==> data[i] == 1)
    {
      seq(|data|, i requires 0 <= i < |data| => if data[i] == 1 then '1' else '0')
    }

    /** `toInteger()`: `parseInt(toString(), 2)`. */
    function ToInteger(): nat
    {
      Value(data)
    }
  }

  function FromArray(d: seq<Bit>): BinaryString
  {
    BinaryString(d)
  }

  /** `fromInteger(x)`: `x.toString(2)` split into bits. */
  function FromInteger(x: nat): (r: BinaryString)
    ensures r.Length() == |Digits(x)|
    ensures x == 0 ==> r.data == [0]
    ensures x >= 1 ==> r.data[0] == 1
  {
    FromArray(Digits(x))
  }

  /** `fromString(x)`: each character converted with unary `+`. */
  function FromString(s: string): (r: BinaryString)
    requires IsBitText(s)
    ensures r.Length() == |s|
    ensures forall i :: 0 <= i < |s| ==> (r.data[i] == 1 <==> s[i] == '1')
  {
    FromArray(seq(|s|, i requires 0 <= i < |s| => if s[i] == '1' then 1 else 0))
  }

  /** `withLength(n)`: n zero bits. */
  function WithLength(n: nat): (r: BinaryString)
    ensures r.Length() == n
    ensures forall i :: 0 <= i < n ==> r.data[i] == 0
  {
    FromArray(seq(n, _ => 0))
  }

  // ---------------------------------------------------------------------
  // Lemmas about the integer value of a bit string

  lemma {:induction false} ValueBounds(d: seq<Bit>)
    ensures Value(d) < Pow2(|d|)
    ensures |d| >= 1 && d[0] == 1 ==> Value(d) >= Pow2(|d| - 1)
  {
    if |d| > 1 {
      var init := d[..|d| - 1];
      assert init[0] == d[0];
      ValueBounds(init);
    }
  }

  lemma {:induction false} ValueOfZeros(d: seq<Bit>)
    requires forall i :: 0 <= i < |d| ==> d[i] == 0
    ensures Value(d) == 0
  {
    if |d| > 0 {
      ValueOfZeros(d[..|d| - 1]);
    }
  }

  lemma Double(x: int, y: int)
    ensures x * (2 * y) == 2 * (x * y)
  {
  }

  /** Reading a concatenation: the left part is shifted by the right part's length. */
  lemma {:induction false} ValueConcat(a: seq<Bit>, b: seq<Bit>)
    ensures Value(a + b) == Value(a) * Pow2(|b|) + Value(b)
  {
    if |b| == 0 {
      assert a + b == a;
    } else {
      var b', last := b[..|b| - 1], b[|b| - 1];
      assert (a + b)[..|a + b| - 1] == a + b' && (a + b)[|a + b| - 1] == last;
      ValueConcat(a, b');
      var va, p := Value(a), Pow2(|b'|);
      assert Value(a + b) == 2 * Value(a + b') + last;
      assert Value(b) == 2 * Value(b') + last;
      assert Pow2(|b|) == 2 * p;
      Double(va, p);
    }
  }

  /** `x.toString(2)` read back in base 2 is x. */
  lemma {:induction false} DigitsValue(x: nat)
    ensures Value(Digits(x)) == x
  {
    if x >= 2 {
      DigitsValue(x / 2);
      var d := Digits(x / 2) + [x % 2];
      assert d[..|d| - 1] == Digits(x / 2);
    }
  }

  /** `toInteger()` of n bits lies below 2^n, and of a one-led string at or above 2^(n-1). */
  lemma ToIntegerBounds(s: BinaryString)
    ensures s.ToInteger() < Pow2(s.Length())
    ensures s.Length() >= 1 && s.data[0] == 1 ==> s.ToInteger() >= Pow2(s.Length() - 1)
  {
    ValueBounds(s.data);
  }

  /** `withLength(n).toInteger()` is 0. */
  lemma WithLengthValue(n: nat)
    ensures WithLength(n).ToInteger() == 0
  {
    ValueOfZeros(WithLength(n).data);
  }

  /**
   * Adding a bit at the end doubles the value and adds the bit; adding one
   * in front adds it at the weight of the new top position; concatenating
   * adds the lengths.
   */
  lemma EndsSpec(s: BinaryString, t: BinaryString, b: Bit)
    ensures s.Append(b).Length() == s.Length() + 1 && s.Append(b).ToInteger() == 2 * s.ToInteger() + b
    ensures s.Prepend(b).Length() == s.Length() + 1
    ensures s.Prepend(b).ToInteger() == b * Pow2(s.Length()) + s.ToInteger()
    ensures s.Concat(t).Length() == s.Length() + t.Length()
  {
    assert (s.data + [b])[..|s.data|] == s.data;
    ValueConcat([b], s.data);
    assert [b][..0] == [];
  }

  /**
   * A slice never outgrows the string; with non-negative bounds it is the
   * bits between the bounds, each cut down to the length; the full slice is
   * the string, and a negative start counts from the end.
   */
  lemma SliceSpec(s: BinaryString, a: int, b: int, k: nat)
    ensures s.Slice(a, b).Length() <= s.Length()
    ensures 0 <= a <= b ==>
      var n := s.Length();
      s.Slice(a, b).data == s.data[(if a < n then a else n)..(if b < n then b else n)]
    ensures s.Slice(0, s.Length()) == s
    ensures 0 < k <= s.Length() ==> s.SliceFrom(-(k as int)).data == s.data[s.Length() - k..]
  {
    assert s.data[0..|s.data|] == s.data;
  }

  /** Leading zero bits do not change the value. */
  lemma LeadingZeros(z: seq<Bit>, d: seq<Bit>)
    requires forall i :: 0 <= i < |z| ==> z[i] == 0
    ensures Value(z + d) == Value(d)
  {
    ValueConcat(z, d);
    ValueOfZeros(z);
  }

  /** A one-led bit string is the minimal binary form of its own value. */
  lemma {:induction false} DigitsOfValue(d: seq<Bit>)
    requires |d| >= 1 && d[0] == 1
    ensures Digits(Value(d)) == d
  {
    if |d| > 1 {
      var init := d[..|d| - 1];
      assert init[0] == 1;
      ValueBounds(init);
      DigitsOfValue(init);
      assert d == init + [d[|d| - 1]];
    }
  }

  // ---------------------------------------------------------------------
  // Properties of the operations

  /** `toInteger(fromInteger(x)) == x`, and `fromInteger` inverts `toInteger` on one-led strings. */
  lemma IntegerRoundTrip(x: nat, s: BinaryString)
    ensures FromInteger(x).ToInteger() == x
    ensures s.Length() >= 1 && s.data[0] == 1 ==> FromInteger(s.ToInteger()) == s
  {
    DigitsValue(x);
    if s.Length() >= 1 && s.data[0] == 1 {
      DigitsOfValue(s.data);
    }
  }

  /** `fromString` and `toString` are mutually inverse. */
  lemma TextRoundTrip(s: BinaryString, t: string)
    ensures FromString(s.ToString()) == s
    ensures IsBitText(t) ==> FromString(t).ToString() == t
  {
    assert FromString(s.ToString()).data == s.data;
  }
}
