/**
 * The integer prefix codes of src/integer-codes/integer-codes.js: unary and
 * Elias gamma, delta and omega, over `BinaryString`.  A decoder reads one
 * codeword from the front of its input and returns the integer and the
 * consumed prefix (`{integer, code}`), or `null` (None).
 */
module IntegerCodes {
  import opened Wrappers
  import opened BinaryStrings

  /** The `{integer, code}` record a decoder returns. */
  datatype Decoded = Decoded(integer: nat, code: BinaryString)

  /** `d` starts with `p`. */
  predicate IsPrefix(p: seq<Bit>, d: seq<Bit>)
  {
    |p| <= |d| && d[..|p|] == p
  }

  lemma ConcatAssoc<T>(a: seq<T>, b: seq<T>, c: seq<T>)
    ensures (a + b) + c == a + (b + c)
  {
  }

  /** A sequence is its first element followed by the rest. */
  lemma HeadTail<T>(s: seq<T>)
    requires |s| >= 1
    ensures [s[0]] + s[1..] == s
  {
  }

  /** The pieces of `a + b + rest`, cut back out. */
  lemma ConcatPieces<T>(a: seq<T>, b: seq<T>, rest: seq<T>)
    ensures (a + b + rest)[|a|..|a| + |b|] == b
    ensures (a + b + rest)[..|a| + |b|] == a + b
    ensures a + b + rest == a + (b + rest)
  {
  }

  /** The first index at or after `from` holding a 1, if any. */
  function FirstOne(d: seq<Bit>, from: nat): (r: Option<nat>)
    decreases |d| - from
    ensures r.Some? ==> from <= r.value < |d| && d[r.value] == 1
    ensures r.Some? ==> forall j :: from <= j < r.value ==> d[j] == 0
    ensures r.None? ==> forall j :: from <= j < |d| ==> d[j] == 0
  {
    if from >= |d| then None
    else if d[from] == 1 then Some(from)
    else FirstOne(d, from + 1)
  }

  /** A 1 preceded only by zeros is the first 1. */
  lemma {:induction false} FirstOneFrom(d: seq<Bit>, from: nat, i: nat)
    requires from <= i < |d| && d[i] == 1
    requires forall j :: from <= j < i ==> d[j] == 0
    ensures FirstOne(d, from) == Some(i)
    decreases i - from
  {
    if from < i {
      FirstOneFrom(d, from + 1, i);
    }
  }

  /** Zeros, then a one-led block, then anything: the first 1 opens the block. */
  lemma ZerosThenBlock(z: seq<Bit>, b: seq<Bit>, rest: seq<Bit>)
    requires forall j :: 0 <= j < |z| ==> z[j] == 0
    requires |b| >= 1 && b[0] == 1
    ensures FirstOne(z + b + rest, 0) == Some(|z|)
    ensures (z + b + rest)[|z|..|z| + |b|] == b
    ensures (z + b + rest)[..|z| + |b|] == z + b
  {
    var d := z + b + rest;
    assert d[|z|] == 1;
    assert forall j :: 0 <= j < |z| ==> d[j] == 0;
    FirstOneFrom(d, 0, |z|);
    ConcatPieces(z, b, rest);
  }

  // ---------------------------------------------------------------------
  // Unary: x zeros then a 1

  /** `unaryEncode(x)`: x zeros, then a 1. */
  function UnaryEncode(x: nat): (r: BinaryString)
    ensures r.Length() == x + 1 && r.data[x] == 1
    ensures forall j | 0 <= j < x :: r.data[j] == 0
  {
    WithLength(x).Append(1)
  }

  /** What `unaryDecode` returns: the index of the first 1 and the prefix up to it. */
  function UnaryParse(s: BinaryString): Option<Decoded>
  {
    match FirstOne(s.data, 0)
    case None => None
    case Some(i) => Some(Decoded(i, s.Slice(0, i + 1)))
  }

  /**
   * `unaryDecode` fails exactly on input without a 1; otherwise the integer
   * is the number of zeros before the first 1 and the code runs up to that 1.
   */
  lemma UnaryParseSpec(s: BinaryString)
    ensures UnaryParse(s).None? <==> forall j :: 0 <= j < s.Length() ==> s.data[j] == 0
    ensures UnaryParse(s).Some? ==>
      var i := UnaryParse(s).value.integer;
      && i < s.Length() && s.data[i] == 1
      && (forall j :: 0 <= j < i ==> s.data[j] == 0)
      && UnaryParse(s).value.code.data == s.data[..i + 1]
  {
  }

  method UnaryDecode(x: BinaryString) returns (r: Option<Decoded>)
    ensures r == UnaryParse(x)
  {
    var i := 0;
    while i < x.Length()
      invariant 0 <= i <= x.Length()
      invariant FirstOne(x.data, i) == FirstOne(x.data, 0)
    {
      if x.At(i) == Some(1) {
        return Some(Decoded(i, x.Slice(0, i + 1)));
      }
      i := i + 1;
    }
    return None;
  }

  lemma UnaryReadsBack(x: nat, rest: seq<Bit>)
    ensures UnaryParse(BinaryString(UnaryEncode(x).data + rest)) == Some(Decoded(x, UnaryEncode(x)))
  {
    var z := WithLength(x).data;
    assert UnaryEncode(x).data == z + [1];
    ZerosThenBlock(z, [1], rest);
  }

  // ---------------------------------------------------------------------
  // Elias gamma: bitlen(x) - 1 zeros, then x in binary

  /**
   * `eliasGammaEncode(x)`: 2 bitlen(x) - 1 bits whose value is x, the
   * bitlen(x) - 1 zeros ahead of x in binary changing nothing.
   */
  function EliasGammaEncode(x: nat): (r: BinaryString)
    ensures r.Length() == 2 * |Digits(x)| - 1 && r.ToInteger() == x
  {
    var b := FromInteger(x);
    LeadingZeros(WithLength(b.Length() - 1).data, b.data);
    DigitsValue(x);
    WithLength(b.Length() - 1).Concat(b)
  }

  /** The gamma code is bitlen(x) - 1 zeros followed by x in binary. */
  lemma EliasGammaEncodeLayout(x: nat)
    ensures EliasGammaEncode(x).data == WithLength(|Digits(x)| - 1).data + Digits(x)
  {
  }

  /** The gamma code of x >= 1 is 2 bitlen(x) - 1 bits, with its first 1 at bitlen(x) - 1; it denotes x; gamma(0) is "0". */
  lemma EliasGammaEncodeShape(x: nat)
    ensures x >= 1 ==> EliasGammaEncode(x).Length() == 2 * |Digits(x)| - 1
    ensures x >= 1 ==> EliasGammaEncode(x).data[|Digits(x)| - 1] == 1
    ensures forall i :: 0 <= i < |Digits(x)| - 1 ==> EliasGammaEncode(x).data[i] == 0
    ensures EliasGammaEncode(x).ToInteger() == x
    ensures x == 0 ==> EliasGammaEncode(x).data == [0]
  {
    var b := Digits(x);
    var z := WithLength(|b| - 1).data;
    EliasGammaEncodeLayout(x);
    if x >= 1 {
      LeadingZeros(z, b);
      DigitsValue(x);
      assert (z + b)[|z|] == b[0];
    } else {
      assert z + b == [0];
    }
  }

  /** What `eliasGammaDecode` returns: with the first 1 at index i, bits i..2i as the integer. */
  function EliasGammaParse(s: BinaryString): (r: Option<Decoded>)
    ensures r.Some? ==> IsPrefix(r.value.code.data, s.data) && r.value.code.Length() % 2 == 1
    ensures r.Some? ==> r.value.integer >= 1
  {
    match FirstOne(s.data, 0)
    case None => None
    case Some(i) =>
      if i + i >= s.Length() then None
      else
        var g := s.data[i..i + i + 1];
        assert s.Slice(i, i + i + 1).data == g && g[0] == 1;
        ValueBounds(g);
        Some(Decoded(s.Slice(i, i + i + 1).ToInteger(), s.Slice(0, i + i + 1)))
  }

  /**
   * `eliasGammaDecode` fails exactly when the input has no 1, or fewer than i
   * bits follow the first 1 at index i; otherwise it consumes 2i + 1 bits and
   * returns the positive number written in the last i + 1 of them.
   */
  lemma EliasGammaParseSpec(s: BinaryString)
    ensures EliasGammaParse(s).None? <==> (FirstOne(s.data, 0).None? || 2 * FirstOne(s.data, 0).value >= s.Length())
    ensures EliasGammaParse(s).Some? ==>
      var i := FirstOne(s.data, 0).value;
      && EliasGammaParse(s).value.code.data == s.data[..2 * i + 1]
      && EliasGammaParse(s).value.integer == Value(s.data[i..2 * i + 1])
      && EliasGammaParse(s).value.integer >= 1
  {
    if EliasGammaParse(s).Some? {
      var i := FirstOne(s.data, 0).value;
      var g := s.data[i..2 * i + 1];
      assert g[0] == 1;
      ValueBounds(g);
    }
  }

  method EliasGammaDecode(x: BinaryString) returns (r: Option<Decoded>)
    ensures r == EliasGammaParse(x)
  {
    var i := 0;
    while i < x.Length()
      invariant 0 <= i <= x.Length()
      invariant FirstOne(x.data, i) == FirstOne(x.data, 0)
    {
      if x.At(i) == Some(1) {
        if i + i >= x.Length() {
          break;
        }
        return Some(Decoded(x.Slice(i, i + i + 1).ToInteger(), x.Slice(0, i + i + 1)));
      }
      i := i + 1;
    }
    return None;
  }

  lemma EliasGammaParseAt(s: BinaryString, i: nat)
    requires FirstOne(s.data, 0) == Some(i) && i + i < s.Length()
    ensures EliasGammaParse(s) == Some(Decoded(Value(s.data[i..i + i + 1]), BinaryString(s.data[..i + i + 1])))
  {
  }

  lemma EliasGammaReadsBack(x: nat, rest: seq<Bit>)
    requires x >= 1
    ensures EliasGammaParse(BinaryString(EliasGammaEncode(x).data + rest)) == Some(Decoded(x, EliasGammaEncode(x)))
  {
    var b := Digits(x);
    var z := WithLength(|b| - 1).data;
    EliasGammaEncodeLayout(x);
    DigitsValue(x);
    ZerosThenBlock(z, b, rest);
    EliasGammaParseAt(BinaryString(z + b + rest), |z|);
  }

  // ---------------------------------------------------------------------
  // Elias delta: gamma(bitlen(x)), then x in binary without its leading 1

  /**
   * `eliasDeltaEncode(x)`: the gamma code of bitlen(x), then the bits of x
   * after its leading one.
   */
  function EliasDeltaEncode(x: nat): (r: BinaryString)
    ensures var g := EliasGammaEncode(|Digits(x)|);
      && r.Length() == g.Length() + |Digits(x)| - 1
      && r.data[..g.Length()] == g.data
      && r.data[g.Length()..] == Digits(x)[1..]
  {
    var b := FromInteger(x);
    var n := EliasGammaEncode(b.Length());
    var tail := b.SliceFrom(1);
    assert tail.data == Digits(x)[1..];
    var r := n.Concat(tail);
    assert r.data == n.data + tail.data;
    r
  }

  /**
   * `eliasDeltaDecode(x)`: the gamma prefix gives the bit length n, and
   * the n - 1 bits after it, behind a leading 1, the integer.
   */
  function EliasDeltaDecode(x: BinaryString): (r: Option<Decoded>)
    ensures r.Some? ==> IsPrefix(r.value.code.data, x.data) && r.value.code.Length() >= 1
    ensures r.Some? ==> r.value.integer >= 1
  {
    var result := EliasGammaParse(x);
    if result.None? || result.value.code.Length() + result.value.integer - 1 > x.Length() then None
    else
      var c := result.value.code.Length();
      var m := c + result.value.integer - 1;
      var d := x.Slice(c, m).Prepend(1).data;
      assert d[0] == 1;
      ValueBounds(d);
      Some(Decoded(x.Slice(c, m).Prepend(1).ToInteger(), x.Slice(0, m)))
  }

  lemma EliasDeltaDecodeAt(s: BinaryString, c: nat, n: nat)
    requires n >= 1 && c + n - 1 <= s.Length()
    requires EliasGammaParse(s) == Some(Decoded(n, BinaryString(s.data[..c])))
    ensures EliasDeltaDecode(s) == Some(Decoded(Value([1] + s.data[c..c + n - 1]), BinaryString(s.data[..c + n - 1])))
  {
    assert s.Slice(c, c + n - 1).Prepend(1).data == [1] + s.data[c..c + n - 1];
  }

  /**
   * `eliasDeltaDecode` fails when the gamma prefix fails or announces more
   * bits than remain; otherwise, with the gamma prefix c bits long and
   * decoding to n, it consumes c + n - 1 bits and returns a number of exactly
   * n binary digits: 1 followed by the n - 1 bits after the prefix.
   */
  lemma EliasDeltaDecodeSpec(s: BinaryString)
    ensures EliasGammaParse(s).None? ==> EliasDeltaDecode(s).None?
    ensures EliasGammaParse(s).Some? ==>
      var c := EliasGammaParse(s).value.code.Length();
      var n := EliasGammaParse(s).value.integer;
      && (EliasDeltaDecode(s).None? <==> c + n - 1 > s.Length())
      && (EliasDeltaDecode(s).Some? ==>
            && n >= 1
            && EliasDeltaDecode(s).value.code.data == s.data[..c + n - 1]
            && Digits(EliasDeltaDecode(s).value.integer) == [1] + s.data[c..c + n - 1])
  {
    EliasGammaParseSpec(s);
    if EliasDeltaDecode(s).Some? {
      var c := EliasGammaParse(s).value.code.Length();
      var n := EliasGammaParse(s).value.integer;
      EliasDeltaDecodeAt(s, c, n);
      DigitsOfValue([1] + s.data[c..c + n - 1]);
    }
  }

  /** A gamma prefix `g` announcing n, then n - 1 bits: delta reads them as one number. */
  lemma EliasDeltaReadsParts(g: seq<Bit>, tail: seq<Bit>, rest: seq<Bit>, n: nat)
    requires n >= 1 && |tail| == n - 1
    requires EliasGammaParse(BinaryString(g + (tail + rest))) == Some(Decoded(n, BinaryString(g)))
    ensures EliasDeltaDecode(BinaryString(g + tail + rest)) == Some(Decoded(Value([1] + tail), BinaryString(g + tail)))
  {
    var s := BinaryString(g + tail + rest);
    ConcatPieces(g, tail, rest);
    assert s.data[..|g|] == g;
    EliasDeltaDecodeAt(s, |g|, n);
  }

  lemma EliasDeltaReadsBack(x: nat, rest: seq<Bit>)
    requires x >= 1
    ensures EliasDeltaDecode(BinaryString(EliasDeltaEncode(x).data + rest)) == Some(Decoded(x, EliasDeltaEncode(x)))
  {
    var b := Digits(x);
    var g := EliasGammaEncode(|b|).data;
    var tail := b[1..];
    assert EliasDeltaEncode(x).data == g + tail;
    EliasGammaReadsBack(|b|, tail + rest);
    EliasDeltaReadsParts(g, tail, rest, |b|);
    HeadTail(b);
    DigitsValue(x);
  }

  // ---------------------------------------------------------------------
  // Elias omega: groups bin(x_k) ... bin(x_1), then the terminator 0

  /** The groups `eliasOmegaEncode` prepends: bin(x) last, preceded by the groups of bitlen(x) - 1. */
  function OmegaGroups(x: nat): seq<Bit>
    requires x >= 1
    decreases x
  {
    if x == 1 then [] else OmegaGroups(|Digits(x)| - 1) + Digits(x)
  }

  lemma OmegaGroupsStep(x: nat, tail: seq<Bit>)
    requires x >= 2
    ensures OmegaGroups(x) + tail == OmegaGroups(|Digits(x)| - 1) + (Digits(x) + tail)
  {
    var g := OmegaGroups(|Digits(x)| - 1);
    assert OmegaGroups(x) == g + Digits(x);
    ConcatAssoc(g, Digits(x), tail);
  }

  /** What `eliasOmegaEncode` returns. */
  function EliasOmegaCode(x: nat): BinaryString
    requires x >= 1
  {
    BinaryString(OmegaGroups(x) + [0])
  }

  /** Loops forever for 0 (each pass maps 0 to bitlen(0) - 1 == 0), hence `x0 >= 1`. */
  method EliasOmegaEncode(x0: nat) returns (code: BinaryString)
    requires x0 >= 1
    ensures code == EliasOmegaCode(x0)
  {
    code := FromArray([0]);
    var x := x0;
    while x != 1
      invariant x >= 1
      invariant OmegaGroups(x0) + [0] == OmegaGroups(x) + code.data
      decreases x
    {
      var n := FromInteger(x);
      OmegaGroupsStep(x, code.data);
      code := n.Concat(code);
      x := n.Length() - 1;
    }
  }

  /** Where `eliasOmegaDecode`'s loop ends: the last group's value and the unread bits `y`. */
  datatype OmegaEnd = OmegaEnd(integer: nat, y: seq<Bit>)

  /**
   * `eliasOmegaDecode`'s loop on the unread bits `y`, with `integer` the value
   * of the last group: while `y` starts with 1, read the next integer + 1 bits
   * as the next value, failing when they would use up `y`.  (The source's
   * `length` is always the number of bits read so far plus one, so its guard
   * `length + integer >= x.length()` is `integer + 1 >= |y|`.)
   */
  function OmegaLoop(y: seq<Bit>, integer: nat): Option<OmegaEnd>
    decreases |y|
  {
    if |y| > 0 && y[0] == 1 then
      if integer + 1 >= |y| then None
      else OmegaLoop(y[integer + 1..], Value(y[..integer + 1]))
    else Some(OmegaEnd(integer, y))
  }

  /** What `eliasOmegaDecode` returns: the code is `x.slice(0, length)` with `length` = bits read + 1. */
  function EliasOmegaParse(s: BinaryString): (r: Option<Decoded>)
    ensures r.Some? ==> IsPrefix(r.value.code.data, s.data) && r.value.integer >= 1
    ensures r.Some? && s.Length() > 0 ==> r.value.code.Length() >= 1
  {
    OmegaLoopSpec(s.data, 1);
    match OmegaLoop(s.data, 1)
    case None => None
    case Some(e) => Some(Decoded(e.integer, s.Slice(0, s.Length() - |e.y| + 1)))
  }

  /**
   * The loop ends on a suffix of its input, with a positive integer; on
   * non-empty input that suffix starts with the terminator 0.
   */
  lemma {:induction false} OmegaLoopSpec(y: seq<Bit>, integer: nat)
    requires integer >= 1
    decreases |y|
    ensures OmegaLoop(y, integer).Some? ==>
      var e := OmegaLoop(y, integer).value;
      && e.integer >= 1 && |e.y| <= |y| && e.y == y[|y| - |e.y|..]
      && (|y| > 0 ==> |e.y| > 0 && e.y[0] == 0)
  {
    if |y| > 0 && y[0] == 1 && integer + 1 < |y| {
      var g := y[..integer + 1];
      assert g[0] == 1;
      ValueBounds(g);
      OmegaLoopSpec(y[integer + 1..], Value(g));
      var e := OmegaLoop(y, integer);
      if e.Some? {
        var t := y[integer + 1..];
        assert e.value.y == t[|t| - |e.value.y|..];
        assert t[|t| - |e.value.y|..] == y[|y| - |e.value.y|..];
      }
    }
  }

  /** `eliasOmegaDecode` consumes a prefix ending in the terminator 0 and returns a positive integer. */
  lemma EliasOmegaParseSpec(s: BinaryString)
    ensures EliasOmegaParse(s).Some? ==>
      var r := EliasOmegaParse(s).value;
      && r.integer >= 1 && IsPrefix(r.code.data, s.data)
      && (s.Length() > 0 ==> r.code.Length() >= 1 && s.data[r.code.Length() - 1] == 0)
  {
    OmegaLoopSpec(s.data, 1);
    var e := OmegaLoop(s.data, 1);
    if e.Some? {
      var n := s.Length() - |e.value.y|;
      if s.Length() > 0 {
        assert s.data[n] == e.value.y[0];
        assert EliasOmegaParse(s).value.code.data == s.data[..n + 1];
      } else {
        assert EliasOmegaParse(s).value.code.data == [];
      }
    }
  }

  /** A leading 0 is the code of 1, and empty input reads as 1 with an empty code. */
  lemma EliasOmegaParseShort(s: BinaryString)
    ensures s.Length() > 0 && s.data[0] == 0 ==> EliasOmegaParse(s) == Some(Decoded(1, BinaryString([0])))
    ensures s.Length() == 0 ==> EliasOmegaParse(s) == Some(Decoded(1, BinaryString([])))
  {
    if s.Length() > 0 && s.data[0] == 0 {
      assert s.Slice(0, 1).data == [0];
    }
  }

  /** One pass of the loop: `y.split(integer + 1)` cuts off the group the loop reads next. */
  lemma OmegaLoopStep(y: BinaryString, a: BinaryString, b: BinaryString, integer: nat)
    requires y.Length() > 0 && y.data[0] == 1 && integer + 1 < y.Length()
    requires (a, b) == y.Split(integer + 1)
    ensures OmegaLoop(y.data, integer) == OmegaLoop(b.data, a.ToInteger())
    ensures b.Length() < y.Length()
  {
  }

  method EliasOmegaDecode(x: BinaryString) returns (r: Option<Decoded>)
    ensures r == EliasOmegaParse(x)
  {
    var integer: nat := 1;
    var length: nat := 1;
    var y := x;
    while y.At(0) == Some(1)
      invariant length - 1 + y.Length() == x.Length()
      invariant OmegaLoop(y.data, integer) == OmegaLoop(x.data, 1)
      decreases y.Length()
    {
      if length + integer >= x.Length() {
        return None;
      }
      var (a, b) := y.Split(integer + 1);
      OmegaLoopStep(y, a, b, integer);
      integer := a.ToInteger();
      length := length + a.Length();
      y := b;
    }
    return Some(Decoded(integer, x.Slice(0, length)));
  }

  /** A group `b` of integer + 1 bits that starts with 1 is read as the next integer. */
  lemma OmegaLoopGroup(b: seq<Bit>, tail: seq<Bit>, integer: nat)
    requires |b| == integer + 1 && b[0] == 1 && |tail| >= 1
    ensures OmegaLoop(b + tail, integer) == OmegaLoop(tail, Value(b))
  {
    assert (b + tail)[..integer + 1] == b;
    assert (b + tail)[integer + 1..] == tail;
  }

  /** Reading the groups of x from the decoder's initial integer 1 leaves integer == x. */
  lemma {:induction false} OmegaLoopGroups(x: nat, tail: seq<Bit>)
    requires x >= 1 && |tail| >= 1
    ensures OmegaLoop(OmegaGroups(x) + tail, 1) == OmegaLoop(tail, x)
    decreases x
  {
    if x > 1 {
      var x' := |Digits(x)| - 1;
      OmegaGroupsStep(x, tail);
      OmegaLoopGroups(x', Digits(x) + tail);
      OmegaLoopGroup(Digits(x), tail, x');
      DigitsValue(x);
    } else {
      assert OmegaGroups(x) + tail == tail;
    }
  }

  lemma EliasOmegaReadsBack(x: nat, rest: seq<Bit>)
    requires x >= 1
    ensures EliasOmegaParse(BinaryString(EliasOmegaCode(x).data + rest)) == Some(Decoded(x, EliasOmegaCode(x)))
  {
    var g := OmegaGroups(x);
    var s := BinaryString(EliasOmegaCode(x).data + rest);
    assert s.data == g + ([0] + rest);
    OmegaLoopGroups(x, [0] + rest);
    assert s.data[..|g| + 1] == g + [0];
  }

  // ---------------------------------------------------------------------
  // The four codes behind one tag, for the sequence driver

  datatype Code = Unary | EliasGamma | EliasDelta | EliasOmega

  /** The encoder terminates: only omega's loop runs forever, on 0. */
  predicate Encodable(c: Code, x: nat)
  {
    c.EliasOmega? ==> x >= 1
  }

  /** The integers a code round-trips: all of them for unary, the positive ones for Elias codes. */
  predicate InDomain(c: Code, x: nat)
  {
    c.Unary? || x >= 1
  }

  function Encode(c: Code, x: nat): BinaryString
    requires Encodable(c, x)
  {
    match c
    case Unary => UnaryEncode(x)
    case EliasGamma => EliasGammaEncode(x)
    case EliasDelta => EliasDeltaEncode(x)
    case EliasOmega => EliasOmegaCode(x)
  }

  function Parse(c: Code, s: BinaryString): Option<Decoded>
  {
    match c
    case Unary => UnaryParse(s)
    case EliasGamma => EliasGammaParse(s)
    case EliasDelta => EliasDeltaDecode(s)
    case EliasOmega => EliasOmegaParse(s)
  }

  /** On non-empty input, every successful decode consumes a non-empty prefix of it. */
  lemma ParseConsumes(c: Code, s: BinaryString)
    ensures Parse(c, s).Some? ==> IsPrefix(Parse(c, s).value.code.data, s.data)
    ensures Parse(c, s).Some? && s.Length() > 0 ==> Parse(c, s).value.code.Length() >= 1
  {
    match c
    case Unary => UnaryParseSpec(s);
    case EliasGamma => EliasGammaParseSpec(s);
    case EliasDelta =>
      EliasGammaParseSpec(s);
      EliasDeltaDecodeSpec(s);
    case EliasOmega => EliasOmegaParseSpec(s);
  }

  method Decode(c: Code, s: BinaryString) returns (r: Option<Decoded>)
    ensures r == Parse(c, s)
  {
    match c
    case Unary => r := UnaryDecode(s);
    case EliasGamma => r := EliasGammaDecode(s);
    case EliasDelta => r := EliasDeltaDecode(s);
    case EliasOmega => r := EliasOmegaDecode(s);
  }

  /** decode(encode(x) ++ rest) == {integer: x, code: encode(x)}: the codes are prefix codes. */
  lemma ReadsBack(c: Code, x: nat, rest: seq<Bit>)
    requires InDomain(c, x)
    ensures Parse(c, BinaryString(Encode(c, x).data + rest)) == Some(Decoded(x, Encode(c, x)))
  {
    match c
    case Unary => UnaryReadsBack(x, rest);
    case EliasGamma => EliasGammaReadsBack(x, rest);
    case EliasDelta => EliasDeltaReadsBack(x, rest);
    case EliasOmega => EliasOmegaReadsBack(x, rest);
  }

  lemma RoundTrip(c: Code, x: nat)
    requires InDomain(c, x)
    ensures Parse(c, Encode(c, x)) == Some(Decoded(x, Encode(c, x)))
  {
    ReadsBack(c, x, []);
    assert Encode(c, x).data + [] == Encode(c, x).data;
  }

  lemma DecoderConsumes(c: Code)
    ensures forall s :: Parse(c, s).Some? ==>
      IsPrefix(Parse(c, s).value.code.data, s.data) && (s.Length() > 0 ==> Parse(c, s).value.code.Length() >= 1)
  {
    forall s {
      ParseConsumes(c, s);
    }
  }

  /** The decoder `decodeSequence` receives for code `c`. */
  function Decoder(c: Code): (decoder: BinaryString -> Option<Decoded>)
    ensures Consumes(decoder)
  {
    DecoderConsumes(c);
    s => Parse(c, s)
  }

  // ---------------------------------------------------------------------
  // Sequences

  /** A decoder that only ever consumes a prefix of its input, and a non-empty one of non-empty input. */
  ghost predicate Consumes(decoder: BinaryString -> Option<Decoded>)
  {
    forall s: BinaryString {:trigger decoder(s)} :: decoder(s).Some? ==>
      IsPrefix(decoder(s).value.code.data, s.data) && (s.Length() > 0 ==> decoder(s).value.code.Length() >= 1)
  }

  /** One entry of `decodeSequence`'s output; `integer` is None for the undecodable tail. */
  datatype Record = Record(integer: Option<nat>, code: BinaryString)

  function Codes(rs: seq<Record>): seq<Bit>
  {
    if rs == [] then [] else rs[0].code.data + Codes(rs[1..])
  }

  /** `encodeSequence` with code `c`'s encoder: `numbers.reduce((output, x) => output.concat(encoder(x)), withLength(0))`. */
  function EncodeSequence(c: Code, xs: seq<nat>): (r: BinaryString)
    requires forall x | x in xs :: Encodable(c, x)
    ensures r.Length() >= |xs|
  {
    if xs == [] then WithLength(0)
    else
      EncodeNonEmpty(c, xs[|xs| - 1]);
      EncodeSequence(c, xs[..|xs| - 1]).Concat(Encode(c, xs[|xs| - 1]))
  }

  /**
   * What `decodeSequence` returns: decode repeatedly until the input is used
   * up, and on the first failure emit the rest as one `{integer: null}` record.
   */
  function DecodedSequence(decoder: BinaryString -> Option<Decoded>, s: BinaryString): (r: seq<Record>)
    requires Consumes(decoder)
    decreases s.Length()
    ensures |r| <= s.Length()
  {
    if s.Length() == 0 then []
    else match decoder(s)
      case None => [Record(None, s)]
      case Some(d) => [Record(Some(d.integer), d.code)] + DecodedSequence(decoder, s.SliceFrom(d.code.Length()))
  }

  /**
   * The records' codes put together give back the input, every record has a
   * non-empty code, and only the last record can lack an integer.
   */
  lemma {:induction false} DecodedSequenceSpec(decoder: BinaryString -> Option<Decoded>, s: BinaryString)
    requires Consumes(decoder)
    decreases s.Length()
    ensures Codes(DecodedSequence(decoder, s)) == s.data
    ensures forall i :: 0 <= i < |DecodedSequence(decoder, s)| - 1 ==> DecodedSequence(decoder, s)[i].integer.Some?
    ensures forall i :: 0 <= i < |DecodedSequence(decoder, s)| ==> DecodedSequence(decoder, s)[i].code.Length() >= 1
  {
    var r := DecodedSequence(decoder, s);
    if s.Length() > 0 {
      match decoder(s)
      case None =>
        assert Codes(r) == s.data + Codes([]);
      case Some(d) =>
        var t := s.SliceFrom(d.code.Length());
        DecodedSequenceSpec(decoder, t);
        assert r[1..] == DecodedSequence(decoder, t);
        assert s.data == d.code.data + t.data;
    }
  }

  method DecodeSequence(c: Code, s: BinaryString) returns (output: seq<Record>)
    ensures output == DecodedSequence(Decoder(c), s)
  {
    ghost var decoder := Decoder(c);
    output := [];
    var rest := s;
    while rest.Length() > 0
      invariant output + DecodedSequence(decoder, rest) == DecodedSequence(decoder, s)
      decreases rest.Length()
    {
      var result := Decode(c, rest);
      assert result == decoder(rest);
      if result.None? {
        output := output + [Record(None, rest)];
        break;
      }
      var record := Record(Some(result.value.integer), result.value.code);
      assert IsPrefix(result.value.code.data, rest.data) && result.value.code.Length() >= 1;
      var next := rest.SliceFrom(result.value.code.Length());
      assert next.Length() < rest.Length();
      DecodedSequenceFront(decoder, rest, result.value);
      ConcatAssoc(output, [record], DecodedSequence(decoder, next));
      output := output + [record];
      rest := next;
    }
  }

  /** The left fold equals the first code followed by the fold of the rest. */
  lemma EncodeSequenceFront(c: Code, xs: seq<nat>)
    requires |xs| >= 1
    requires forall x | x in xs :: Encodable(c, x)
    ensures EncodeSequence(c, xs).data == Encode(c, xs[0]).data + EncodeSequence(c, xs[1..]).data
  {
    var f := (x: nat) => if Encodable(c, x) then Encode(c, x).data else [];
    EncodeSequenceIsJoin(c, xs, f);
    EncodeSequenceIsJoin(c, xs[1..], f);
    JoinFront(f, xs);
  }

  /** The bits of `f` applied to each value, in order. */
  function JoinCodes(f: nat -> seq<Bit>, xs: seq<nat>): seq<Bit>
  {
    if xs == [] then [] else JoinCodes(f, xs[..|xs| - 1]) + f(xs[|xs| - 1])
  }

  lemma {:induction false} JoinFront(f: nat -> seq<Bit>, xs: seq<nat>)
    requires |xs| >= 1
    ensures JoinCodes(f, xs) == f(xs[0]) + JoinCodes(f, xs[1..])
    decreases |xs|
  {
    var n := |xs|;
    if n == 1 {
      assert xs[..0] == [] && xs[1..] == [];
    } else {
      var init, tail := xs[..n - 1], xs[1..];
      JoinFront(f, init);
      assert init[0] == xs[0] && tail[..n - 2] == init[1..] && tail[n - 2] == xs[n - 1];
      ConcatAssoc(f(xs[0]), JoinCodes(f, init[1..]), f(xs[n - 1]));
    }
  }

  lemma {:induction false} EncodeSequenceIsJoin(c: Code, xs: seq<nat>, f: nat -> seq<Bit>)
    requires forall x | x in xs :: Encodable(c, x)
    requires forall x :: f(x) == if Encodable(c, x) then Encode(c, x).data else []
    ensures EncodeSequence(c, xs).data == JoinCodes(f, xs)
  {
    if xs != [] {
      var init := xs[..|xs| - 1];
      assert forall x | x in init :: x in xs;
      EncodeSequenceIsJoin(c, init, f);
    }
  }

  /** A successful decode at the front of the input gives the first record. */
  lemma DecodedSequenceFront(decoder: BinaryString -> Option<Decoded>, s: BinaryString, d: Decoded)
    requires Consumes(decoder) && s.Length() > 0 && decoder(s) == Some(d)
    ensures DecodedSequence(decoder, s) == [Record(Some(d.integer), d.code)] + DecodedSequence(decoder, s.SliceFrom(d.code.Length()))
  {
  }

  /** Every codeword has at least one bit. */
  lemma EncodeNonEmpty(c: Code, x: nat)
    requires Encodable(c, x)
    ensures Encode(c, x).Length() >= 1
  {
    match c
    case Unary =>
    case EliasGamma =>
    case EliasDelta => assert EliasGammaEncode(|Digits(x)|).Length() >= 1;
    case EliasOmega =>
  }

  /** A decoder that reads `e` back from the front of `e + tail` turns it into the first record. */
  lemma DecodedSequenceOfConcat(decoder: BinaryString -> Option<Decoded>, s: BinaryString, e: BinaryString, tail: BinaryString, x: nat)
    requires Consumes(decoder) && e.Length() >= 1 && s.data == e.data + tail.data
    requires decoder(BinaryString(e.data + tail.data)) == Some(Decoded(x, e))
    ensures DecodedSequence(decoder, s) == [Record(Some(x), e)] + DecodedSequence(decoder, tail)
  {
    assert s == BinaryString(e.data + tail.data);
    assert s.SliceFrom(e.Length()) == tail;
    DecodedSequenceFront(decoder, s, Decoded(x, e));
  }

  /** Decoding an encoded sequence reads the first integer back and goes on with the rest. */
  lemma SequenceFront(c: Code, xs: seq<nat>)
    requires xs != [] && forall x | x in xs :: Encodable(c, x) && InDomain(c, x)
    ensures DecodedSequence(Decoder(c), EncodeSequence(c, xs))
      == [Record(Some(xs[0]), Encode(c, xs[0]))] + DecodedSequence(Decoder(c), EncodeSequence(c, xs[1..]))
  {
    var tail := EncodeSequence(c, xs[1..]);
    EncodeSequenceFront(c, xs);
    EncodeNonEmpty(c, xs[0]);
    ReadsBack(c, xs[0], tail.data);
    DecodedSequenceOfConcat(Decoder(c), EncodeSequence(c, xs), Encode(c, xs[0]), tail, xs[0]);
  }

  /** `decodeSequence(decode, encodeSequence(encode, xs))` yields every integer of `xs` with its codeword. */
  lemma {:induction false} SequenceRoundTrip(c: Code, xs: seq<nat>)
    requires forall x | x in xs :: Encodable(c, x) && InDomain(c, x)
    ensures |DecodedSequence(Decoder(c), EncodeSequence(c, xs))| == |xs|
    ensures forall i :: 0 <= i < |xs| ==>
      DecodedSequence(Decoder(c), EncodeSequence(c, xs))[i] == Record(Some(xs[i]), Encode(c, xs[i]))
    decreases |xs|
  {
    if xs != [] {
      SequenceFront(c, xs);
      SequenceRoundTrip(c, xs[1..]);
      var r := DecodedSequence(Decoder(c), EncodeSequence(c, xs));
      forall i | 0 <= i < |xs|
        ensures r[i] == Record(Some(xs[i]), Encode(c, xs[i]))
      {
        if i > 0 {
          assert xs[1..][i - 1] == xs[i];
        }
      }
    }
  }
}
