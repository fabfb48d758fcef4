/**
 * The Fibonacci linear-feedback shift register of
 * src/fibonacci-lfsr/index.js: a row of bits, a row of taps of the same
 * length, a step that shifts the bits right and feeds back the XOR of the
 * tapped bits, toggles for single bits and taps, and the text of the
 * feedback polynomial the page shows.
 */
module FibonacciLfsr {
  import opened JsBuiltins
  import Scales

  /** The entries of `state` and `taps` are the numbers 0 and 1. */
  type Bit = b: int | 0 <= b <= 1

  /** `b ^ c` on bits. */
  function Xor(b: Bit, c: Bit): Bit
  {
    if b == c then 0 else 1
  }

  /** `b ^ 1`: the other bit. */
  function Flip(b: Bit): Bit
  {
    1 - b
  }

  /** `new Array(n).fill(0)`. */
  function Zeros(n: nat): (z: seq<Bit>)
    ensures |z| == n && forall i | 0 <= i < n :: z[i] == 0
  {
    seq(n, _ => 0)
  }

  /** `state.filter((b, i) => taps[i])`: the bits at tapped positions, in order. */
  function Tapped(state: seq<Bit>, taps: seq<Bit>): seq<Bit>
    requires |state| == |taps|
  {
    if |state| == 0 then []
    else
      var n := |state| - 1;
      Tapped(state[..n], taps[..n]) + (if taps[n] == 1 then [state[n]] else [])
  }

  /** `bits.reduce((a, b) => a ^ b, 0)`. */
  function XorAll(bits: seq<Bit>): Bit
  {
    if |bits| == 0 then 0 else Xor(XorAll(bits[..|bits| - 1]), bits[|bits| - 1])
  }

  /**
   * The bit fed back into position 0: the XOR of the tapped bits, so clear
   * when every bit is clear and when no position is tapped.
   */
  function Feedback(state: seq<Bit>, taps: seq<Bit>): (r: Bit)
    requires |state| == |taps|
    ensures (forall j | 0 <= j < |state| :: state[j] == 0) ==> r == 0
    ensures (forall j | 0 <= j < |taps| :: taps[j] == 0) ==> r == 0
  {
    ClearFeedback(state, taps);
    XorAll(Tapped(state, taps))
  }

  /**
   * The next state: the feedback bit, then the old bits shifted one place,
   * the last one dropped; the length stays the same.
   */
  function Step(state: seq<Bit>, taps: seq<Bit>): (r: seq<Bit>)
    requires |state| == |taps| > 0
    ensures |r| == |state| && r[0] == Feedback(state, taps)
    ensures forall i | 0 <= i < |state| - 1 :: r[i + 1] == state[i]
  {
    [Feedback(state, taps)] + state[..|state| - 1]
  }

  // ---------------------------------------------------------------------
  // The polynomial text

  /** `<var>x</var><sup>e</sup>`. */
  function Sup(e: nat): string
  {
    "<var>x</var><sup>" + Scales.Decimal(e) + "</sup>"
  }

  /** The terms the loop of `updateState` writes for the taps `i` down to 1: x^(i+1) for each tapped i. */
  function LoopTerms(taps: seq<Bit>, i: int): string
    requires i < |taps|
    decreases i
  {
    if i < 1 then ""
    else (if taps[i] == 1 then Plus(i + 1) else "") + LoopTerms(taps, i - 1)
  }

  /**
   * The tap polynomial as `updateState` writes it: x^n for a register of
   * n bits, the loop terms, "+x" when the first position is tapped, and
   * "+1".
   */
  function TapsText(taps: seq<Bit>): (r: string)
    requires |taps| > 0
    ensures |r| >= |Sup(|taps|)| + 2
    ensures r[..|Sup(|taps|)|] == Sup(|taps|) && r[|r| - 2..] == "+1"
  {
    var lead, middle := Sup(|taps|), LoopTerms(taps, |taps| - 2) + (if taps[0] == 1 then Plus(1) else "");
    assert (lead + middle + "+1")[..|lead|] == lead;
    lead + middle + "+1"
  }

  /** The polynomial text is the leading term, the loop's terms, the "+x" term, then "+1". */
  lemma TapsTextTerms(taps: seq<Bit>)
    requires |taps| > 0
    ensures TapsText(taps) == Sup(|taps|) + LoopTerms(taps, |taps| - 2)
      + (if taps[0] == 1 then Plus(1) else "") + "+1"
  {
    var first := if taps[0] == 1 then Plus(1) else "";
    assert Sup(|taps|) + (LoopTerms(taps, |taps| - 2) + first) == Sup(|taps|) + LoopTerms(taps, |taps| - 2) + first;
  }

  /**
   * The polynomial text with the term for the first position written only
   * when it is not also the leading term x^n, that is when n > 1.
   */
  function CorrectedTapsText(taps: seq<Bit>): string
    requires |taps| > 0
  {
    Sup(|taps|) + LoopTerms(taps, |taps| - 2)
    + (if |taps| > 1 && taps[0] == 1 then Plus(1) else "") + "+1"
  }

  /** The exponents below k + 1 whose taps are set, from k down to 1: position e - 1 stands for x^e. */
  function Exponents(taps: seq<Bit>, k: int): seq<nat>
    requires k <= |taps|
    decreases k
  {
    if k < 1 then [] else (if taps[k - 1] == 1 then [k as nat] else []) + Exponents(taps, k - 1)
  }

  /** How a term of the polynomial is written: x for the first power, x with a superscript above. */
  function Term(e: nat): string
  {
    if e == 1 then "<var>x</var>" else Sup(e)
  }

  /** A further term of the polynomial, "+" and the term. */
  function Plus(e: nat): string
  {
    "+" + Term(e)
  }

  /** The further terms for a list of exponents. */
  function Terms(exps: seq<nat>): string
  {
    if |exps| == 0 then "" else Plus(exps[0]) + Terms(exps[1..])
  }

  /**
   * The polynomial x^n + (one term for each tapped position below the
   * last) + 1, written from the highest power down.
   */
  function Polynomial(taps: seq<Bit>): string
    requires |taps| > 0
  {
    Sup(|taps|) + Terms(Exponents(taps, |taps| - 1)) + "+1"
  }

  // ---------------------------------------------------------------------
  // The register

  /** The page's module-level `state` and `taps`. */
  class Register {
    var state: seq<Bit>
    var taps: seq<Bit>

    /** As many taps as bits, at least one, and the last position always tapped. */
    ghost predicate Valid()
      reads this
    {
      |state| == |taps| > 0 && taps[|taps| - 1] == 1
    }

    /** A register as `initialize(bits)` leaves it. */
    constructor (bits: nat)
      requires bits > 0
      ensures Valid()
      ensures state == Zeros(bits)
      ensures |taps| == bits && taps[bits - 1] == 1 && forall i | 0 <= i < bits - 1 :: taps[i] == 0
    {
      state := [];
      taps := [];
      new;
      Initialize(bits);
    }

    /** `initialize(bits)`: all bits clear, only the last position tapped. */
    method Initialize(bits: nat)
      requires bits > 0
      modifies this
      ensures Valid()
      ensures state == Zeros(bits)
      ensures |taps| == bits && taps[bits - 1] == 1 && forall i | 0 <= i < bits - 1 :: taps[i] == 0
    {
      state := Zeros(bits);
      taps := Zeros(bits);
      taps := taps[bits - 1 := 1];
    }

    /** The "Next state" button: one step of the register. */
    method Next()
      requires Valid()
      modifies this
      ensures Valid()
      ensures state == Step(old(state), old(taps)) && taps == old(taps)
    {
      state := [Feedback(state, taps)] + state[..|state| - 1];
    }

    /** A click on bit i: `state[i] ^= 1`. */
    method ToggleBit(i: nat)
      requires Valid() && i < |state|
      modifies this
      ensures Valid()
      ensures state == old(state)[i := Flip(old(state)[i])] && taps == old(taps)
    {
      state := state[i := Flip(state[i])];
    }

    /** A click on tap i: `taps[i] ^= 1`; the page draws tap toggles below the last position only. */
    method ToggleTap(i: nat)
      requires Valid() && i < |taps| - 1
      modifies this
      ensures Valid()
      ensures taps == old(taps)[i := Flip(old(taps)[i])] && state == old(state)
    {
      taps := taps[i := Flip(taps[i])];
    }

    /** The polynomial text of `updateState`, built by its loop. */
    method TapsOutput() returns (output: string)
      requires Valid()
      ensures output == TapsText(taps)
    {
      output := Sup(|taps|);
      var i := |taps| - 2;
      while i >= 1
        invariant i < |taps|
        invariant output + LoopTerms(taps, i) == Sup(|taps|) + LoopTerms(taps, |taps| - 2)
        decreases i
      {
        ghost var prior := output;
        ghost var term := if taps[i] == 1 then Plus(i + 1) else "";
        if taps[i] == 1 {
          output := output + Plus(i + 1);
        }
        assert output == prior + term;
        assert LoopTerms(taps, i) == term + LoopTerms(taps, i - 1);
        Concat3(prior, term, LoopTerms(taps, i - 1));
        i := i - 1;
      }
      assert LoopTerms(taps, i) == "";
      assert output + "" == output;
      ghost var loop := output;
      assert loop == Sup(|taps|) + LoopTerms(taps, |taps| - 2);
      if taps[0] == 1 {
        output := output + Plus(1);
      }
      ghost var first := if taps[0] == 1 then Plus(1) else "";
      assert output == loop + first;
      output := output + "+1";
      TapsTextTerms(taps);
    }
  }

  // ---------------------------------------------------------------------
  // Properties of the step

  /** The bits at tapped positions of a clear register are all clear. */
  lemma {:induction false} TappedZeros(n: nat, taps: seq<Bit>)
    requires |taps| == n
    ensures forall j | 0 <= j < |Tapped(Zeros(n), taps)| :: Tapped(Zeros(n), taps)[j] == 0
  {
    if n > 0 {
      assert Zeros(n)[..n - 1] == Zeros(n - 1);
      TappedZeros(n - 1, taps[..n - 1]);
    }
  }

  /** A clear register, or one with no taps, selects only clear bits, if any. */
  lemma ClearFeedback(state: seq<Bit>, taps: seq<Bit>)
    requires |state| == |taps|
    ensures (forall j | 0 <= j < |state| :: state[j] == 0) ==> XorAll(Tapped(state, taps)) == 0
    ensures (forall j | 0 <= j < |taps| :: taps[j] == 0) ==> XorAll(Tapped(state, taps)) == 0
  {
    if forall j | 0 <= j < |state| :: state[j] == 0 {
      assert state == Zeros(|state|);
      TappedZeros(|state|, taps);
      XorAllZeros(Tapped(state, taps));
    }
    if forall j | 0 <= j < |taps| :: taps[j] == 0 {
      UntappedNone(state, taps);
    }
  }

  /** With no position tapped nothing is selected. */
  lemma {:induction false} UntappedNone(state: seq<Bit>, taps: seq<Bit>)
    requires |state| == |taps|
    requires forall j | 0 <= j < |taps| :: taps[j] == 0
    ensures Tapped(state, taps) == []
  {
    if |state| > 0 {
      UntappedNone(state[..|state| - 1], taps[..|taps| - 1]);
    }
  }

  /** The XOR of clear bits is clear. */
  lemma {:induction false} XorAllZeros(bits: seq<Bit>)
    requires forall j | 0 <= j < |bits| :: bits[j] == 0
    ensures XorAll(bits) == 0
  {
    if |bits| > 0 {
      XorAllZeros(bits[..|bits| - 1]);
    }
  }

  /** The all-clear state is a fixed point of the step, whatever the taps. */
  lemma ZeroFixed(taps: seq<Bit>)
    requires |taps| > 0
    ensures Step(Zeros(|taps|), taps) == Zeros(|taps|)
  {
    TappedZeros(|taps|, taps);
    XorAllZeros(Tapped(Zeros(|taps|), taps));
  }

  /** The feedback of a register is that of all but its last bit, XORed with the last bit when it is tapped. */
  lemma FeedbackSnoc(s: seq<Bit>, taps: seq<Bit>)
    requires |s| == |taps| > 0
    ensures var n := |s| - 1;
      Feedback(s, taps) ==
        if taps[n] == 1 then Xor(Feedback(s[..n], taps[..n]), s[n]) else Feedback(s[..n], taps[..n])
  {
    var n := |s| - 1;
    var rest := Tapped(s[..n], taps[..n]);
    if taps[n] == 1 {
      assert Tapped(s, taps) == rest + [s[n]];
      assert (rest + [s[n]])[..|rest|] == rest;
    } else {
      assert Tapped(s, taps) == rest + [];
      assert rest + [] == rest;
    }
  }

  /**
   * The feedback is linear: toggling a tapped bit toggles the feedback,
   * toggling an untapped bit leaves it as it was.
   */
  lemma {:induction false} FeedbackToggle(state: seq<Bit>, taps: seq<Bit>, i: nat)
    requires |state| == |taps| && i < |state|
    ensures Feedback(state[i := Flip(state[i])], taps) ==
      if taps[i] == 1 then Flip(Feedback(state, taps)) else Feedback(state, taps)
  {
    var n := |state| - 1;
    var toggled := state[i := Flip(state[i])];
    FeedbackSnoc(state, taps);
    FeedbackSnoc(toggled, taps);
    if i == n {
      assert toggled[..n] == state[..n];
    } else {
      assert toggled[..n] == state[..n][i := Flip(state[i])];
      FeedbackToggle(state[..n], taps[..n], i);
    }
  }

  /**
   * With the last position tapped the step loses nothing: two states with
   * the same successor are equal, so the step permutes the states of the
   * register.
   */
  lemma StepInjective(s: seq<Bit>, t: seq<Bit>, taps: seq<Bit>)
    requires |s| == |t| == |taps| > 0 && taps[|taps| - 1] == 1
    requires Step(s, taps) == Step(t, taps)
    ensures s == t
  {
    var n := |s| - 1;
    forall i | 0 <= i < n
      ensures s[i] == t[i]
    {
      assert Step(s, taps)[i + 1] == s[i] && Step(t, taps)[i + 1] == t[i];
    }
    assert s[..n] == t[..n];
    FeedbackSnoc(s, taps);
    FeedbackSnoc(t, taps);
    assert Step(s, taps)[0] == Step(t, taps)[0];
    assert s == s[..n] + [s[n]] && t == t[..n] + [t[n]];
  }

  // ---------------------------------------------------------------------
  // Properties of the polynomial text

  /** The exponents listed are decreasing, and e is listed exactly when 1 <= e <= k and position e - 1 is tapped. */
  lemma {:induction false} ExponentsSpec(taps: seq<Bit>, k: int)
    requires k <= |taps|
    ensures forall j | 0 < j < |Exponents(taps, k)| :: Exponents(taps, k)[j] < Exponents(taps, k)[j - 1]
    ensures forall e: nat :: e in Exponents(taps, k) <==> 1 <= e <= k && taps[e - 1] == 1
    decreases k
  {
    if k >= 1 {
      ExponentsSpec(taps, k - 1);
      var rest := Exponents(taps, k - 1);
      var head: seq<nat> := if taps[k - 1] == 1 then [k] else [];
      assert Exponents(taps, k) == head + rest;
      forall j | 0 < j < |head + rest|
        ensures (head + rest)[j] < (head + rest)[j - 1]
      {
        if |head| == 1 && j == 1 {
          assert rest[0] in rest;
        }
      }
    }
  }

  /** The terms of two lists of exponents are written one after the other. */
  lemma {:induction false} TermsAppend(a: seq<nat>, b: seq<nat>)
    ensures Terms(a + b) == Terms(a) + Terms(b)
  {
    if |a| > 0 {
      assert (a + b)[0] == a[0];
      assert (a + b)[1..] == a[1..] + b;
      assert Terms(a + b) == Plus(a[0]) + Terms(a[1..] + b);
      TermsAppend(a[1..], b);
      Concat3(Plus(a[0]), Terms(a[1..]), Terms(b));
    } else {
      assert a + b == b;
    }
  }

  /** The loop terms and the term for the first position write the tapped exponents from i + 1 down. */
  lemma {:induction false} LoopTermsSpec(taps: seq<Bit>, i: nat)
    requires i < |taps|
    ensures LoopTerms(taps, i) + (if taps[0] == 1 then Plus(1) else "") == Terms(Exponents(taps, i + 1))
  {
    var first := if taps[0] == 1 then Plus(1) else "";
    var term := if taps[i] == 1 then Plus(i + 1) else "";
    var head: seq<nat> := if taps[i] == 1 then [i + 1] else [];
    var rest := Exponents(taps, i);
    assert Exponents(taps, i + 1) == head + rest;
    TermsAppend(head, rest);
    assert Terms(head) == term;
    if i == 0 {
      assert rest == [];
      assert LoopTerms(taps, 0) == "";
      assert term == first;
    } else {
      LoopTermsSpec(taps, i - 1);
      assert LoopTerms(taps, i - 1) + first == Terms(rest);
      assert LoopTerms(taps, i) == term + LoopTerms(taps, i - 1);
      Concat3(term, LoopTerms(taps, i - 1), first);
      assert LoopTerms(taps, i) + first == term + Terms(rest);
    }
  }

  /** For a register of two bits or more, the page writes the tap polynomial. */
  lemma TapsTextSpec(taps: seq<Bit>)
    requires |taps| >= 2
    ensures TapsText(taps) == Polynomial(taps)
  {
    LoopTermsSpec(taps, |taps| - 2);
    Concat3(Sup(|taps|), LoopTerms(taps, |taps| - 2), if taps[0] == 1 then Plus(1) else "");
  }

  /** The corrected text is the tap polynomial for every register length. */
  lemma CorrectedTapsTextSpec(taps: seq<Bit>)
    requires |taps| > 0
    ensures CorrectedTapsText(taps) == Polynomial(taps)
  {
    if |taps| >= 2 {
      TapsTextSpec(taps);
    } else {
      assert LoopTerms(taps, -1) == "" && Exponents(taps, 0) == [];
    }
  }

  /**
   * For a register of one bit, whose only tap is also the leading term,
   * the page writes x^1 + x + 1 instead of the polynomial x^1 + 1.
   */
  lemma OneBitText()
    ensures TapsText([1]) == Sup(1) + Plus(1) + "+1"
    ensures Polynomial([1]) == Sup(1) + "+1"
    ensures TapsText([1]) != Polynomial([1])
  {
    assert LoopTerms([1], -1) == "" && Exponents([1], 0) == [];
    assert |TapsText([1])| > |Polynomial([1])|;
  }
}
