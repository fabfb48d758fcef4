/**
 * The JavaScript built-ins whose behaviour the modules depend on: the
 * remainder operator `%`, which truncates toward zero, and
 * `Array.prototype.indexOf` and `findIndex`, which answer -1 when nothing
 * is found; and one fact about concatenation.
 */
module JsBuiltins {

  function Abs(n: int): nat
  {
    if n < 0 then -n else n
  }

  /**
   * `a % n` on JavaScript numbers: the remainder of the division truncated
   * toward zero, so its sign follows the dividend.  Written here through
   * Dafny's Euclidean `%`, whose result is never negative: the truncating
   * remainder is smaller than the divisor, signed like the dividend, and
   * congruent to it, the Euclidean remainder or that less |n|.
   */
  function JsRem(a: int, n: int): (r: int)
    requires n != 0
    ensures Abs(r) < Abs(n)
    ensures a >= 0 ==> r >= 0
    ensures a <= 0 ==> r <= 0
    ensures r == a % Abs(n) || r == a % Abs(n) - Abs(n)
  {
    var r := a % Abs(n);
    if a >= 0 || r == 0 then r else r - Abs(n)
  }

  /** On a non-negative dividend and a positive divisor, `%` is the mathematical remainder. */
  lemma JsRemNonNegative(a: int, n: int)
    requires a >= 0 && n > 0
    ensures JsRem(a, n) == a % n
  {
  }

  /**
   * `a % n` leaves no negative remainder: a is non-negative, or a negative
   * multiple of n, whose remainder `-0` indexes an array like 0.
   */
  predicate RemNotNegative(a: int, n: int)
    requires n > 0
  {
    a >= 0 || a % n == 0
  }

  /** Exactly where `%` leaves no negative remainder, it is the mathematical one. */
  lemma JsRemAgrees(a: int, n: int)
    requires n > 0
    ensures RemNotNegative(a, n) <==> JsRem(a, n) >= 0
    ensures RemNotNegative(a, n) ==> JsRem(a, n) == a % n
  {
  }

  /** A remainder taken of a number between n and 2n subtracts n once. */
  lemma ModOnce(x: int, n: int)
    requires 0 < n <= x < 2 * n
    ensures x % n == x - n
  {
  }

  /** A remainder taken of a number in [0, n) is the number itself. */
  lemma ModSmall(x: int, n: int)
    requires 0 <= x < n
    ensures x % n == x
  {
  }

  /** `s.indexOf(x)`: the first position of x in s, or -1. */
  function IndexOf<T(==)>(s: seq<T>, x: T): (i: int)
    ensures -1 <= i < |s|
    ensures i >= 0 ==> s[i] == x
  {
    if |s| == 0 then -1
    else if s[0] == x then 0
    else var i := IndexOf(s[1..], x); if i < 0 then -1 else i + 1
  }

  /** indexOf finds the first occurrence, and answers -1 exactly when x is absent. */
  lemma {:induction false} IndexOfSpec<T>(s: seq<T>, x: T)
    ensures IndexOf(s, x) == -1 <==> x !in s
    ensures IndexOf(s, x) != -1 ==> 0 <= IndexOf(s, x) < |s| && s[IndexOf(s, x)] == x
    ensures IndexOf(s, x) != -1 ==> forall j :: 0 <= j < IndexOf(s, x) ==> s[j] != x
  {
    if |s| > 0 && s[0] != x {
      IndexOfSpec(s[1..], x);
      assert s == [s[0]] + s[1..];
    }
  }

  /** indexOf finds an element exactly when it is present. */
  lemma IndexOfFound<T>(s: seq<T>, x: T)
    ensures IndexOf(s, x) >= 0 <==> x in s
  {
    IndexOfSpec(s, x);
  }

  /** `s.findIndex(p)`: the first position whose element satisfies p, or -1. */
  function FindIndex<T>(s: seq<T>, p: T -> bool): (i: int)
    ensures -1 <= i < |s|
    ensures i >= 0 ==> p(s[i])
  {
    if |s| == 0 then -1
    else if p(s[0]) then 0
    else var i := FindIndex(s[1..], p); if i < 0 then -1 else i + 1
  }

  /** findIndex finds the first element satisfying p, and answers -1 exactly when none does. */
  lemma {:induction false} FindIndexSpec<T>(s: seq<T>, p: T -> bool)
    ensures FindIndex(s, p) == -1 <==> forall j | 0 <= j < |s| :: !p(s[j])
    ensures FindIndex(s, p) != -1 ==> 0 <= FindIndex(s, p) < |s| && p(s[FindIndex(s, p)])
    ensures FindIndex(s, p) != -1 ==> forall j | 0 <= j < FindIndex(s, p) :: !p(s[j])
  {
    if |s| > 0 && !p(s[0]) {
      FindIndexSpec(s[1..], p);
      assert forall j | 1 <= j < |s| :: s[j] == s[1..][j - 1];
    }
  }

  /** indexOf answers j when s[j] is x and x does not occur before j. */
  lemma IndexOfAt<T>(s: seq<T>, x: T, j: int)
    requires 0 <= j < |s| && s[j] == x && x !in s[..j]
    ensures IndexOf(s, x) == j
  {
    IndexOfSpec(s, x);
    assert forall k | 0 <= k < j :: s[..j][k] == s[k];
  }

  /** Concatenating lists, by spreading or with `+` on strings, does not depend on grouping. */
  lemma Concat3<T>(a: seq<T>, b: seq<T>, c: seq<T>)
    ensures a + b + c == a + (b + c)
  {
  }
}
