/**
 * `argMax` and `argMin`, the selection steps of the scale speller
 * (src/guitar-scales/scale.js, and the identical copies in scale.js and
 * scales.js): keep, in input order, the elements whose score is the
 * largest (or the smallest).
 */
module Selection {

  /** The largest score of a non-empty sequence. */
  function MaxOf<T>(xs: seq<T>, f: T -> int): (m: int)
    requires |xs| > 0
  {
    if |xs| == 1 then f(xs[0])
    else
      var m := MaxOf(xs[..|xs| - 1], f);
      if f(xs[|xs| - 1]) > m then f(xs[|xs| - 1]) else m
  }

  /** The smallest score of a non-empty sequence. */
  function MinOf<T>(xs: seq<T>, f: T -> int): (m: int)
    requires |xs| > 0
  {
    if |xs| == 1 then f(xs[0])
    else
      var m := MinOf(xs[..|xs| - 1], f);
      if f(xs[|xs| - 1]) < m then f(xs[|xs| - 1]) else m
  }

  /** The elements whose score is m, in input order. */
  function Attaining<T>(xs: seq<T>, f: T -> int, m: int): seq<T>
  {
    if xs == [] then []
    else Attaining(xs[..|xs| - 1], f, m) + (if f(xs[|xs| - 1]) == m then [xs[|xs| - 1]] else [])
  }

  /** What `argMax` returns: the elements of maximal score. */
  function Maximisers<T>(xs: seq<T>, f: T -> int): seq<T>
    requires |xs| > 0
  {
    Attaining(xs, f, MaxOf(xs, f))
  }

  /** One more element of xs: the running maximum and the elements attaining m. */
  lemma PrefixStep<T>(xs: seq<T>, f: T -> int, i: nat, m: int)
    requires 0 < i < |xs|
    ensures MaxOf(xs[..i + 1], f) == if f(xs[i]) > MaxOf(xs[..i], f) then f(xs[i]) else MaxOf(xs[..i], f)
    ensures Attaining(xs[..i + 1], f, m) == Attaining(xs[..i], f, m) + (if f(xs[i]) == m then [xs[i]] else [])
  {
    assert xs[..i + 1][..i] == xs[..i];
  }

  /** What `argMin` returns: the elements of minimal score. */
  function Minimisers<T>(xs: seq<T>, f: T -> int): seq<T>
    requires |xs| > 0
  {
    Attaining(xs, f, MinOf(xs, f))
  }

  /**
   * `argMax(iterable, fn)`: the first element starts the running maximum;
   * each later element equal to it is kept, a larger one restarts the list.
   */
  method ArgMax<T>(xs: seq<T>, f: T -> int) returns (values: seq<T>)
    requires |xs| > 0
    ensures values == Maximisers(xs, f)
  {
    var max := f(xs[0]);
    values := [xs[0]];
    assert xs[..1] == [xs[0]];
    for i := 1 to |xs|
      invariant max == MaxOf(xs[..i], f)
      invariant values == Attaining(xs[..i], f, max)
    {
      var x := xs[i];
      var m := f(x);
      PrefixStep(xs, f, i, if m > max then m else max);
      if m == max {
        values := values + [x];
      } else if m > max {
        MaxOfBounds(xs[..i], f);
        AttainingNone(xs[..i], f, m);
        max := m;
        values := [x];
      }
    }
    assert xs[..|xs|] == xs;
  }

  /** `argMin(iterable, fn)`: `argMax` of the negated score. */
  method ArgMin<T>(xs: seq<T>, f: T -> int) returns (values: seq<T>)
    requires |xs| > 0
    ensures values == Minimisers(xs, f)
  {
    var negated := x => -f(x);
    values := ArgMax(xs, negated);
    NegatedMax(xs, f, negated);
    NegatedAttaining(xs, f, negated, MinOf(xs, f));
  }

  // ---------------------------------------------------------------------
  // Lemmas

  /** The maximum bounds every score and is the score of some element. */
  lemma {:induction false} MaxOfBounds<T>(xs: seq<T>, f: T -> int)
    requires |xs| > 0
    ensures forall x | x in xs :: f(x) <= MaxOf(xs, f)
    ensures exists x | x in xs :: f(x) == MaxOf(xs, f)
  {
    if |xs| > 1 {
      var init := xs[..|xs| - 1];
      MaxOfBounds(init, f);
      assert xs == init + [xs[|xs| - 1]];
      var w :| w in init && f(w) == MaxOf(init, f);
      assert w in xs;
    } else {
      assert xs[0] in xs;
    }
  }

  /** The minimum bounds every score from below and is the score of some element. */
  lemma {:induction false} MinOfBounds<T>(xs: seq<T>, f: T -> int)
    requires |xs| > 0
    ensures forall x | x in xs :: MinOf(xs, f) <= f(x)
    ensures exists x | x in xs :: f(x) == MinOf(xs, f)
  {
    if |xs| > 1 {
      var init := xs[..|xs| - 1];
      MinOfBounds(init, f);
      assert xs == init + [xs[|xs| - 1]];
      var w :| w in init && f(w) == MinOf(init, f);
      assert w in xs;
    } else {
      assert xs[0] in xs;
    }
  }

  /** Filtering by score m keeps exactly the elements scoring m. */
  lemma {:induction false} AttainingSpec<T>(xs: seq<T>, f: T -> int, m: int)
    ensures forall x :: x in Attaining(xs, f, m) <==> x in xs && f(x) == m
  {
    if xs != [] {
      var init := xs[..|xs| - 1];
      AttainingSpec(init, f, m);
      assert xs == init + [xs[|xs| - 1]];
    }
  }

  lemma KeptScore<T>(xs: seq<T>, f: T -> int, m: int, x: T)
    requires x in Attaining(xs, f, m)
    ensures x in xs && f(x) == m
  {
    AttainingSpec(xs, f, m);
  }

  /** No element reaches a score above all scores. */
  lemma AttainingNone<T>(xs: seq<T>, f: T -> int, m: int)
    requires forall x | x in xs :: f(x) < m
    ensures Attaining(xs, f, m) == []
  {
    AttainingSpec(xs, f, m);
  }

  /**
   * `argMax` returns exactly the elements of maximal score, and at least
   * one: nothing scores higher than what it keeps.
   */
  lemma MaximisersSpec<T>(xs: seq<T>, f: T -> int)
    requires |xs| > 0
    ensures forall x :: x in Maximisers(xs, f) <==> x in xs && f(x) == MaxOf(xs, f)
    ensures forall x, y | x in Maximisers(xs, f) && y in xs :: f(y) <= f(x)
    ensures |Maximisers(xs, f)| > 0
  {
    AttainingSpec(xs, f, MaxOf(xs, f));
    assert Maximisers(xs, f) == Attaining(xs, f, MaxOf(xs, f));
    MaxOfBounds(xs, f);
    var w :| w in xs && f(w) == MaxOf(xs, f);
    assert w in Maximisers(xs, f);
    forall x, y | x in Maximisers(xs, f) && y in xs
      ensures f(y) <= f(x)
    {
      KeptScore(xs, f, MaxOf(xs, f), x);
    }
  }

  /** `argMin` returns exactly the elements of minimal score, and at least one. */
  lemma MinimisersSpec<T>(xs: seq<T>, f: T -> int)
    requires |xs| > 0
    ensures forall x :: x in Minimisers(xs, f) <==> x in xs && f(x) == MinOf(xs, f)
    ensures forall x, y | x in Minimisers(xs, f) && y in xs :: f(x) <= f(y)
    ensures |Minimisers(xs, f)| > 0
  {
    AttainingSpec(xs, f, MinOf(xs, f));
    assert Minimisers(xs, f) == Attaining(xs, f, MinOf(xs, f));
    MinOfBounds(xs, f);
    var w :| w in xs && f(w) == MinOf(xs, f);
    assert w in Minimisers(xs, f);
    forall x, y | x in Minimisers(xs, f) && y in xs
      ensures f(x) <= f(y)
    {
      KeptScore(xs, f, MinOf(xs, f), x);
    }
  }

  lemma MaximisersNonEmpty<T>(xs: seq<T>, f: T -> int)
    requires |xs| > 0
    ensures |Maximisers(xs, f)| > 0
  {
    MaximisersSpec(xs, f);
  }

  lemma MinimisersNonEmpty<T>(xs: seq<T>, f: T -> int)
    requires |xs| > 0
    ensures |Minimisers(xs, f)| > 0
  {
    MinimisersSpec(xs, f);
  }

  /** Maximising the negated score is minimising the score. */
  lemma {:induction false} NegatedMax<T>(xs: seq<T>, f: T -> int, g: T -> int)
    requires |xs| > 0
    requires forall x :: g(x) == -f(x)
    ensures MaxOf(xs, g) == -MinOf(xs, f)
  {
    if |xs| > 1 {
      NegatedMax(xs[..|xs| - 1], f, g);
    }
  }

  lemma {:induction false} NegatedAttaining<T>(xs: seq<T>, f: T -> int, g: T -> int, m: int)
    requires forall x :: g(x) == -f(x)
    ensures Attaining(xs, g, -m) == Attaining(xs, f, m)
  {
    if xs != [] {
      NegatedAttaining(xs[..|xs| - 1], f, g, m);
    }
  }

  /**
   * One phase of a selection cascade: when a later phase proves P of every
   * maximiser, every element of the input either scores below the kept sp
   * or ties with it and satisfies P.
   */
  lemma MaxPhase<T>(xs: seq<T>, f: T -> int, sp: T, P: T -> bool)
    requires |xs| > 0
    requires sp in Maximisers(xs, f)
    requires forall c | c in Maximisers(xs, f) :: P(c)
    ensures forall c | c in xs :: f(c) < f(sp) || (f(c) == f(sp) && P(c))
  {
    MaximisersSpec(xs, f);
  }

  /** The same for a phase that keeps the minimisers. */
  lemma MinPhase<T>(xs: seq<T>, f: T -> int, sp: T, P: T -> bool)
    requires |xs| > 0
    requires sp in Minimisers(xs, f)
    requires forall c | c in Minimisers(xs, f) :: P(c)
    ensures forall c | c in xs :: f(sp) < f(c) || (f(c) == f(sp) && P(c))
  {
    MinimisersSpec(xs, f);
  }

  // ---------------------------------------------------------------------
  // Pair sums, the shape of the scores that compare every pair of notes

  /** The sum of g(x, y) over the elements y of s. */
  function RowSum<T>(x: T, s: seq<T>, g: (T, T) -> int): int
  {
    if s == [] then 0 else RowSum(x, s[..|s| - 1], g) + g(x, s[|s| - 1])
  }

  /** The sum of g(xs[i], xs[j]) over all pairs of positions i < j. */
  function PairSum<T>(xs: seq<T>, g: (T, T) -> int): int
  {
    if xs == [] then 0 else RowSum(xs[0], xs[1..], g) + PairSum(xs[1..], g)
  }

  /**
   * The nested loops of the pair scores of scales.js: for each i, adds
   * g(N[i], N[j]) for every later j.
   */
  method PairTotal<T>(N: seq<T>, g: (T, T) -> int) returns (sum: int)
    ensures sum == PairSum(N, g)
  {
    sum := 0;
    var i := 0;
    while i < |N| - 1
      invariant 0 <= i <= |N|
      invariant sum + PairSum(N[i..], g) == PairSum(N, g)
    {
      ghost var before := sum;
      var j := i + 1;
      while j < |N|
        invariant i + 1 <= j <= |N|
        invariant sum == before + RowSum(N[i], N[i + 1..j], g)
      {
        sum := sum + g(N[i], N[j]);
        assert N[i + 1..j + 1][..j - i - 1] == N[i + 1..j];
        j := j + 1;
      }
      assert N[i..][1..] == N[i + 1..j];
      i := i + 1;
    }
    assert |N[i..]| <= 1;
  }

  /** The pair sum of three elements, term by term. */
  lemma PairSumOfThree<T>(x: T, y: T, z: T, g: (T, T) -> int)
    ensures PairSum([x, y, z], g) == g(x, y) + g(x, z) + g(y, z)
  {
    assert [x, y, z][1..] == [y, z] && [y, z][1..] == [z] && [z][1..] == [];
    assert [y, z][..1] == [y] && [y][..0] == [] && [z][..0] == [];
    assert RowSum(x, [y], g) == RowSum(x, [], g) + g(x, y);
    assert RowSum(x, [y, z], g) == RowSum(x, [y], g) + g(x, z);
    assert RowSum(y, [z], g) == g(y, z);
    assert PairSum([z], g) == 0;
    assert PairSum([y, z], g) == g(y, z);
  }

  /** Extending a row by one element adds that element's term. */
  lemma RowSumSnoc<T>(x: T, s: seq<T>, y: T, g: (T, T) -> int)
    ensures RowSum(x, s + [y], g) == RowSum(x, s, g) + g(x, y)
  {
    assert (s + [y])[..|s|] == s;
  }

  /** Extending a row by the next element of a sequence adds that element's term. */
  lemma RowSumNext<T>(x: T, s: seq<T>, i: nat, j: nat, g: (T, T) -> int)
    requires i <= j < |s|
    ensures RowSum(x, s[i..j + 1], g) == RowSum(x, s[i..j], g) + g(x, s[j])
  {
    assert s[i..j + 1] == s[i..j] + [s[j]];
    RowSumSnoc(x, s[i..j], s[j], g);
  }

  /** A row of non-negative terms sums to zero exactly when every term is zero. */
  lemma {:induction false} RowSumZero<T>(x: T, s: seq<T>, g: (T, T) -> int)
    requires forall a, b :: g(a, b) >= 0
    ensures RowSum(x, s, g) >= 0
    ensures RowSum(x, s, g) == 0 <==> forall j | 0 <= j < |s| :: g(x, s[j]) == 0
  {
    if s != [] {
      var init := s[..|s| - 1];
      RowSumZero(x, init, g);
      assert forall j | 0 <= j < |init| :: init[j] == s[j];
    }
  }

  /** A pair sum of non-negative terms is non-negative, and zero exactly when every pair scores zero. */
  lemma {:induction false} PairSumZero<T>(xs: seq<T>, g: (T, T) -> int)
    requires forall a, b :: g(a, b) >= 0
    ensures PairSum(xs, g) >= 0
    ensures PairSum(xs, g) == 0 <==> forall i, j | 0 <= i < j < |xs| :: g(xs[i], xs[j]) == 0
  {
    if xs != [] {
      var rest := xs[1..];
      PairSumZero(rest, g);
      RowSumZero(xs[0], rest, g);
      if PairSum(xs, g) == 0 {
        forall i, j | 0 <= i < j < |xs|
          ensures g(xs[i], xs[j]) == 0
        {
          if i == 0 {
            assert xs[j] == rest[j - 1];
          } else {
            assert xs[i] == rest[i - 1] && xs[j] == rest[j - 1];
          }
        }
      }
      if forall i, j | 0 <= i < j < |xs| :: g(xs[i], xs[j]) == 0 {
        forall j | 0 <= j < |rest|
          ensures g(xs[0], rest[j]) == 0
        {
          assert rest[j] == xs[j + 1];
        }
        forall i, j | 0 <= i < j < |rest|
          ensures g(rest[i], rest[j]) == 0
        {
          assert rest[i] == xs[i + 1] && rest[j] == xs[j + 1];
        }
      }
    }
  }

  /** Two rows whose terms agree one by one have the same sum. */
  lemma {:induction false} RowSumAgree<T, U>(x: T, s: seq<T>, g: (T, T) -> int, y: U, t: seq<U>, h: (U, U) -> int)
    requires |s| == |t|
    requires forall j | 0 <= j < |s| :: g(x, s[j]) == h(y, t[j])
    ensures RowSum(x, s, g) == RowSum(y, t, h)
  {
    if s != [] {
      RowSumAgree(x, s[..|s| - 1], g, y, t[..|t| - 1], h);
    }
  }

  /** Two sequences whose pair terms agree position by position have the same pair sum. */
  lemma {:induction false} PairSumAgree<T, U>(xs: seq<T>, g: (T, T) -> int, ys: seq<U>, h: (U, U) -> int)
    requires |xs| == |ys|
    requires forall i, j | 0 <= i < j < |xs| :: g(xs[i], xs[j]) == h(ys[i], ys[j])
    ensures PairSum(xs, g) == PairSum(ys, h)
  {
    if xs != [] {
      forall j | 0 <= j < |xs| - 1
        ensures g(xs[0], xs[1..][j]) == h(ys[0], ys[1..][j])
      {
        assert xs[1..][j] == xs[j + 1] && ys[1..][j] == ys[j + 1];
      }
      RowSumAgree(xs[0], xs[1..], g, ys[0], ys[1..], h);
      forall i, j | 0 <= i < j < |xs| - 1
        ensures g(xs[1..][i], xs[1..][j]) == h(ys[1..][i], ys[1..][j])
      {
        assert xs[1..][i] == xs[i + 1] && ys[1..][i] == ys[i + 1];
        assert xs[1..][j] == xs[j + 1] && ys[1..][j] == ys[j + 1];
      }
      PairSumAgree(xs[1..], g, ys[1..], h);
    }
  }
}
