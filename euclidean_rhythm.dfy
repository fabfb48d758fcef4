/**
 * Euclidean rhythms (euclidean-rhythm/euclidean-rhythm.js): Bjorklund's
 * procedure that spreads k onsets as evenly as possible over n steps, and
 * the two read-outs of a rhythm, its inter-onset distances and its onset
 * positions.
 */
module EuclideanRhythms {
  import opened Wrappers

  /** One step of a rhythm: 1 is an onset, 0 a rest. */
  type Step = b: int | 0 <= b <= 1

  /** A group of steps that the procedure moves around as a unit. */
  type Group = seq<Step>

  /** `[...gs].flat()`: the groups laid end to end. */
  function Flatten(gs: seq<Group>): seq<Step>
  {
    if gs == [] then [] else gs[0] + Flatten(gs[1..])
  }

  /** `new Array(n).fill(v)`. */
  function Repeat(v: Step, n: nat): (r: seq<Step>)
    ensures |r| == n
  {
    if n == 0 then [] else [v] + Repeat(v, n - 1)
  }

  /** `new Array(n).fill([v])`: n one-step groups. */
  function Singles(v: Step, n: nat): seq<Group>
  {
    if n == 0 then [] else [[v]] + Singles(v, n - 1)
  }

  /** `a.map((x, i) => x.concat(b[i]))` over the first m groups of each list. */
  function Zip(a: seq<Group>, b: seq<Group>, m: nat): (r: seq<Group>)
    requires m <= |a| && m <= |b|
    ensures |r| == m
  {
    seq(m, i requires 0 <= i < m => a[i] + b[i])
  }

  /**
   * One pass of the do-while body: the first min(|a|, |b|) groups of `a`
   * each take the matching group of `b`; what is left of the longer list
   * becomes the new `b`.
   */
  function Pass(a: seq<Group>, b: seq<Group>): (seq<Group>, seq<Group>)
  {
    if |a| < |b| then (Zip(a, b, |a|), b[|a|..])
    else (Zip(a, b, |b|), a[|b|..])
  }

  /**
   * The do-while loop run to its end: passes until at most one remainder
   * group is left.  Groups are only ever joined, so it ends with at least
   * one group and no more than it started with.
   */
  function Distribute(a: seq<Group>, b: seq<Group>): (r: seq<Group>)
    requires |a| >= 1 && |b| >= 1
    decreases |a| + |b|
    ensures 1 <= |r| <= |a| + |b|
  {
    var (a', b') := Pass(a, b);
    PassKeepsSteps(a, b);
    if |b'| > 1 then Distribute(a', b') else a' + b'
  }

  /** `euclideanRhythm(k, n)`: the rhythm, or the error the source throws unless 0 <= k <= n and n > 0. */
  function Rhythm(k: int, n: int): (r: Result<seq<Step>>)
    ensures r.Success? <==> 0 <= k <= n && n > 0
  {
    if n <= 0 then Failure("n must be positive")
    else if k < 0 then Failure("k must not be negative")
    else if k > n then Failure("k must be less than or equal to n")
    else if k == 0 then Success(Repeat(0, n))
    else if k == n then Success(Repeat(1, n))
    else Success(Flatten(Distribute(Singles(1, k), Singles(0, n - k))))
  }

  /** `euclideanRhythm(k, n)`, with the do-while loop that regroups `A` and `B`. */
  method EuclideanRhythm(k: int, n: int) returns (r: Result<seq<Step>>)
    ensures r == Rhythm(k, n)
  {
    if n <= 0 {
      return Failure("n must be positive");
    }
    if k < 0 {
      return Failure("k must not be negative");
    }
    if k > n {
      return Failure("k must be less than or equal to n");
    }
    if k == 0 {
      return Success(Repeat(0, n));
    }
    if k == n {
      return Success(Repeat(1, n));
    }
    var a, b := Singles(1, k), Singles(0, n - k);
    SinglesLength(1, k);
    SinglesLength(0, n - k);
    ghost var whole := Distribute(a, b);
    while true
      invariant |a| >= 1 && |b| >= 1
      invariant Distribute(a, b) == whole
      decreases |a| + |b|
    {
      if |a| < |b| {
        a, b := Zip(a, b, |a|), b[|a|..];
      } else {
        a, b := Zip(a, b, |b|), a[|b|..];
      }
      if |b| <= 1 {
        break;
      }
    }
    return Success(Flatten(a + b));
  }

  // ---------------------------------------------------------------------
  // How many onsets and rests the rhythm holds

  lemma {:induction false} SinglesLength(v: Step, n: nat)
    ensures |Singles(v, n)| == n
  {
    if n > 0 {
      SinglesLength(v, n - 1);
    }
  }

  lemma {:induction false} FlattenConcat(s: seq<Group>, t: seq<Group>)
    ensures Flatten(s + t) == Flatten(s) + Flatten(t)
  {
    if s == [] {
      assert s + t == t;
    } else {
      assert (s + t)[1..] == s[1..] + t;
      FlattenConcat(s[1..], t);
    }
  }

  lemma {:induction false} FlattenSingles(v: Step, n: nat)
    ensures Flatten(Singles(v, n)) == Repeat(v, n)
  {
    if n > 0 {
      assert Singles(v, n)[1..] == Singles(v, n - 1);
      FlattenSingles(v, n - 1);
    }
  }

  lemma {:induction false} RepeatBag(v: Step, n: nat)
    ensures multiset(Repeat(v, n)) == multiset{}[v := n]
  {
    if n > 0 {
      RepeatBag(v, n - 1);
    }
  }

  /** Pairing groups keeps every step: the zipped groups hold exactly the steps of both prefixes. */
  lemma {:induction false} ZipBag(a: seq<Group>, b: seq<Group>, m: nat)
    requires m <= |a| && m <= |b|
    ensures multiset(Flatten(Zip(a, b, m))) == multiset(Flatten(a[..m])) + multiset(Flatten(b[..m]))
  {
    if m > 0 {
      var z := Zip(a, b, m);
      assert z[0] == a[0] + b[0];
      assert z[1..] == Zip(a[1..], b[1..], m - 1);
      ZipBag(a[1..], b[1..], m - 1);
      assert a[..m][1..] == a[1..][..m - 1];
      assert b[..m][1..] == b[1..][..m - 1];
    }
  }

  /** A list of groups is its first m groups followed by the rest. */
  lemma SplitBag(a: seq<Group>, m: nat)
    requires m <= |a|
    ensures multiset(Flatten(a)) == multiset(Flatten(a[..m])) + multiset(Flatten(a[m..]))
  {
    assert a == a[..m] + a[m..];
    FlattenConcat(a[..m], a[m..]);
  }

  /** One pass keeps every step and removes min(|a|, |b|) groups. */
  lemma PassKeepsSteps(a: seq<Group>, b: seq<Group>)
    ensures multiset(Flatten(Pass(a, b).0)) + multiset(Flatten(Pass(a, b).1))
         == multiset(Flatten(a)) + multiset(Flatten(b))
    ensures |Pass(a, b).0| + |Pass(a, b).1| == |a| + |b| - (if |a| < |b| then |a| else |b|)
  {
    if |a| < |b| {
      ZipBag(a, b, |a|);
      assert a[..|a|] == a;
      SplitBag(b, |a|);
    } else {
      ZipBag(a, b, |b|);
      assert b[..|b|] == b;
      SplitBag(a, |b|);
    }
  }

  /** The whole loop keeps every step of its input groups. */
  lemma {:induction false} DistributeKeepsSteps(a: seq<Group>, b: seq<Group>)
    requires |a| >= 1 && |b| >= 1
    decreases |a| + |b|
    ensures multiset(Flatten(Distribute(a, b))) == multiset(Flatten(a)) + multiset(Flatten(b))
  {
    var (a', b') := Pass(a, b);
    PassKeepsSteps(a, b);
    if |b'| > 1 {
      DistributeKeepsSteps(a', b');
    } else {
      FlattenConcat(a', b');
    }
  }

  /**
   * For every valid k and n the rhythm has n steps, exactly k of them
   * onsets and n - k of them rests.
   */
  lemma RhythmCounts(k: int, n: int)
    requires 0 <= k <= n && n > 0
    ensures Rhythm(k, n).Success?
    ensures |Rhythm(k, n).value| == n
    ensures multiset(Rhythm(k, n).value)[1] == k
    ensures multiset(Rhythm(k, n).value)[0] == n - k
  {
    if k == 0 {
      RepeatBag(0, n);
    } else if k == n {
      RepeatBag(1, n);
    } else {
      var r := Rhythm(k, n).value;
      var ones, rests := Repeat(1, k), Repeat(0, n - k);
      SinglesLength(1, k);
      SinglesLength(0, n - k);
      FlattenSingles(1, k);
      FlattenSingles(0, n - k);
      DistributeKeepsSteps(Singles(1, k), Singles(0, n - k));
      assert multiset(r) == multiset(ones) + multiset(rests);
      assert |r| == |multiset(r)| == |multiset(ones)| + |multiset(rests)| == n;
      RepeatBag(1, k);
      RepeatBag(0, n - k);
    }
  }

  /** The three argument errors, checked in the source's order. */
  lemma RhythmErrors(k: int, n: int)
    ensures Rhythm(k, n).Failure? <==> n <= 0 || k < 0 || k > n
    ensures n <= 0 ==> Rhythm(k, n) == Failure("n must be positive")
    ensures n > 0 && k < 0 ==> Rhythm(k, n) == Failure("k must not be negative")
    ensures n > 0 && 0 <= k && k > n ==> Rhythm(k, n) == Failure("k must be less than or equal to n")
  {
  }

  /** E(0, n) is all rests and E(n, n) all onsets. */
  lemma {:induction false} RhythmExtremes(n: nat)
    requires n > 0
    ensures Rhythm(0, n) == Success(Repeat(0, n))
    ensures Rhythm(n, n) == Success(Repeat(1, n))
    ensures forall i :: 0 <= i < n ==> Repeat(0, n)[i] == 0 && Repeat(1, n)[i] == 1
  {
    RepeatBag(0, n);
    RepeatBag(1, n);
    forall i | 0 <= i < n
      ensures Repeat(0, n)[i] == 0 && Repeat(1, n)[i] == 1
    {
      assert Repeat(0, n)[i] in multiset(Repeat(0, n));
      assert Repeat(1, n)[i] in multiset(Repeat(1, n));
    }
  }

  // ---------------------------------------------------------------------
  // Onsets and inter-onset distances

  /** `subsets(rhythm)` as a specification: the positions of the onsets, in order. */
  function Onsets(r: seq<Step>): seq<nat>
  {
    if r == [] then []
    else Onsets(r[..|r| - 1]) + (if r[|r| - 1] == 1 then [|r| - 1] else [])
  }

  /** `subsets(rhythm)`: the loop that collects the onset indices. */
  method Subsets(rhythm: seq<Step>) returns (result: seq<nat>)
    ensures result == Onsets(rhythm)
  {
    result := [];
    for i := 0 to |rhythm|
      invariant result == Onsets(rhythm[..i])
    {
      assert rhythm[..i + 1][..i] == rhythm[..i];
      if rhythm[i] == 1 {
        result := result + [i];
      }
    }
    assert rhythm[..|rhythm|] == rhythm;
  }

  /** The onsets are exactly the positions holding 1, in strictly increasing order. */
  lemma {:induction false} OnsetsSpec(r: seq<Step>)
    ensures forall i :: i in Onsets(r) <==> 0 <= i < |r| && r[i] == 1
    ensures forall j, l :: 0 <= j < l < |Onsets(r)| ==> Onsets(r)[j] < Onsets(r)[l]
    ensures forall j :: 0 <= j < |Onsets(r)| ==> Onsets(r)[j] < |r|
  {
    if r != [] {
      var init := r[..|r| - 1];
      OnsetsSpec(init);
      forall i | 0 <= i < |init|
        ensures init[i] == r[i]
      {
      }
    }
  }

  /**
   * One step of `distanceSequence`: an onset opens a new distance of 1 and
   * a rest adds 1 to the latest one.  A rest before the first onset has no
   * distance to extend and changes nothing.
   */
  function Extend(d: seq<nat>, x: Step): seq<nat>
  {
    if x == 1 then d + [1]
    else if d == [] then []
    else d[..|d| - 1] + [d[|d| - 1] + 1]
  }

  /** `distanceSequence(rhythm)` as a specification: every step applied in order. */
  function Distances(r: seq<Step>): seq<nat>
  {
    if r == [] then [] else Extend(Distances(r[..|r| - 1]), r[|r| - 1])
  }

  /** `distanceSequence(rhythm)`: the loop that pushes or extends distances. */
  method DistanceSequence(rhythm: seq<Step>) returns (result: seq<nat>)
    ensures result == Distances(rhythm)
  {
    result := [];
    for i := 0 to |rhythm|
      invariant result == Distances(rhythm[..i])
    {
      assert rhythm[..i + 1][..i] == rhythm[..i];
      if rhythm[i] == 1 {
        result := result + [1];
      } else if |result| > 0 {
        result := result[|result| - 1 := result[|result| - 1] + 1];
      }
    }
    assert rhythm[..|rhythm|] == rhythm;
  }

  /** Where the distance that starts at onset j ends: the next onset, or the end of the rhythm. */
  function NextOnset(r: seq<Step>, j: nat): int
  {
    var o := Onsets(r);
    if j + 1 < |o| then o[j + 1] else |r|
  }

  /**
   * The distances are the gaps between consecutive onsets, the last one
   * running to the end of the rhythm: one distance per onset.
   */
  lemma {:induction false} DistancesAreGaps(r: seq<Step>)
    ensures |Distances(r)| == |Onsets(r)|
    ensures forall j :: 0 <= j < |Onsets(r)| ==> Distances(r)[j] == NextOnset(r, j) - Onsets(r)[j]
  {
    if r != [] {
      var init := r[..|r| - 1];
      DistancesAreGaps(init);
      var d, o := Distances(init), Onsets(init);
      forall j | 0 <= j < |Onsets(r)|
        ensures Distances(r)[j] == NextOnset(r, j) - Onsets(r)[j]
      {
        if j + 1 < |o| {
          assert NextOnset(r, j) == NextOnset(init, j);
        }
      }
    }
  }

  function Sum(d: seq<nat>): nat
  {
    if d == [] then 0 else Sum(d[..|d| - 1]) + d[|d| - 1]
  }

  /** Extending the distances by one step adds one to their sum, unless there is nothing to extend. */
  lemma ExtendSum(d: seq<nat>, x: Step)
    ensures Sum(Extend(d, x)) == if x == 0 && d == [] then 0 else Sum(d) + 1
  {
    if x == 1 {
      assert (d + [1])[..|d|] == d;
    } else if d != [] {
      var d' := d[..|d| - 1] + [d[|d| - 1] + 1];
      assert d'[..|d'| - 1] == d[..|d| - 1];
    }
  }

  /** The distances add up to the span from the first onset to the end of the rhythm. */
  lemma {:induction false} DistancesSum(r: seq<Step>)
    ensures Sum(Distances(r)) == if |Onsets(r)| == 0 then 0 else |r| - Onsets(r)[0]
  {
    if r != [] {
      var init, x := r[..|r| - 1], r[|r| - 1];
      DistancesSum(init);
      DistancesAreGaps(init);
      ExtendSum(Distances(init), x);
      assert Distances(r) == Extend(Distances(init), x);
      assert Onsets(r) == Onsets(init) + (if x == 1 then [|init|] else []);
    }
  }

  /** A rhythm that starts with an onset has distances summing to its length. */
  lemma DistancesSumFromOnset(r: seq<Step>)
    requires |r| > 0 && r[0] == 1
    ensures Sum(Distances(r)) == |r|
  {
    DistancesSum(r);
    OnsetsSpec(r);
    assert 0 in Onsets(r);
  }

  // ---------------------------------------------------------------------
  // The examples of the source's tests

  /** Appending one step applies one `Extend`. */
  lemma DistancesSnoc(r: seq<Step>, x: Step)
    ensures Distances(r + [x]) == Extend(Distances(r), x)
  {
    assert (r + [x])[..|r|] == r;
  }
  /** One bar: an onset followed by n - 1 rests. */
  function Bar(n: nat): seq<Step>
    requires n >= 1
  {
    [1] + Repeat(0, n - 1)
  }

  /** A bar one step longer ends with one more rest. */
  lemma BarSnoc(p: seq<Step>, n: nat)
    requires n >= 2
    ensures p + Bar(n) == (p + Bar(n - 1)) + [0]
  {
    RepeatSnoc(0, n - 2);
  }

  /** A bar of n steps appended to any rhythm adds the single distance n. */
  lemma {:induction false} DistancesOfBar(p: seq<Step>, n: nat)
    requires n >= 1
    ensures Distances(p + Bar(n)) == Distances(p) + [n]
  {
    if n == 1 {
      assert Bar(1) == [1];
      DistancesSnoc(p, 1);
    } else {
      var q := p + Bar(n - 1);
      DistancesOfBar(p, n - 1);
      BarSnoc(p, n);
      DistancesSnoc(q, 0);
      var d := Distances(p) + [n - 1];
      assert Distances(q) == d;
      assert d[..|d| - 1] == Distances(p);
      assert Extend(d, 0) == Distances(p) + [n];
    }
  }

  /** A bar of n steps appended to any rhythm adds one onset, at the bar's start. */
  lemma {:induction false} OnsetsOfBar(p: seq<Step>, n: nat)
    requires n >= 1
    ensures Onsets(p + Bar(n)) == Onsets(p) + [|p|]
  {
    if n == 1 {
      assert Bar(1) == [1];
      OnsetsSnoc(p, 1);
    } else {
      OnsetsOfBar(p, n - 1);
      BarSnoc(p, n);
      OnsetsSnoc(p + Bar(n - 1), 0);
    }
  }

  lemma {:induction false} RepeatSnoc(v: Step, n: nat)
    ensures Repeat(v, n + 1) == Repeat(v, n) + [v]
  {
    if n > 0 {
      RepeatSnoc(v, n - 1);
    }
  }

  /** The example rhythm of the source's tests, bar by bar. */
  lemma ExampleBars(r: seq<Step>)
    requires r == [1, 0, 0, 1, 0, 0, 1, 0, 0, 0, 1, 0, 1, 0, 0, 0]
    ensures r == Bar(3) + Bar(3) + Bar(4) + Bar(2) + Bar(4)
  {
    assert Bar(2) == [1, 0];
    assert Bar(3) == [1, 0, 0];
    assert Bar(4) == [1, 0, 0, 0];
  }

  /** The distances of a rhythm made of bars of 3, 3, 4, 2 and 4 steps. */
  lemma DistancesOfExampleBars(b3: seq<Step>, b6: seq<Step>, b10: seq<Step>, b12: seq<Step>, r: seq<Step>)
    requires b3 == [] + Bar(3) && b6 == b3 + Bar(3) && b10 == b6 + Bar(4)
    requires b12 == b10 + Bar(2) && r == b12 + Bar(4)
    ensures Distances(r) == [3, 3, 4, 2, 4]
  {
    DistancesOfBar([], 3);
    DistancesOfBar(b3, 3);
    DistancesOfBar(b6, 4);
    DistancesOfBar(b10, 2);
    DistancesOfBar(b12, 4);
  }

  /** The onsets of a rhythm made of bars of 3, 3, 4, 2 and 4 steps. */
  lemma OnsetsOfExampleBars(b3: seq<Step>, b6: seq<Step>, b10: seq<Step>, b12: seq<Step>, r: seq<Step>)
    requires b3 == [] + Bar(3) && b6 == b3 + Bar(3) && b10 == b6 + Bar(4)
    requires b12 == b10 + Bar(2) && r == b12 + Bar(4)
    ensures Onsets(r) == [0, 3, 6, 10, 12]
  {
    OnsetsOfBar([], 3);
    OnsetsOfBar(b3, 3);
    OnsetsOfBar(b6, 4);
    OnsetsOfBar(b10, 2);
    OnsetsOfBar(b12, 4);
  }

  /** The distance-sequence example of the source's tests. */
  lemma DistanceSequenceExample(r: seq<Step>)
    requires r == [1, 0, 0, 1, 0, 0, 1, 0, 0, 0, 1, 0, 1, 0, 0, 0]
    ensures Distances(r) == [3, 3, 4, 2, 4]
  {
    ExampleBars(r);
    var b3 := [] + Bar(3);
    DistancesOfExampleBars(b3, b3 + Bar(3), b3 + Bar(3) + Bar(4), b3 + Bar(3) + Bar(4) + Bar(2), r);
  }

  /** The subset-notation example of the source's tests. */
  lemma SubsetsExample(r: seq<Step>)
    requires r == [1, 0, 0, 1, 0, 0, 1, 0, 0, 0, 1, 0, 1, 0, 0, 0]
    ensures Onsets(r) == [0, 3, 6, 10, 12]
  {
    ExampleBars(r);
    var b3 := [] + Bar(3);
    OnsetsOfExampleBars(b3, b3 + Bar(3), b3 + Bar(3) + Bar(4), b3 + Bar(3) + Bar(4) + Bar(2), r);
  }

  lemma FlattenThree(x: Group, y: Group, z: Group)
    ensures Flatten([x, y, z]) == x + y + z
  {
    assert [z][1..] == [];
    assert Flatten([z]) == z + [] == z;
    assert [y, z][1..] == [z];
    assert Flatten([y, z]) == y + z;
    assert [x, y, z][1..] == [y, z];
    assert Flatten([x, y, z]) == x + (y + z);
    assert x + (y + z) == x + y + z;
  }

  /** Toussaint's E(3, 8), the tresillo, as listed in the source's tests. */
  lemma TresilloExample()
    ensures Rhythm(3, 8) == Success([1, 0, 0, 1, 0, 0, 1, 0])
  {
    var a0: seq<Group>, b0: seq<Group> := [[1], [1], [1]], [[0], [0], [0], [0], [0]];
    var a1: seq<Group>, b1: seq<Group> := [[1, 0], [1, 0], [1, 0]], [[0], [0]];
    var a2: seq<Group>, b2: seq<Group> := [[1, 0, 0], [1, 0, 0]], [[1, 0]];
    assert Singles(1, 3) == a0;
    assert Singles(0, 5) == b0;
    assert Zip(a0, b0, 3) == a1 by {
      assert Zip(a0, b0, 3)[0] == a1[0] && Zip(a0, b0, 3)[1] == a1[1] && Zip(a0, b0, 3)[2] == a1[2];
    }
    assert b0[3..] == b1;
    assert Zip(a1, b1, 2) == a2 by {
      assert Zip(a1, b1, 2)[0] == a2[0] && Zip(a1, b1, 2)[1] == a2[1];
    }
    assert a1[2..] == b2;
    assert Distribute(a0, b0) == a2 + b2;
    assert a2 + b2 == [a2[0], a2[1], b2[0]];
    FlattenThree(a2[0], a2[1], b2[0]);
    assert Rhythm(3, 8) == Success(Flatten(Distribute(a0, b0)));
    assert a2[0] + a2[1] + b2[0] == [1, 0, 0, 1, 0, 0, 1, 0];
  }

  /** Appending one step adds its position if it is an onset. */
  lemma OnsetsSnoc(r: seq<Step>, x: Step)
    ensures Onsets(r + [x]) == Onsets(r) + (if x == 1 then [|r|] else [])
  {
    assert (r + [x])[..|r|] == r;
  }

  /** The first pass of the loop for E(5, 12): five pairs, two zeros left. */
  lemma FiveOfTwelveFirstPass()
    ensures Distribute(Singles(1, 5), Singles(0, 7))
         == Distribute([[1, 0], [1, 0], [1, 0], [1, 0], [1, 0]], [[0], [0]])
  {
    var a0: seq<Group>, b0: seq<Group> := [[1], [1], [1], [1], [1]], [[0], [0], [0], [0], [0], [0], [0]];
    var a1: seq<Group>, b1: seq<Group> := [[1, 0], [1, 0], [1, 0], [1, 0], [1, 0]], [[0], [0]];
    assert Singles(1, 5) == a0;
    assert Singles(0, 7) == b0;
    assert Zip(a0, b0, 5) == a1 by {
      assert forall i | 0 <= i < 5 :: Zip(a0, b0, 5)[i] == a1[i];
    }
    assert b0[5..] == b1;
  }

  /** The last two passes of the loop for E(5, 12). */
  lemma FiveOfTwelveLastPasses()
    ensures Distribute([[1, 0], [1, 0], [1, 0], [1, 0], [1, 0]], [[0], [0]])
         == [[1, 0, 0, 1, 0], [1, 0, 0, 1, 0], [1, 0]]
  {
    var a1: seq<Group>, b1: seq<Group> := [[1, 0], [1, 0], [1, 0], [1, 0], [1, 0]], [[0], [0]];
    var a2: seq<Group>, b2: seq<Group> := [[1, 0, 0], [1, 0, 0]], [[1, 0], [1, 0], [1, 0]];
    var a3: seq<Group>, b3: seq<Group> := [[1, 0, 0, 1, 0], [1, 0, 0, 1, 0]], [[1, 0]];
    assert Zip(a1, b1, 2) == a2 by {
      assert Zip(a1, b1, 2)[0] == a2[0] && Zip(a1, b1, 2)[1] == a2[1];
    }
    assert a1[2..] == b2;
    assert Zip(a2, b2, 2) == a3 by {
      assert Zip(a2, b2, 2)[0] == a3[0] && Zip(a2, b2, 2)[1] == a3[1];
    }
    assert b2[2..] == b3;
    assert Distribute(a1, b1) == Distribute(a2, b2);
    assert Distribute(a2, b2) == a3 + b3;
  }

  /** The groups the loop ends with for E(5, 12). */
  lemma FiveOfTwelveGroups()
    ensures Distribute(Singles(1, 5), Singles(0, 7)) == [[1, 0, 0, 1, 0], [1, 0, 0, 1, 0], [1, 0]]
  {
    FiveOfTwelveFirstPass();
    FiveOfTwelveLastPasses();
  }

  /** Between the two edge cases the rhythm is the three groups the loop ends with, joined. */
  lemma RhythmOfThreeGroups(k: int, n: int, x: Group, y: Group, z: Group)
    requires 0 < k < n
    requires Distribute(Singles(1, k), Singles(0, n - k)) == [x, y, z]
    ensures Rhythm(k, n) == Success(x + y + z)
  {
    FlattenThree(x, y, z);
  }

  /** Toussaint's E(5, 12), as listed in the source's tests. */
  lemma FiveOfTwelveExample()
    ensures Rhythm(5, 12) == Success([1, 0, 0, 1, 0, 1, 0, 0, 1, 0, 1, 0])
  {
    FiveOfTwelveGroups();
    RhythmOfThreeGroups(5, 12, [1, 0, 0, 1, 0], [1, 0, 0, 1, 0], [1, 0]);
    assert [1, 0, 0, 1, 0] + [1, 0, 0, 1, 0] + [1, 0] == [1, 0, 0, 1, 0, 1, 0, 0, 1, 0, 1, 0];
  }

  /** Toussaint's E(2, 5), one pass of the loop. */
  lemma TwoOfFiveExample()
    ensures Rhythm(2, 5) == Success([1, 0, 1, 0, 0])
  {
    var a0: seq<Group>, b0: seq<Group> := [[1], [1]], [[0], [0], [0]];
    var a1: seq<Group>, b1: seq<Group> := [[1, 0], [1, 0]], [[0]];
    assert Singles(1, 2) == a0;
    assert Singles(0, 3) == b0;
    assert Zip(a0, b0, 2) == a1 by {
      assert Zip(a0, b0, 2)[0] == a1[0] && Zip(a0, b0, 2)[1] == a1[1];
    }
    assert b0[2..] == b1;
    assert Distribute(a0, b0) == a1 + b1;
    assert Rhythm(2, 5) == Success(Flatten(Distribute(a0, b0)));
    assert a1 + b1 == [a1[0], a1[1], b1[0]];
    FlattenThree(a1[0], a1[1], b1[0]);
    assert a1[0] + a1[1] + b1[0] == [1, 0, 1, 0, 0];
  }
}
