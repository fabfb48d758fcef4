/**
 * The scale speller of src/guitar-scales/scale.js (and of its earlier copy
 * scale.js, which differs only in spelling `augmentedDiminished` as
 * `augmentedDimished`): every way of spelling the pitch classes of a scale
 * is generated, then five scores narrow the candidates down, after Bora,
 * Tezel and Vahaplar (2018).
 *
 * As in the code, the speller takes its pitch classes from `getPitchClass`,
 * which is -1 for C flat and -2 for C double flat.  `CorrectedSpellScale`
 * is the same speller over the 0..11 pitch class `PitchClass`.
 */
module Scale {
  import opened Wrappers
  import opened JsBuiltins
  import opened Pitches
  import opened Selection

  // ---------------------------------------------------------------------
  // Candidates

  /**
   * `combinations(pitches, initial)`: for each spelling of the first pitch
   * class, in table order, every candidate that continues with it.
   */
  function Combinations(pcs: seq<int>, initial: seq<Pitch>): seq<seq<Pitch>>
    requires forall k | 0 <= k < |pcs| :: 0 <= pcs[k] < 12
    decreases |pcs|, 1, 0
  {
    if |pcs| == 0 then [initial]
    else Extensions(ListPitchClass(pcs[0]), pcs[1..], initial)
  }

  /** The loop of `combinations`: the candidates that continue `initial` with each of `choices` in turn. */
  function Extensions(choices: seq<Pitch>, rest: seq<int>, initial: seq<Pitch>): seq<seq<Pitch>>
    requires forall k | 0 <= k < |rest| :: 0 <= rest[k] < 12
    decreases |rest| + 1, 0, |choices|
  {
    if choices == [] then []
    else Combinations(rest, initial + [choices[0]]) + Extensions(choices[1..], rest, initial)
  }

  /** c continues `initial` with one spelling of each pitch class of pcs, in order. */
  predicate Extends(c: seq<Pitch>, pcs: seq<int>, initial: seq<Pitch>)
  {
    |c| == |initial| + |pcs| && c[..|initial|] == initial
    && forall i | |initial| <= i < |c| :: Spells(c[i], pcs[i - |initial|])
  }

  /** p is a recognised pitch of pitch class pc: one of those `listPitchClass(pc)` gives. */
  predicate Spells(p: Pitch, pc: int)
  {
    p.Valid() && p.PitchClass() == pc
  }

  /**
   * What `spellScale` needs not to throw: a recognised root unless the
   * scale is empty (the root's pitch class is read once per step only),
   * and no step whose sum with `root.getPitchClass()` leaves a negative
   * remainder, for which `listPitchClass` has no row.  A negative multiple
   * of 12 leaves `-0`, which reads row 0.
   */
  predicate Transposable(scale: seq<int>, root: Pitch)
  {
    (|scale| > 0 ==> root.Valid())
    && forall k | 0 <= k < |scale| :: RemNotNegative(root.GetPitchClass() + scale[k], 12)
  }

  /**
   * The scale's pitch classes moved up to the root as written:
   * `(root.getPitchClass() + pitchClass) % 12` for each step.
   */
  function Transposed(scale: seq<int>, root: Pitch): (pcs: seq<int>)
    requires Transposable(scale, root)
  {
    seq(|scale|, k requires 0 <= k < |scale| => JsRemOf12(root.GetPitchClass() + scale[k]))
  }

  /** JavaScript's `a % 12` where it is not negative: the remainder in 0..11. */
  function JsRemOf12(a: int): (r: int)
    requires RemNotNegative(a, 12)
    ensures 0 <= r < 12 && r == a % 12
  {
    JsRemAgrees(a, 12);
    JsRem(a, 12)
  }

  /** The corrected transposition: root and step taken modulo 12 into 0..11, for every step. */
  function CorrectedTransposed(scale: seq<int>, root: Pitch): (pcs: seq<int>)
    requires root.Valid()
  {
    seq(|scale|, k requires 0 <= k < |scale| => (root.PitchClass() + scale[k]) % 12)
  }

  /** The candidates `spellScale` starts from: the spellings of the transposed scale after the root. */
  function Candidates(scale: seq<int>, root: Pitch): seq<seq<Pitch>>
    requires Transposable(scale, root)
  {
    Combinations(Transposed(scale, root), [root])
  }

  /** The candidates of the corrected speller. */
  function CorrectedCandidates(scale: seq<int>, root: Pitch): seq<seq<Pitch>>
    requires root.Valid()
  {
    Combinations(CorrectedTransposed(scale, root), [root])
  }

  // ---------------------------------------------------------------------
  // Scores

  /** One when two pitches share a letter. */
  function SameLetter(x: Pitch, y: Pitch): int
  {
    if x.GetLetter() == y.GetLetter() then 1 else 0
  }

  /**
   * What `uniqueLetters` measures: the length less the number of pairs that
   * share a letter, so never more than the length.
   */
  function UniqueLetters(N: seq<Pitch>): (r: int)
    ensures r <= |N|
  {
    PairSumZero(N, SameLetter);
    |N| - PairSum(N, SameLetter)
  }

  /** `uniqueLetters(N)`: counts the same-letter pairs i < j in two nested loops. */
  method MeasureUniqueLetters(N: seq<Pitch>) returns (r: int)
    ensures r == UniqueLetters(N)
  {
    var sum := 0;
    var i := 0;
    while i < |N| - 1
      invariant 0 <= i <= |N|
      invariant sum + PairSum(N[i..], SameLetter) == PairSum(N, SameLetter)
    {
      ghost var before := sum;
      var j := i + 1;
      while j < |N|
        invariant i + 1 <= j <= |N|
        invariant sum == before + RowSum(N[i], N[i + 1..j], SameLetter)
      {
        if N[i].GetLetter() == N[j].GetLetter() {
          sum := sum + 1;
        }
        assert N[i + 1..j + 1][..j - i - 1] == N[i + 1..j];
        j := j + 1;
      }
      assert N[i..][1..] == N[i + 1..j];
      i := i + 1;
    }
    assert |N[i..]| <= 1;
    r := |N| - sum;
  }

  /** The letter distance `dc` from y up to x, 0..6. */
  function LetterSteps(ci: int, cj: int): int
  {
    if ci >= cj then ci - cj else ci - cj + 7
  }

  /** The semitone distance `ds` from y up to x, 0..11. */
  function Semitones(si: int, sj: int): int
  {
    if si >= sj then si - sj else si - sj + 12
  }

  /**
   * The penalty of an interval of dc letters and ds semitones: one for a
   * unison of letters, otherwise how far ds lies outside the diatonic
   * sizes for dc.
   */
  function Penalty(dc: int, ds: int): (p: int)
    ensures p >= 0
  {
    if dc == 0 then 1
    else if (dc == 1 || dc == 2) && ds > 2 * dc then ds - 2 * dc
    else if (dc == 1 || dc == 2 || dc == 3 || dc == 4) && ds < 2 * dc - 1 then 2 * dc - 1 - ds
    else if (dc == 3 || dc == 4 || dc == 5 || dc == 6) && ds > 2 * dc - 1 then ds - 2 * dc + 1
    else if (dc == 5 || dc == 6) && ds < 2 * dc - 2 then 2 * dc - 2 - ds
    else 0
  }

  /**
   * The penalty of the interval from y up to x, with the semitones taken
   * from `getPitchClass` as written; candidates hold only recognised pitches.
   */
  function IntervalPenalty(x: Pitch, y: Pitch): (r: int)
    ensures r >= 0
    ensures !(x.Valid() && y.Valid()) ==> r == 0
    ensures x.Valid() && y.Valid() && x.GetLetter() == y.GetLetter() ==> r == 1
  {
    if x.Valid() && y.Valid() then
      Penalty(LetterSteps(x.GetLetter(), y.GetLetter()), Semitones(x.GetPitchClass(), y.GetPitchClass()))
    else 0
  }

  /** The penalty of the interval from y up to x over the 0..11 pitch classes. */
  function CorrectedIntervalPenalty(x: Pitch, y: Pitch): (r: int)
    ensures r >= 0
    ensures !(x.Valid() && y.Valid()) ==> r == 0
    ensures x.Valid() && y.Valid() && x.GetLetter() == y.GetLetter() ==> r == 1
  {
    if x.Valid() && y.Valid() then
      Penalty(LetterSteps(x.GetLetter(), y.GetLetter()), Semitones(x.PitchClass(), y.PitchClass()))
    else 0
  }

  /** What `augmentedDiminished` measures: the penalties of all pairs i < j, never negative. */
  function AugmentedDiminished(N: seq<Pitch>): (r: int)
    ensures r >= 0
  {
    PairSumZero(N, IntervalPenalty);
    PairSum(N, IntervalPenalty)
  }

  /** The same sum over the corrected penalties. */
  function CorrectedAugmentedDiminished(N: seq<Pitch>): (r: int)
    ensures r >= 0
  {
    PairSumZero(N, CorrectedIntervalPenalty);
    PairSum(N, CorrectedIntervalPenalty)
  }

  /** `augmentedDiminished(N)`: sums the penalties in two nested loops. */
  method MeasureAugmentedDiminished(N: seq<Pitch>) returns (r: int)
    requires forall k | 0 <= k < |N| :: N[k].Valid()
    ensures r == AugmentedDiminished(N)
  {
    var sum := 0;
    var i := 0;
    while i < |N| - 1
      invariant 0 <= i <= |N|
      invariant sum + PairSum(N[i..], IntervalPenalty) == PairSum(N, IntervalPenalty)
    {
      sum := AddRowPenalties(sum, N, i);
      assert N[i..][1..] == N[i + 1..];
      i := i + 1;
    }
    assert |N[i..]| <= 1;
    r := sum;
  }

  /** The inner loop of `augmentedDiminished`: adds the penalties of the intervals from every later note up to N[i]. */
  method AddRowPenalties(sum: int, N: seq<Pitch>, i: nat) returns (total: int)
    requires i < |N|
    requires forall k | 0 <= k < |N| :: N[k].Valid()
    ensures total == sum + RowSum(N[i], N[i + 1..], IntervalPenalty)
  {
    total := sum;
    var j := i + 1;
    while j < |N|
      invariant i + 1 <= j <= |N|
      invariant total == sum + RowSum(N[i], N[i + 1..j], IntervalPenalty)
    {
      RowSumNext(N[i], N, i + 1, j, IntervalPenalty);
      ghost var done := N[i + 1..j + 1];
      total := AddPenalty(total, N[i], N[j]);
      j := j + 1;
      assert N[i + 1..j] == done;
    }
    assert N[i + 1..j] == N[i + 1..];
  }

  /** The body of the inner loop of `augmentedDiminished`: adds the penalty of the interval from y up to x. */
  method AddPenalty(sum: int, x: Pitch, y: Pitch) returns (total: int)
    requires x.Valid() && y.Valid()
    ensures total == sum + IntervalPenalty(x, y)
  {
    total := sum;
    var ci := x.GetLetter();
    var cj := y.GetLetter();
    var dc := if ci >= cj then ci - cj else ci - cj + 7;
    var si := x.GetPitchClass();
    var sj := y.GetPitchClass();
    var ds := if si >= sj then si - sj else si - sj + 12;
    if dc == 0 {
      total := total + 1;
    } else if (dc == 1 || dc == 2) && ds > 2 * dc {
      total := total + ds - 2 * dc;
    } else if (dc == 1 || dc == 2 || dc == 3 || dc == 4) && ds < 2 * dc - 1 {
      total := total + 2 * dc - 1 - ds;
    } else if (dc == 3 || dc == 4 || dc == 5 || dc == 6) && ds > 2 * dc - 1 {
      total := total + ds - 2 * dc + 1;
    } else if (dc == 5 || dc == 6) && ds < 2 * dc - 2 {
      total := total + 2 * dc - 2 - ds;
    }
  }

  /** `naturals(N)`: how many pitches carry no accidental. */
  function Naturals(N: seq<Pitch>): int
  {
    if N == [] then 0
    else Naturals(N[..|N| - 1]) + (if N[|N| - 1].IsNatural() then 1 else 0)
  }

  /** `doubles(N)`: how many pitches carry a double flat or a double sharp. */
  function Doubles(N: seq<Pitch>): int
  {
    if N == [] then 0
    else Doubles(N[..|N| - 1]) + (if N[|N| - 1].IsDoubleFlat() || N[|N| - 1].IsDoubleSharp() then 1 else 0)
  }

  /**
   * Position i, read cyclically, is a sharp between two naturals a letter
   * apart: N[i] and N[i + 2] natural, one letter up, and N[i + 1] sharp.
   */
  predicate SharpBetween(N: seq<Pitch>, i: int)
    requires 0 <= i < |N|
  {
    N[i].IsNatural() && N[(i + 2) % |N|].IsNatural()
    && N[(i + 2) % |N|].GetLetter() - N[i].GetLetter() == 1
    && N[(i + 1) % |N|].IsSharp()
  }

  /** How many of the first k positions are sharps between naturals. */
  function BetweenUpTo(N: seq<Pitch>, k: int): int
    requires 0 <= k <= |N|
  {
    if k == 0 then 0 else BetweenUpTo(N, k - 1) + (if SharpBetween(N, k - 1) then 1 else 0)
  }

  /** What `between` measures. */
  function Between(N: seq<Pitch>): int
  {
    BetweenUpTo(N, |N|)
  }

  /** `between(N)`: counts the positions in one loop. */
  method MeasureBetween(N: seq<Pitch>) returns (r: int)
    ensures r == Between(N)
  {
    var sum := 0;
    for i := 0 to |N|
      invariant sum == BetweenUpTo(N, i)
    {
      if N[i].IsNatural() && N[(i + 2) % |N|].IsNatural()
        && N[(i + 2) % |N|].GetLetter() - N[i].GetLetter() == 1
        && N[(i + 1) % |N|].IsSharp()
      {
        sum := sum + 1;
      }
    }
    r := sum;
  }

  // ---------------------------------------------------------------------
  // The speller

  /** From the fifth phase on: no more sharps between naturals than s. */
  predicate FromPhase5(s: seq<Pitch>, c: seq<Pitch>)
  {
    Between(c) <= Between(s)
  }

  predicate FromPhase4(s: seq<Pitch>, c: seq<Pitch>)
  {
    Doubles(s) < Doubles(c) || (Doubles(c) == Doubles(s) && FromPhase5(s, c))
  }

  predicate FromPhase3(s: seq<Pitch>, c: seq<Pitch>)
  {
    Naturals(c) < Naturals(s) || (Naturals(c) == Naturals(s) && FromPhase4(s, c))
  }

  /** From the second phase on, with `score` the interval penalty sum the speller uses. */
  predicate FromPhase2(s: seq<Pitch>, c: seq<Pitch>, score: seq<Pitch> -> int)
  {
    score(s) < score(c) || (score(c) == score(s) && FromPhase3(s, c))
  }

  /**
   * s is at least as good a spelling as c under the five criteria taken in
   * turn: more unique letters, then fewer augmented or diminished
   * intervals as `score` counts them, more naturals, fewer doubles, more
   * sharps between naturals.
   */
  predicate AtLeastAsGood(s: seq<Pitch>, c: seq<Pitch>, score: seq<Pitch> -> int)
  {
    UniqueLetters(c) < UniqueLetters(s) || (UniqueLetters(c) == UniqueLetters(s) && FromPhase2(s, c, score))
  }

  /**
   * `spellScale(scale, root)`: the candidates narrowed by the five phases.
   * The answer spells the scale from the root, each note of the pitch
   * class `getPitchClass` gives the root plus the step, and no candidate
   * beats it under the penalties as written.
   */
  method SpellScale(scale: seq<int>, root: Pitch) returns (spelling: seq<Pitch>)
    requires Transposable(scale, root)
    ensures spelling in Candidates(scale, root)
    ensures |spelling| == |scale| + 1 && spelling[0] == root
    ensures forall i | 1 <= i < |spelling| ::
      spelling[i].Valid() && spelling[i].PitchClass() == (root.GetPitchClass() + scale[i - 1]) % 12
    ensures forall c | c in Candidates(scale, root) :: AtLeastAsGood(spelling, c, AugmentedDiminished)
  {
    var all := Candidates(scale, root);
    CombinationsNonEmpty(Transposed(scale, root), [root]);
    spelling := Narrow(all, AugmentedDiminished);
    CandidatesSpec(scale, root);
  }

  /**
   * The speller over the corrected pitch classes: defined for every step,
   * each note of the root's 0..11 pitch class plus the step, modulo 12, and
   * no candidate beats it under the corrected penalties.
   */
  method CorrectedSpellScale(scale: seq<int>, root: Pitch) returns (spelling: seq<Pitch>)
    requires root.Valid()
    ensures spelling in CorrectedCandidates(scale, root)
    ensures |spelling| == |scale| + 1 && spelling[0] == root
    ensures forall i | 1 <= i < |spelling| ::
      spelling[i].Valid() && spelling[i].PitchClass() == (root.PitchClass() + scale[i - 1]) % 12
    ensures forall c | c in CorrectedCandidates(scale, root) ::
      AtLeastAsGood(spelling, c, CorrectedAugmentedDiminished)
  {
    var all := CorrectedCandidates(scale, root);
    CombinationsNonEmpty(CorrectedTransposed(scale, root), [root]);
    spelling := Narrow(all, CorrectedAugmentedDiminished);
    CorrectedCandidatesSpec(scale, root);
  }

  /**
   * The five phases of `spellScale`: each keeps the best candidates under
   * one score, answering as soon as one remains, or with the first survivor
   * of the last phase.  No candidate beats the answer.
   */
  method Narrow(all: seq<seq<Pitch>>, score: seq<Pitch> -> int) returns (spelling: seq<Pitch>)
    requires |all| > 0
    ensures spelling in all
    ensures forall c | c in all :: AtLeastAsGood(spelling, c, score)
  {
    var phase1 := ArgMax(all, UniqueLetters);
    MaximisersNonEmpty(all, UniqueLetters);
    if |phase1| == 1 {
      spelling := phase1[0];
      Alone(phase1, spelling, score);
      Settle1(all, spelling, score);
      return;
    }

    var phase2 := ArgMin(phase1, score);
    MinimisersNonEmpty(phase1, score);
    if |phase2| == 1 {
      spelling := phase2[0];
      Alone(phase2, spelling, score);
      Settle2(phase1, spelling, score);
      Settle1(all, spelling, score);
      return;
    }

    var phase3 := ArgMax(phase2, Naturals);
    MaximisersNonEmpty(phase2, Naturals);
    if |phase3| == 1 {
      spelling := phase3[0];
      Alone(phase3, spelling, score);
      Settle3(phase2, spelling);
      Settle2(phase1, spelling, score);
      Settle1(all, spelling, score);
      return;
    }

    var phase4 := ArgMin(phase3, Doubles);
    MinimisersNonEmpty(phase3, Doubles);
    if |phase4| == 1 {
      spelling := phase4[0];
      Alone(phase4, spelling, score);
      Settle4(phase3, spelling);
      Settle3(phase2, spelling);
      Settle2(phase1, spelling, score);
      Settle1(all, spelling, score);
      return;
    }

    var phase5 := ArgMax(phase4, Between);
    MaximisersNonEmpty(phase4, Between);
    spelling := phase5[0];
    Settle5(phase4, spelling);
    Settle4(phase3, spelling);
    Settle3(phase2, spelling);
    Settle2(phase1, spelling, score);
    Settle1(all, spelling, score);
  }

  /** A spelling left alone after a phase is at least as good as itself under the later phases. */
  lemma Alone(survivors: seq<seq<Pitch>>, s: seq<Pitch>, score: seq<Pitch> -> int)
    requires |survivors| == 1 && s == survivors[0]
    ensures s in survivors
    ensures forall c | c in survivors ::
      FromPhase2(s, c, score) && FromPhase3(s, c) && FromPhase4(s, c) && FromPhase5(s, c)
  {
    assert survivors == [s];
  }

  /** The fifth phase keeps the spellings with the most sharps between naturals. */
  lemma Settle5(phase4: seq<seq<Pitch>>, s: seq<Pitch>)
    requires |phase4| > 0 && s in Maximisers(phase4, Between)
    ensures s in phase4
    ensures forall c | c in phase4 :: FromPhase5(s, c)
  {
    MaximisersSpec(phase4, Between);
  }

  /** The fourth phase keeps the spellings with the fewest doubles. */
  lemma Settle4(phase3: seq<seq<Pitch>>, s: seq<Pitch>)
    requires |phase3| > 0 && s in Minimisers(phase3, Doubles)
    requires forall c | c in Minimisers(phase3, Doubles) :: FromPhase5(s, c)
    ensures s in phase3
    ensures forall c | c in phase3 :: FromPhase4(s, c)
  {
    MinimisersSpec(phase3, Doubles);
    MinPhase(phase3, Doubles, s, c => FromPhase5(s, c));
  }

  /** The third phase keeps the spellings with the most naturals. */
  lemma Settle3(phase2: seq<seq<Pitch>>, s: seq<Pitch>)
    requires |phase2| > 0 && s in Maximisers(phase2, Naturals)
    requires forall c | c in Maximisers(phase2, Naturals) :: FromPhase4(s, c)
    ensures s in phase2
    ensures forall c | c in phase2 :: FromPhase3(s, c)
  {
    MaximisersSpec(phase2, Naturals);
    MaxPhase(phase2, Naturals, s, c => FromPhase4(s, c));
  }

  /** The second phase keeps the spellings with the least augmented or diminished penalty. */
  lemma Settle2(phase1: seq<seq<Pitch>>, s: seq<Pitch>, score: seq<Pitch> -> int)
    requires |phase1| > 0 && s in Minimisers(phase1, score)
    requires forall c | c in Minimisers(phase1, score) :: FromPhase3(s, c)
    ensures s in phase1
    ensures forall c | c in phase1 :: FromPhase2(s, c, score)
  {
    MinimisersSpec(phase1, score);
    MinPhase(phase1, score, s, c => FromPhase3(s, c));
  }

  /**
   * The first phase keeps the spellings with the most unique letters; a
   * survivor that the later phases rank first is one no candidate beats.
   */
  lemma Settle1(all: seq<seq<Pitch>>, s: seq<Pitch>, score: seq<Pitch> -> int)
    requires |all| > 0 && s in Maximisers(all, UniqueLetters)
    requires forall c | c in Maximisers(all, UniqueLetters) :: FromPhase2(s, c, score)
    ensures s in all
    ensures forall c | c in all :: AtLeastAsGood(s, c, score)
  {
    MaximisersSpec(all, UniqueLetters);
    MaxPhase(all, UniqueLetters, s, c => FromPhase2(s, c, score));
  }

  // ---------------------------------------------------------------------
  // Lemmas

  /** One step of `Extends`: the first new pitch spells pcs[0] and the rest extends past it. */
  lemma ExtendsStep(c: seq<Pitch>, pcs: seq<int>, initial: seq<Pitch>)
    requires |pcs| > 0
    ensures Extends(c, pcs, initial) <==>
      |c| > |initial| && Spells(c[|initial|], pcs[0])
      && Extends(c, pcs[1..], initial + [c[|initial|]])
  {
    var n := |initial|;
    if |c| > n {
      var x := c[n];
      if |c| == n + |pcs| && c[..n] == initial {
        assert c[..n + 1] == initial + [x];
      }
      if |c| == n + |pcs| && c[..n + 1] == initial + [x] {
        assert c[..n] == c[..n + 1][..n];
      }
    }
  }

  /** `combinations` yields exactly the continuations of `initial` by one spelling per pitch class. */
  lemma {:induction false} CombinationsSpec(pcs: seq<int>, initial: seq<Pitch>)
    requires forall k | 0 <= k < |pcs| :: 0 <= pcs[k] < 12
    ensures forall c :: c in Combinations(pcs, initial) <==> Extends(c, pcs, initial)
    decreases |pcs|, 1, 0
  {
    if |pcs| == 0 {
      forall c: seq<Pitch>
        ensures c in Combinations(pcs, initial) <==> Extends(c, pcs, initial)
      {
        if |c| == |initial| {
          assert c[..|initial|] == c;
        }
      }
    } else {
      ExtensionsSpec(ListPitchClass(pcs[0]), pcs[1..], initial);
      forall c: seq<Pitch>
        ensures c in Combinations(pcs, initial) <==> Extends(c, pcs, initial)
      {
        ExtendsStep(c, pcs, initial);
        if |c| > |initial| {
          ListPitchClassMembers(c[|initial|], pcs[0]);
        }
      }
    }
  }

  /** The loop of `combinations` yields the continuations whose next pitch is one of `choices`. */
  lemma {:induction false} ExtensionsSpec(choices: seq<Pitch>, rest: seq<int>, initial: seq<Pitch>)
    requires forall k | 0 <= k < |rest| :: 0 <= rest[k] < 12
    ensures forall c :: c in Extensions(choices, rest, initial) <==>
      |c| > |initial| && c[|initial|] in choices && Extends(c, rest, initial + [c[|initial|]])
    decreases |rest| + 1, 0, |choices|
  {
    if choices != [] {
      var x := choices[0];
      CombinationsSpec(rest, initial + [x]);
      ExtensionsSpec(choices[1..], rest, initial);
      forall c: seq<Pitch>
        ensures c in Extensions(choices, rest, initial) <==>
          |c| > |initial| && c[|initial|] in choices && Extends(c, rest, initial + [c[|initial|]])
      {
        if Extends(c, rest, initial + [x]) {
          assert c[|initial|] == c[..|initial + [x]|][|initial|];
        }
        if |c| > |initial| && c[|initial|] in choices && c[|initial|] != x {
          assert c[|initial|] in choices[1..];
        }
      }
    }
  }

  /** Every pitch class has a spelling, so `combinations` yields at least one candidate. */
  lemma {:induction false} CombinationsNonEmpty(pcs: seq<int>, initial: seq<Pitch>)
    requires forall k | 0 <= k < |pcs| :: 0 <= pcs[k] < 12
    ensures |Combinations(pcs, initial)| > 0
    decreases |pcs|, 1, 0
  {
    if |pcs| > 0 {
      ListPitchClassSpec(pcs[0]);
      ExtensionsNonEmpty(ListPitchClass(pcs[0]), pcs[1..], initial);
    }
  }

  lemma {:induction false} ExtensionsNonEmpty(choices: seq<Pitch>, rest: seq<int>, initial: seq<Pitch>)
    requires |choices| > 0
    requires forall k | 0 <= k < |rest| :: 0 <= rest[k] < 12
    ensures |Extensions(choices, rest, initial)| > 0
    decreases |rest| + 1, 0, |choices|
  {
    CombinationsNonEmpty(rest, initial + [choices[0]]);
  }

  /**
   * The candidates are exactly the spellings of the scale from the root:
   * the root, then for each step any name of the pitch class that
   * `getPitchClass` gives the root, plus the step, modulo 12.
   */
  lemma CandidatesSpec(scale: seq<int>, root: Pitch)
    requires Transposable(scale, root)
    ensures forall c: seq<Pitch> :: c in Candidates(scale, root) <==>
      |c| == |scale| + 1 && c[0] == root
      && forall i | 1 <= i < |c| ::
        c[i].Valid() && c[i].PitchClass() == (root.GetPitchClass() + scale[i - 1]) % 12
  {
    var pcs := Transposed(scale, root);
    assert forall k | 0 <= k < |scale| :: pcs[k] == (root.GetPitchClass() + scale[k]) % 12;
    RootedCombinations(pcs, root);
  }

  /** The corrected candidates: the same, from the root's 0..11 pitch class and any step. */
  lemma CorrectedCandidatesSpec(scale: seq<int>, root: Pitch)
    requires root.Valid()
    ensures forall c: seq<Pitch> :: c in CorrectedCandidates(scale, root) <==>
      |c| == |scale| + 1 && c[0] == root
      && forall i | 1 <= i < |c| ::
        c[i].Valid() && c[i].PitchClass() == (root.PitchClass() + scale[i - 1]) % 12
  {
    var pcs := CorrectedTransposed(scale, root);
    RootedCombinations(pcs, root);
    forall c: seq<Pitch> | SpelledFrom(c, pcs, root) || |c| == |scale| + 1
      ensures SpelledFrom(c, pcs, root) <==>
        c[0] == root && forall i | 1 <= i < |c| :: Spells(c[i], (root.PitchClass() + scale[i - 1]) % 12)
    {
    }
  }

  /** c is the root followed by one recognised pitch of each class of pcs, in order. */
  predicate SpelledFrom(c: seq<Pitch>, pcs: seq<int>, root: Pitch)
  {
    |c| == |pcs| + 1 && c[0] == root
    && forall i | 1 <= i < |c| :: c[i].Valid() && c[i].PitchClass() == pcs[i - 1]
  }

  /** The combinations after a root are the root followed by one recognised pitch of each class, in order. */
  lemma RootedCombinations(pcs: seq<int>, root: Pitch)
    requires forall k | 0 <= k < |pcs| :: 0 <= pcs[k] < 12
    ensures forall c: seq<Pitch> :: c in Combinations(pcs, [root]) <==> SpelledFrom(c, pcs, root)
  {
    CombinationsSpec(pcs, [root]);
    forall c: seq<Pitch>
      ensures Extends(c, pcs, [root]) <==> SpelledFrom(c, pcs, root)
    {
      ExtendsRoot(c, pcs, root);
    }
  }

  lemma ExtendsRoot(c: seq<Pitch>, pcs: seq<int>, root: Pitch)
    requires forall k | 0 <= k < |pcs| :: 0 <= pcs[k] < 12
    ensures Extends(c, pcs, [root]) <==> SpelledFrom(c, pcs, root)
  {
    if |c| == |pcs| + 1 {
      assert c[..1] == [root] <==> c[0] == root by {
        assert c[..1] == [c[0]];
      }
    }
  }

  /** `listPitchClass(pc)` holds exactly the recognised pitches of pitch class pc. */
  lemma ListPitchClassMembers(p: Pitch, pc: int)
    requires 0 <= pc < 12
    ensures p in ListPitchClass(pc) <==> p.Valid() && p.PitchClass() == pc
  {
    ListPitchClassSpec(pc);
    if p.Valid() && p.PitchClass() == pc {
      ListPitchClassComplete(p);
    }
  }

  /** `uniqueLetters` never exceeds the length, and equals it exactly when no two pitches share a letter. */
  lemma UniqueLettersSpec(N: seq<Pitch>)
    ensures UniqueLetters(N) <= |N|
    ensures UniqueLetters(N) == |N| <==>
      forall i, j | 0 <= i < j < |N| :: N[i].GetLetter() != N[j].GetLetter()
  {
    PairSumZero(N, SameLetter);
  }

  /**
   * The penalty is zero exactly for the diatonic intervals: seconds of 1
   * or 2 semitones, thirds of 3 or 4, the fourth of 5, the fifth of 7,
   * sixths of 8 or 9 and sevenths of 10 or 11.
   */
  lemma PenaltyZero(dc: int, ds: int)
    requires 0 <= dc < 7 && 0 <= ds < 12
    ensures Penalty(dc, ds) == 0 <==>
      (dc, ds) in {(1, 1), (1, 2), (2, 3), (2, 4), (3, 5), (4, 7), (5, 8), (5, 9), (6, 10), (6, 11)}
  {
  }

  /**
   * `augmentedDiminished` is never negative, and it is zero exactly when
   * every pair of pitches i < j forms a diatonic interval.
   */
  lemma AugmentedDiminishedSpec(N: seq<Pitch>)
    ensures AugmentedDiminished(N) >= 0
    ensures AugmentedDiminished(N) == 0 <==>
      forall i, j | 0 <= i < j < |N| :: IntervalPenalty(N[i], N[j]) == 0
  {
    PairSumZero(N, IntervalPenalty);
  }

  /** No pitch is both natural and doubled, so the two counts together never exceed the length. */
  lemma {:induction false} NaturalsDoubles(N: seq<Pitch>)
    ensures Naturals(N) + Doubles(N) <= |N|
  {
    if N != [] {
      NaturalsDoubles(N[..|N| - 1]);
    }
  }

  /** Each counted sharp sits after a natural, so `between` never exceeds `naturals`. */
  lemma BetweenAtMostNaturals(N: seq<Pitch>)
    ensures Between(N) <= Naturals(N)
  {
    BetweenUpToNaturals(N, |N|);
    assert N[..|N|] == N;
  }

  lemma {:induction false} BetweenUpToNaturals(N: seq<Pitch>, k: int)
    requires 0 <= k <= |N|
    ensures BetweenUpTo(N, k) <= Naturals(N[..k])
  {
    if k > 0 {
      BetweenUpToNaturals(N, k - 1);
      assert N[..k][..k - 1] == N[..k - 1];
    }
  }

  // ---------------------------------------------------------------------
  // The speller as written against the corrected one

  /**
   * Where no pitch is a flatted C, `getPitchClass` is the 0..11 class, so
   * the penalties and their sum agree with the corrected ones.
   */
  lemma ScoresAgreeWithoutFlatC(N: seq<Pitch>)
    requires forall k | 0 <= k < |N| :: N[k].Valid() && N[k].GetPitchClass() >= 0
    ensures forall i, j | 0 <= i < j < |N| :: IntervalPenalty(N[i], N[j]) == CorrectedIntervalPenalty(N[i], N[j])
    ensures AugmentedDiminished(N) == CorrectedAugmentedDiminished(N)
  {
    PairSumAgree(N, IntervalPenalty, N, CorrectedIntervalPenalty);
  }

  /** Where the root is not a flatted C, both spellers start from the same candidates. */
  lemma CandidatesAgreeWithoutFlatC(scale: seq<int>, root: Pitch)
    requires root.Valid() && root.GetPitchClass() >= 0
    requires forall k | 0 <= k < |scale| :: scale[k] >= 0
    ensures Candidates(scale, root) == CorrectedCandidates(scale, root)
  {
    forall k | 0 <= k < |scale|
      ensures Transposed(scale, root)[k] == CorrectedTransposed(scale, root)[k]
    {
      assert root.GetPitchClass() == root.PitchClass();
    }
    assert Transposed(scale, root) == CorrectedTransposed(scale, root);
  }

  /**
   * Where the two differ: B over C flat is a diminished octave to the
   * corrected speller (penalty 10) and nearly a diatonic interval as
   * written (penalty 1, from C flat at -1); A, C double flat, B scores 4 as
   * written and 11 corrected; and a C flat root with the step 0 is outside
   * the speller as written, which throws there.
   */
  lemma SpellersDiffer()
    ensures var a, b, cFlat, cDoubleFlat := Pitch(5, Some(0)), Pitch(6, Some(0)), Pitch(0, Some(-1)), Pitch(0, Some(-2));
      && IntervalPenalty(b, cFlat) == 1 && CorrectedIntervalPenalty(b, cFlat) == 10
      && AugmentedDiminished([a, cDoubleFlat, b]) == 4
      && CorrectedAugmentedDiminished([a, cDoubleFlat, b]) == 11
      && cFlat.GetPitchClass() + 0 < 0 && !Transposable([0], cFlat)
  {
    var a, b, cFlat, cDoubleFlat := Pitch(5, Some(0)), Pitch(6, Some(0)), Pitch(0, Some(-1)), Pitch(0, Some(-2));
    assert cFlat.GetPitchClass() == -1;
    FlatCPenalties();
    CorrectedFlatCPenalties();
    PairSumOfThree(a, cDoubleFlat, b, IntervalPenalty);
    PairSumOfThree(a, cDoubleFlat, b, CorrectedIntervalPenalty);
  }

  /**
   * Where the speller as written runs although a sum is negative: the
   * step -12 from C reads row `-0`, that is row 0, and an empty scale never
   * reads the root's pitch class, so any root is spelled as itself.
   */
  lemma TransposableEdges(r: Pitch)
    ensures var c := Pitch(0, Some(0));
      Transposable([-12], c) && Transposed([-12], c) == [0]
    ensures Transposable([], r) && Candidates([], r) == [[r]]
  {
    var c := Pitch(0, Some(0));
    assert c.GetPitchClass() == 0;
    assert RemNotNegative(c.GetPitchClass() + [-12][0], 12);
  }

  /** The interval penalties behind `SpellersDiffer`, as written. */
  lemma FlatCPenalties()
    ensures var a, b, cFlat, cDoubleFlat := Pitch(5, Some(0)), Pitch(6, Some(0)), Pitch(0, Some(-1)), Pitch(0, Some(-2));
      && IntervalPenalty(b, cFlat) == 1 && IntervalPenalty(a, cDoubleFlat) == 2
      && IntervalPenalty(a, b) == 0 && IntervalPenalty(cDoubleFlat, b) == 2
  {
    var a, b, cFlat, cDoubleFlat := Pitch(5, Some(0)), Pitch(6, Some(0)), Pitch(0, Some(-1)), Pitch(0, Some(-2));
    assert AlphabetPitches[0] == 0 && AlphabetPitches[5] == 9 && AlphabetPitches[6] == 11;
    assert a.GetPitchClass() == 9 && b.GetPitchClass() == 11;
    assert cFlat.GetPitchClass() == -1 && cDoubleFlat.GetPitchClass() == -2;
    assert IntervalPenalty(b, cFlat) == 1;
    assert IntervalPenalty(a, cDoubleFlat) == 2;
    assert IntervalPenalty(cDoubleFlat, b) == 2;
  }

  /** The same penalties over the corrected pitch classes. */
  lemma CorrectedFlatCPenalties()
    ensures var a, b, cFlat, cDoubleFlat := Pitch(5, Some(0)), Pitch(6, Some(0)), Pitch(0, Some(-1)), Pitch(0, Some(-2));
      && CorrectedIntervalPenalty(b, cFlat) == 10 && CorrectedIntervalPenalty(a, cDoubleFlat) == 2
      && CorrectedIntervalPenalty(a, b) == 0 && CorrectedIntervalPenalty(cDoubleFlat, b) == 9
  {
    var a, b, cFlat, cDoubleFlat := Pitch(5, Some(0)), Pitch(6, Some(0)), Pitch(0, Some(-1)), Pitch(0, Some(-2));
    assert AlphabetPitches[0] == 0 && AlphabetPitches[5] == 9 && AlphabetPitches[6] == 11;
    assert a.PitchClass() == 9 && b.PitchClass() == 11;
    assert cFlat.PitchClass() == 11 && cDoubleFlat.PitchClass() == 10;
    assert CorrectedIntervalPenalty(b, cFlat) == 10;
    assert CorrectedIntervalPenalty(a, cDoubleFlat) == 2;
    assert CorrectedIntervalPenalty(cDoubleFlat, b) == 9;
  }
}
