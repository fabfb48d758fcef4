/**
 * The string-based scale speller of the fretboard page (scales.js): the
 * five-phase algorithm of src/guitar-scales/scale.js run directly on note
 * names, the semitone position of a name being found by searching the
 * table of spellings; and the page's small helpers: tuning and scale
 * parsers, array equality and a non-negative remainder.
 *
 * The table `notes3` of scales.js is the table `notes` of pitch.js, here
 * `Pitches.Notes`.
 */
module Scales {
  import opened Wrappers
  import opened JsBuiltins
  import opened Pitches
  import opened Selection
  import Scale

  // ---------------------------------------------------------------------
  // Candidates

  /**
   * The steps `spell` can read rows for: no `(step + offset) % 12` is
   * negative, for a negative row index is past the table and the code
   * throws.  A negative multiple of 12 gives `-0`, which reads row 0.
   */
  predicate Transposable(scale: seq<int>, offset: int)
  {
    forall k | 0 <= k < |scale| :: RemNotNegative(scale[k] + offset, 12)
  }

  /** The step -12 from offset 0 reads row `-0`, that is row 0; the step -1 would read row -1. */
  lemma TransposableEdges()
    ensures Transposable([-12], 0) && !Transposable([-1], 0)
  {
    assert RemNotNegative([-12][0] + 0, 12);
    assert !RemNotNegative([-1][0] + 0, 12);
  }

  /**
   * `combinations(scale, offset, string)`: for each name of the first
   * step's pitch class `(step + offset) % 12`, in table order, every
   * candidate that continues `prefix` with it.  Where JavaScript's `%`
   * leaves no negative remainder it is the mathematical one
   * (`JsRemAgrees`), so the row is the same.
   */
  function Combinations(scale: seq<int>, offset: int, prefix: seq<string>): seq<seq<string>>
    requires Transposable(scale, offset)
    decreases |scale|, 1, 0
  {
    if |scale| == 0 then [prefix]
    else Extensions(Notes[(scale[0] + offset) % 12], scale, offset, prefix)
  }

  /** The loop of `combinations`: the candidates that continue `prefix` with each of `choices` in turn. */
  function Extensions(choices: seq<string>, scale: seq<int>, offset: int, prefix: seq<string>): seq<seq<string>>
    requires |scale| > 0
    requires Transposable(scale, offset)
    decreases |scale|, 0, |choices|
  {
    if choices == [] then []
    else Combinations(scale[1..], offset, prefix + [choices[0]]) + Extensions(choices[1..], scale, offset, prefix)
  }

  /** c continues `prefix` with one name of each step's pitch class, in order. */
  predicate Extends(c: seq<string>, scale: seq<int>, offset: int, prefix: seq<string>)
  {
    |c| == |prefix| + |scale| && c[..|prefix|] == prefix
    && forall i | |prefix| <= i < |c| :: Spells(c[i], scale[i - |prefix|], offset)
  }

  /** `name` is one of the spellings `notes3` lists for the step's pitch class `(step + offset) % 12`. */
  predicate Spells(name: string, step: int, offset: int)
  {
    name in Notes[(step + offset) % 12]
  }

  /** The candidates `spell` starts from. */
  function Candidates(scale: seq<int>, offset: int, root: string): seq<seq<string>>
    requires Transposable(scale, offset)
  {
    Combinations(scale, offset, [root])
  }

  // ---------------------------------------------------------------------
  // Scores

  /** `name[0]`: the first character, `undefined` for the empty name. */
  function FirstChar(name: string): Option<char>
  {
    if |name| == 0 then None else Some(name[0])
  }

  /** `alphabet.indexOf(name[0])`: the letter index of the first character, or -1. */
  function LetterIndex(name: string): int
  {
    if |name| == 0 then -1 else IndexOf(Alphabet, name[0])
  }

  /** `n => n.includes(name)`: the test `findIndex` applies to each row. */
  function Includes(name: string): seq<string> -> bool
  {
    (row: seq<string>) => name in row
  }

  /** `notes3.findIndex(n => n.includes(name))`: the row of the table holding the name, or -1. */
  function Position(name: string): (r: int)
    ensures -1 <= r < |Notes|
    ensures r >= 0 ==> name in Notes[r]
  {
    FindIndex(Notes, Includes(name))
  }

  /** One when two names start with the same character. */
  function SameFirst(x: string, y: string): int
  {
    if FirstChar(x) == FirstChar(y) then 1 else 0
  }

  /** What `uniqueLetters` measures: the length less the number of pairs that share a first character. */
  function UniqueLetters(N: seq<string>): int
  {
    |N| - PairSum(N, SameFirst)
  }

  /** `uniqueLetters(N)`: counts the pairs i < j with equal first characters in two nested loops. */
  method MeasureUniqueLetters(N: seq<string>) returns (r: int)
    ensures r == UniqueLetters(N)
  {
    var sum := PairTotal(N, SameFirst);
    r := |N| - sum;
  }

  /**
   * The penalty of the interval from name y up to name x: the letter
   * distance `dc` and the row distance `ds`, each wrapped into range, then
   * the chain of cases of the inner loop of `augmentedDimished`.
   */
  function IntervalPenalty(x: string, y: string): int
  {
    var ci := LetterIndex(x);
    var cj := LetterIndex(y);
    var dc := if ci >= cj then ci - cj else ci - cj + |Alphabet|;
    var si := Position(x);
    var sj := Position(y);
    var ds := if si >= sj then si - sj else si - sj + |Notes|;
    Scale.Penalty(dc, ds)
  }

  /** What `augmentedDimished` measures: the penalties of all pairs i < j. */
  function AugmentedDimished(N: seq<string>): int
  {
    PairSum(N, IntervalPenalty)
  }

  /** `augmentedDimished(N)`: sums the penalties in two nested loops. */
  method MeasureAugmentedDimished(N: seq<string>) returns (r: int)
    ensures r == AugmentedDimished(N)
  {
    r := PairTotal(N, IntervalPenalty);
  }

  /** `naturals(N)`: how many names are one character long. */
  function Naturals(N: seq<string>): int
  {
    if N == [] then 0
    else Naturals(N[..|N| - 1]) + (if |N[|N| - 1]| == 1 then 1 else 0)
  }

  /** `doubles(N)`: how many names are three characters long. */
  function Doubles(N: seq<string>): int
  {
    if N == [] then 0
    else Doubles(N[..|N| - 1]) + (if |N[|N| - 1]| == 3 then 1 else 0)
  }

  /**
   * Position i, read cyclically, is a sharp between two naturals a letter
   * apart: N[i] and N[i + 2] one character long, one letter up, and
   * N[i + 1] two characters ending in a sharp.
   */
  predicate SharpBetween(N: seq<string>, i: int)
    requires 0 <= i < |N|
  {
    |N[i]| == 1 && |N[(i + 2) % |N|]| == 1
    && LetterIndex(N[(i + 2) % |N|]) - LetterIndex(N[i]) == 1
    && |N[(i + 1) % |N|]| == 2 && N[(i + 1) % |N|][1] == Sharp
  }

  /** How many of the first k positions are sharps between naturals. */
  function BetweenUpTo(N: seq<string>, k: int): int
    requires 0 <= k <= |N|
  {
    if k == 0 then 0 else BetweenUpTo(N, k - 1) + (if SharpBetween(N, k - 1) then 1 else 0)
  }

  /** What `between` measures. */
  function Between(N: seq<string>): int
  {
    BetweenUpTo(N, |N|)
  }

  /** `between(N)`: counts the positions in one loop. */
  method MeasureBetween(N: seq<string>) returns (r: int)
    ensures r == Between(N)
  {
    var sum := 0;
    for i := 0 to |N|
      invariant sum == BetweenUpTo(N, i)
    {
      if |N[i]| == 1 && |N[(i + 2) % |N|]| == 1
        && LetterIndex(N[(i + 2) % |N|]) - LetterIndex(N[i]) == 1
        && |N[(i + 1) % |N|]| == 2 && N[(i + 1) % |N|][1] == Sharp
      {
        sum := sum + 1;
      }
    }
    r := sum;
  }

  // ---------------------------------------------------------------------
  // The speller

  /** From the fifth phase on: no more sharps between naturals than s. */
  predicate FromPhase5(s: seq<string>, c: seq<string>)
  {
    Between(c) <= Between(s)
  }

  predicate FromPhase4(s: seq<string>, c: seq<string>)
  {
    Doubles(s) < Doubles(c) || (Doubles(c) == Doubles(s) && FromPhase5(s, c))
  }

  predicate FromPhase3(s: seq<string>, c: seq<string>)
  {
    Naturals(c) < Naturals(s) || (Naturals(c) == Naturals(s) && FromPhase4(s, c))
  }

  predicate FromPhase2(s: seq<string>, c: seq<string>)
  {
    AugmentedDimished(s) < AugmentedDimished(c)
    || (AugmentedDimished(c) == AugmentedDimished(s) && FromPhase3(s, c))
  }

  /**
   * s is at least as good a spelling as c under the five scores taken in
   * turn: more unique first letters, then a smaller interval penalty, more
   * naturals, fewer doubles, more sharps between naturals.
   */
  predicate AtLeastAsGood(s: seq<string>, c: seq<string>)
  {
    UniqueLetters(c) < UniqueLetters(s) || (UniqueLetters(c) == UniqueLetters(s) && FromPhase2(s, c))
  }

  /**
   * `spell(scale, offset, root)`: narrows the candidates phase by phase
   * and answers as soon as one remains, or with the first survivor of the
   * last phase.  The answer spells the scale from the root and no
   * candidate beats it.
   */
  method Spell(scale: seq<int>, offset: int, root: string) returns (spelling: seq<string>)
    requires Transposable(scale, offset)
    ensures spelling in Candidates(scale, offset, root)
    ensures |spelling| == |scale| + 1 && spelling[0] == root
    ensures forall i | 1 <= i < |spelling| :: Spells(spelling[i], scale[i - 1], offset)
    ensures forall c | c in Candidates(scale, offset, root) :: AtLeastAsGood(spelling, c)
  {
    var all := Candidates(scale, offset, root);
    CombinationsNonEmpty(scale, offset, [root]);

    var phase1 := ArgMax(all, UniqueLetters);
    MaximisersNonEmpty(all, UniqueLetters);
    if |phase1| == 1 {
      spelling := phase1[0];
      Alone(phase1, spelling);
      Settle1(all, spelling, scale, offset, root);
      return;
    }

    var phase2 := ArgMin(phase1, AugmentedDimished);
    MinimisersNonEmpty(phase1, AugmentedDimished);
    if |phase2| == 1 {
      spelling := phase2[0];
      Alone(phase2, spelling);
      Settle2(phase1, spelling);
      Settle1(all, spelling, scale, offset, root);
      return;
    }

    var phase3 := ArgMax(phase2, Naturals);
    MaximisersNonEmpty(phase2, Naturals);
    if |phase3| == 1 {
      spelling := phase3[0];
      Alone(phase3, spelling);
      Settle3(phase2, spelling);
      Settle2(phase1, spelling);
      Settle1(all, spelling, scale, offset, root);
      return;
    }

    var phase4 := ArgMin(phase3, Doubles);
    MinimisersNonEmpty(phase3, Doubles);
    if |phase4| == 1 {
      spelling := phase4[0];
      Alone(phase4, spelling);
      Settle4(phase3, spelling);
      Settle3(phase2, spelling);
      Settle2(phase1, spelling);
      Settle1(all, spelling, scale, offset, root);
      return;
    }

    var phase5 := ArgMax(phase4, Between);
    MaximisersNonEmpty(phase4, Between);
    spelling := phase5[0];
    Settle5(phase4, spelling);
    Settle4(phase3, spelling);
    Settle3(phase2, spelling);
    Settle2(phase1, spelling);
    Settle1(all, spelling, scale, offset, root);
  }

  /** A spelling left alone after a phase is at least as good as itself under the later phases. */
  lemma Alone(survivors: seq<seq<string>>, s: seq<string>)
    requires |survivors| == 1 && s == survivors[0]
    ensures s in survivors
    ensures forall c | c in survivors ::
      FromPhase2(s, c) && FromPhase3(s, c) && FromPhase4(s, c) && FromPhase5(s, c)
  {
    assert survivors == [s];
  }

  /** The fifth phase keeps the spellings with the most sharps between naturals. */
  lemma Settle5(phase4: seq<seq<string>>, s: seq<string>)
    requires |phase4| > 0 && s in Maximisers(phase4, Between)
    ensures s in phase4
    ensures forall c | c in phase4 :: FromPhase5(s, c)
  {
    MaximisersSpec(phase4, Between);
  }

  /** The fourth phase keeps the spellings with the fewest doubles. */
  lemma Settle4(phase3: seq<seq<string>>, s: seq<string>)
    requires |phase3| > 0 && s in Minimisers(phase3, Doubles)
    requires forall c | c in Minimisers(phase3, Doubles) :: FromPhase5(s, c)
    ensures s in phase3
    ensures forall c | c in phase3 :: FromPhase4(s, c)
  {
    MinimisersSpec(phase3, Doubles);
    MinPhase(phase3, Doubles, s, c => FromPhase5(s, c));
  }

  /** The third phase keeps the spellings with the most naturals. */
  lemma Settle3(phase2: seq<seq<string>>, s: seq<string>)
    requires |phase2| > 0 && s in Maximisers(phase2, Naturals)
    requires forall c | c in Maximisers(phase2, Naturals) :: FromPhase4(s, c)
    ensures s in phase2
    ensures forall c | c in phase2 :: FromPhase3(s, c)
  {
    MaximisersSpec(phase2, Naturals);
    MaxPhase(phase2, Naturals, s, c => FromPhase4(s, c));
  }

  /** The second phase keeps the spellings with the smallest interval penalty. */
  lemma Settle2(phase1: seq<seq<string>>, s: seq<string>)
    requires |phase1| > 0 && s in Minimisers(phase1, AugmentedDimished)
    requires forall c | c in Minimisers(phase1, AugmentedDimished) :: FromPhase3(s, c)
    ensures s in phase1
    ensures forall c | c in phase1 :: FromPhase2(s, c)
  {
    MinimisersSpec(phase1, AugmentedDimished);
    MinPhase(phase1, AugmentedDimished, s, c => FromPhase3(s, c));
  }

  /**
   * The first phase keeps the spellings with the most unique first
   * letters; a survivor that the later phases rank first is a spelling of
   * the scale that no candidate beats.
   */
  lemma Settle1(all: seq<seq<string>>, s: seq<string>, scale: seq<int>, offset: int, root: string)
    requires Transposable(scale, offset)
    requires all == Candidates(scale, offset, root)
    requires |all| > 0 && s in Maximisers(all, UniqueLetters)
    requires forall c | c in Maximisers(all, UniqueLetters) :: FromPhase2(s, c)
    ensures s in all
    ensures |s| == |scale| + 1 && s[0] == root
    ensures forall i | 1 <= i < |s| :: Spells(s[i], scale[i - 1], offset)
    ensures forall c | c in all :: AtLeastAsGood(s, c)
  {
    MaximisersSpec(all, UniqueLetters);
    MaxPhase(all, UniqueLetters, s, c => FromPhase2(s, c));
    CandidatesSpec(scale, offset, root);
  }

  // ---------------------------------------------------------------------
  // Lemmas about the candidates

  /** One step of `Extends`: the first new name spells the first step and the rest extends past it. */
  lemma ExtendsStep(c: seq<string>, scale: seq<int>, offset: int, prefix: seq<string>)
    requires |scale| > 0
    ensures Extends(c, scale, offset, prefix) <==>
      |c| > |prefix| && Spells(c[|prefix|], scale[0], offset)
      && Extends(c, scale[1..], offset, prefix + [c[|prefix|]])
  {
    var n := |prefix|;
    if |c| > n {
      var x := c[n];
      if |c| == n + |scale| && c[..n] == prefix {
        assert c[..n + 1] == prefix + [x];
      }
      if |c| == n + |scale| && c[..n + 1] == prefix + [x] {
        assert c[..n] == c[..n + 1][..n];
      }
    }
  }

  /** `combinations` yields exactly the continuations of `prefix` by one name per step. */
  lemma {:induction false} CombinationsSpec(scale: seq<int>, offset: int, prefix: seq<string>)
    requires Transposable(scale, offset)
    ensures forall c :: c in Combinations(scale, offset, prefix) <==> Extends(c, scale, offset, prefix)
    decreases |scale|, 1, 0
  {
    if |scale| == 0 {
      forall c: seq<string>
        ensures c in Combinations(scale, offset, prefix) <==> Extends(c, scale, offset, prefix)
      {
        if |c| == |prefix| {
          assert c[..|prefix|] == c;
        }
      }
    } else {
      ExtensionsSpec(Notes[(scale[0] + offset) % 12], scale, offset, prefix);
      forall c: seq<string>
        ensures c in Combinations(scale, offset, prefix) <==> Extends(c, scale, offset, prefix)
      {
        ExtendsStep(c, scale, offset, prefix);
      }
    }
  }

  /** The loop of `combinations` yields the continuations whose next name is one of `choices`. */
  lemma {:induction false} ExtensionsSpec(choices: seq<string>, scale: seq<int>, offset: int, prefix: seq<string>)
    requires |scale| > 0
    requires Transposable(scale, offset)
    ensures forall c :: c in Extensions(choices, scale, offset, prefix) <==>
      |c| > |prefix| && c[|prefix|] in choices && Extends(c, scale[1..], offset, prefix + [c[|prefix|]])
    decreases |scale|, 0, |choices|
  {
    if choices != [] {
      var x := choices[0];
      CombinationsSpec(scale[1..], offset, prefix + [x]);
      ExtensionsSpec(choices[1..], scale, offset, prefix);
      forall c: seq<string>
        ensures c in Extensions(choices, scale, offset, prefix) <==>
          |c| > |prefix| && c[|prefix|] in choices && Extends(c, scale[1..], offset, prefix + [c[|prefix|]])
      {
        if Extends(c, scale[1..], offset, prefix + [x]) {
          assert c[|prefix|] == c[..|prefix + [x]|][|prefix|];
        }
        if |c| > |prefix| && c[|prefix|] in choices && c[|prefix|] != x {
          assert c[|prefix|] in choices[1..];
        }
      }
    }
  }

  /** Every row of the table is non-empty, so `combinations` yields at least one candidate. */
  lemma {:induction false} CombinationsNonEmpty(scale: seq<int>, offset: int, prefix: seq<string>)
    requires Transposable(scale, offset)
    ensures |Combinations(scale, offset, prefix)| > 0
    decreases |scale|, 1, 0
  {
    if |scale| > 0 {
      NotesTable((scale[0] + offset) % 12);
      ExtensionsNonEmpty(Notes[(scale[0] + offset) % 12], scale, offset, prefix);
    }
  }

  lemma {:induction false} ExtensionsNonEmpty(choices: seq<string>, scale: seq<int>, offset: int, prefix: seq<string>)
    requires |choices| > 0 && |scale| > 0
    requires Transposable(scale, offset)
    ensures |Extensions(choices, scale, offset, prefix)| > 0
    decreases |scale|, 0, |choices|
  {
    CombinationsNonEmpty(scale[1..], offset, prefix + [choices[0]]);
  }

  /**
   * The candidates are exactly the spellings of the scale from the root:
   * the root, then for each step any name of row `(step + offset) % 12`.
   */
  lemma CandidatesSpec(scale: seq<int>, offset: int, root: string)
    requires Transposable(scale, offset)
    ensures forall c: seq<string> :: c in Candidates(scale, offset, root) <==>
      |c| == |scale| + 1 && c[0] == root
      && forall i | 1 <= i < |c| :: Spells(c[i], scale[i - 1], offset)
  {
    CombinationsSpec(scale, offset, [root]);
    forall c: seq<string>
      ensures Extends(c, scale, offset, [root]) <==>
        |c| == |scale| + 1 && c[0] == root
        && forall i | 1 <= i < |c| :: Spells(c[i], scale[i - 1], offset)
    {
      ExtendsRoot(c, scale, offset, root);
    }
  }

  lemma ExtendsRoot(c: seq<string>, scale: seq<int>, offset: int, root: string)
    requires Transposable(scale, offset)
    ensures Extends(c, scale, offset, [root]) <==>
      |c| == |scale| + 1 && c[0] == root
      && forall i | 1 <= i < |c| :: Spells(c[i], scale[i - 1], offset)
  {
    if |c| == |scale| + 1 {
      assert c[..1] == [c[0]];
    }
  }

  // ---------------------------------------------------------------------
  // Agreement with the speller on parsed pitches

  /** Each row of the table holds only recognised names of the row's pitch class. */
  lemma TableRows(name: string)
    ensures forall r | 0 <= r < |Notes| && name in Notes[r] ::
      Parse(name).Valid() && Parse(name).PitchClass() == r
  {
    forall r | 0 <= r < |Notes| && name in Notes[r]
      ensures Parse(name).Valid() && Parse(name).PitchClass() == r
    {
      var j :| 0 <= j < |Notes[r]| && Notes[r][j] == name;
      NoteClass(r, j);
    }
  }

  /**
   * The row search finds exactly the names the Pitch constructor
   * recognises, each in the row of its pitch class, and answers -1 for
   * every other string.
   */
  lemma PositionSpec(name: string)
    ensures Position(name) == if Parse(name).Valid() then Parse(name).PitchClass() else -1
  {
    FindIndexSpec(Notes, Includes(name));
    TableRows(name);
    if Parse(name).Valid() {
      var pc := Parse(name).PitchClass();
      var i := PositionInRow(Parse(name));
      ToStringParse(name);
      assert Includes(name)(Notes[pc]);
    }
  }

  /** The names of a sequence, each recognised by the Pitch constructor. */
  predicate Recognised(N: seq<string>)
  {
    forall k | 0 <= k < |N| :: Parse(N[k]).Valid()
  }

  /** The names of a sequence parsed one by one. */
  function ParseAll(N: seq<string>): seq<Pitch>
  {
    seq(|N|, k requires 0 <= k < |N| => Parse(N[k]))
  }

  /** On recognised names a shared first character is a shared letter. */
  lemma SameFirstAgrees(x: string, y: string)
    requires Parse(x).Valid() && Parse(y).Valid()
    ensures SameFirst(x, y) == Scale.SameLetter(Parse(x), Parse(y))
  {
    IndexOfSpec(Alphabet, x[0]);
    IndexOfSpec(Alphabet, y[0]);
  }

  /**
   * On recognised names the string penalty of a pair is the corrected
   * penalty of the parsed pitches: the row distance is the distance of the
   * 0..11 pitch classes.
   */
  lemma PenaltyAgrees(x: string, y: string)
    requires Parse(x).Valid() && Parse(y).Valid()
    ensures IntervalPenalty(x, y) == Scale.CorrectedIntervalPenalty(Parse(x), Parse(y))
  {
    var p, q := Parse(x), Parse(y);
    PositionSpec(x);
    PositionSpec(y);
    assert Position(x) == p.PitchClass() && Position(y) == q.PitchClass();
    assert LetterIndex(x) == p.GetLetter() && LetterIndex(y) == q.GetLetter();
    PenaltyOfIndices(x, y);
  }

  /** The string penalty is the penalty of the letter steps and the row steps between the names. */
  lemma PenaltyOfIndices(x: string, y: string)
    ensures IntervalPenalty(x, y) ==
      Scale.Penalty(Scale.LetterSteps(LetterIndex(x), LetterIndex(y)), Scale.Semitones(Position(x), Position(y)))
  {
    assert |Alphabet| == 7 && |Notes| == 12;
  }

  /** The length of a recognised name tells its accidentals. */
  lemma NameLength(x: string)
    requires Parse(x).Valid()
    ensures |x| == 1 <==> Parse(x).IsNatural()
    ensures |x| == 3 <==> Parse(x).IsDoubleFlat() || Parse(x).IsDoubleSharp()
    ensures |x| == 2 && x[1] == Sharp <==> Parse(x).IsSharp()
  {
  }

  lemma {:induction false} NaturalsDoublesAgree(N: seq<string>)
    requires Recognised(N)
    ensures Naturals(N) == Scale.Naturals(ParseAll(N))
    ensures Doubles(N) == Scale.Doubles(ParseAll(N))
  {
    if N != [] {
      var init := N[..|N| - 1];
      NaturalsDoublesAgree(init);
      assert ParseAll(N)[..|N| - 1] == ParseAll(init);
      NameLength(N[|N| - 1]);
    }
  }

  lemma BetweenAgree(N: seq<string>, k: int)
    requires Recognised(N)
    requires 0 <= k <= |N|
    ensures BetweenUpTo(N, k) == Scale.BetweenUpTo(ParseAll(N), k)
  {
    var P := ParseAll(N);
    forall i | 0 <= i < |N|
      ensures SharpBetween(N, i) == Scale.SharpBetween(P, i)
    {
      SharpBetweenAgrees(N, i);
    }
    BetweenCountsAgree(N, P, k);
  }

  /** Counting positions agrees on two sequences whose positions agree one by one. */
  lemma {:induction false} BetweenCountsAgree(N: seq<string>, P: seq<Pitch>, k: int)
    requires |P| == |N| && 0 <= k <= |N|
    requires forall i | 0 <= i < |N| :: SharpBetween(N, i) == Scale.SharpBetween(P, i)
    ensures BetweenUpTo(N, k) == Scale.BetweenUpTo(P, k)
  {
    if k > 0 {
      BetweenCountsAgree(N, P, k - 1);
    }
  }

  lemma SharpBetweenAgrees(N: seq<string>, i: int)
    requires Recognised(N)
    requires 0 <= i < |N|
    ensures SharpBetween(N, i) == Scale.SharpBetween(ParseAll(N), i)
  {
    var P := ParseAll(N);
    var j, l := (i + 1) % |N|, (i + 2) % |N|;
    assert P[i] == Parse(N[i]) && P[j] == Parse(N[j]) && P[l] == Parse(N[l]);
    NameLength(N[i]);
    NameLength(N[j]);
    NameLength(N[l]);
    assert LetterIndex(N[i]) == P[i].GetLetter() && LetterIndex(N[l]) == P[l].GetLetter();
  }

  /**
   * On recognised names the five string scores equal the scores the
   * corrected Pitch-based speller gives the parsed names.
   */
  lemma ScoresAgree(N: seq<string>)
    requires Recognised(N)
    ensures UniqueLetters(N) == Scale.UniqueLetters(ParseAll(N))
    ensures AugmentedDimished(N) == Scale.CorrectedAugmentedDiminished(ParseAll(N))
    ensures Naturals(N) == Scale.Naturals(ParseAll(N))
    ensures Doubles(N) == Scale.Doubles(ParseAll(N))
    ensures Between(N) == Scale.Between(ParseAll(N))
  {
    var P := ParseAll(N);
    forall i, j | 0 <= i < j < |N|
      ensures SameFirst(N[i], N[j]) == Scale.SameLetter(P[i], P[j])
      ensures IntervalPenalty(N[i], N[j]) == Scale.CorrectedIntervalPenalty(P[i], P[j])
    {
      SameFirstAgrees(N[i], N[j]);
      PenaltyAgrees(N[i], N[j]);
    }
    PairSumAgree(N, SameFirst, P, Scale.SameLetter);
    PairSumAgree(N, IntervalPenalty, P, Scale.CorrectedIntervalPenalty);
    NaturalsDoublesAgree(N);
    BetweenAgree(N, |N|);
  }

  /** The string speller and the corrected Pitch-based speller rank recognised spellings alike. */
  lemma RankingAgrees(s: seq<string>, c: seq<string>)
    requires Recognised(s) && Recognised(c)
    ensures AtLeastAsGood(s, c) <==>
      Scale.AtLeastAsGood(ParseAll(s), ParseAll(c), Scale.CorrectedAugmentedDiminished)
  {
    ScoresAgree(s);
    ScoresAgree(c);
  }

  /**
   * The string speller finds C flat in row 11, so to it B over C flat is a
   * diminished octave (penalty 10), while the Pitch-based speller as
   * written, with C flat at -1, gives the pair the penalty 1.
   */
  lemma PenaltyDiffersAsWritten()
    ensures Parse("B").Valid() && Parse("C♭").Valid()
    ensures IntervalPenalty("B", "C♭") == 10
    ensures Scale.IntervalPenalty(Parse("B"), Parse("C♭")) == 1
  {
    Letters();
    assert Parse("B") == Pitch(6, Some(0)) && Parse("C♭") == Pitch(0, Some(-1));
    PenaltyAgrees("B", "C♭");
    Scale.SpellersDiffer();
  }

  /** From a recognised root every candidate is made of recognised names. */
  lemma CandidatesRecognised(scale: seq<int>, offset: int, root: string)
    requires Transposable(scale, offset)
    requires Parse(root).Valid()
    ensures forall c | c in Candidates(scale, offset, root) :: Recognised(c)
  {
    CandidatesSpec(scale, offset, root);
    forall c, i | c in Candidates(scale, offset, root) && 0 <= i < |c|
      ensures Parse(c[i]).Valid()
    {
      if i > 0 {
        TableRows(c[i]);
      }
    }
  }

  // ---------------------------------------------------------------------
  // Tunings

  /** `notes2`: the pitch-class names of the tuning field, sharps written '#'. */
  const Notes2: seq<string> := ["C", "C#", "D", "D#", "E", "F", "F#", "G", "G#", "A", "A#", "B"]

  /**
   * `parseTuning(input)`: each character's position in `notes2`, or -1: one
   * entry per character, each either -1 or a position naming that character.
   */
  function ParseTuning(input: string): (r: seq<int>)
    ensures |r| == |input|
    ensures forall i | 0 <= i < |r| :: -1 <= r[i] < |Notes2| && (r[i] >= 0 ==> Notes2[r[i]] == [input[i]])
  {
    seq(|input|, i requires 0 <= i < |input| => IndexOf(Notes2, [input[i]]))
  }

  /** `notes2[x]` as `join` writes it: the name, or nothing for the `undefined` outside the table. */
  function Notes2Text(x: int): (r: string)
    ensures |r| <= 2
    ensures 0 <= x < |Notes2| ==> |r| >= 1
  {
    if 0 <= x < |Notes2| then Notes2[x] else ""
  }

  /**
   * `tuningToString(tuning)`: the names joined with no separator, one or two
   * characters per entry in the table and none for an entry outside it.
   */
  function TuningToString(tuning: seq<int>): (r: string)
    ensures |r| <= 2 * |tuning|
    ensures (forall i | 0 <= i < |tuning| :: 0 <= tuning[i] < |Notes2|) ==> |r| >= |tuning|
  {
    if tuning == [] then "" else TuningToString(tuning[..|tuning| - 1]) + Notes2Text(tuning[|tuning| - 1])
  }

  /** The pitch class of a letter name on its own, -1 for any other character. */
  function LetterPitch(c: char): (p: int)
    ensures -1 <= p < 12
  {
    if c == 'C' then 0 else if c == 'D' then 2 else if c == 'E' then 4 else if c == 'F' then 5
    else if c == 'G' then 7 else if c == 'A' then 9 else if c == 'B' then 11 else -1
  }

  /** A single character is found in `notes2` exactly when it is a letter, at the letter's pitch class. */
  lemma TuningChar(c: char)
    ensures IndexOf(Notes2, [c]) == LetterPitch(c)
  {
    if LetterPitch(c) >= 0 {
      LetterChar(c);
    } else {
      OtherChar(c);
    }
  }

  /** A letter on its own is found at its pitch class. */
  lemma LetterChar(c: char)
    requires LetterPitch(c) >= 0
    ensures IndexOf(Notes2, [c]) == LetterPitch(c)
  {
    if c == 'C' {
      IndexOfAt(Notes2, [c], 0);
    } else if c == 'D' {
      IndexOfAt(Notes2, [c], 2);
    } else if c == 'E' {
      IndexOfAt(Notes2, [c], 4);
    } else if c == 'F' {
      IndexOfAt(Notes2, [c], 5);
    } else if c == 'G' {
      IndexOfAt(Notes2, [c], 7);
    } else if c == 'A' {
      IndexOfAt(Notes2, [c], 9);
    } else {
      IndexOfAt(Notes2, [c], 11);
    }
  }

  /** Any other character on its own is not found. */
  lemma OtherChar(c: char)
    requires LetterPitch(c) < 0
    ensures IndexOf(Notes2, [c]) == -1
  {
    NotListed(c);
    IndexOfSpec(Notes2, [c]);
  }

  lemma NotListed(c: char)
    requires LetterPitch(c) < 0
    ensures [c] !in Notes2
  {
    Notes2Letters();
    assert c !in "CDEFGAB";
    forall k | 0 <= k < |Notes2|
      ensures Notes2[k] != [c]
    {
      assert [c][0] == c;
    }
  }

  /** Every name in `notes2` begins with one of the seven letters. */
  lemma Notes2Letters()
    ensures forall k | 0 <= k < |Notes2| :: |Notes2[k]| >= 1 && Notes2[k][0] in "CDEFGAB"
  {
  }

  /** `parseTuning` reads each letter as its pitch class and every other character as -1. */
  lemma ParseTuningSpec(input: string)
    ensures |ParseTuning(input)| == |input|
    ensures forall i | 0 <= i < |input| :: ParseTuning(input)[i] == LetterPitch(input[i])
  {
    forall i | 0 <= i < |input|
      ensures ParseTuning(input)[i] == LetterPitch(input[i])
    {
      TuningChar(input[i]);
    }
  }

  /** `parseTuning` reads a concatenation piece by piece. */
  lemma ParseTuningAppend(a: string, b: string)
    ensures ParseTuning(a + b) == ParseTuning(a) + ParseTuning(b)
  {
    var left := ParseTuning(a + b);
    var right := ParseTuning(a) + ParseTuning(b);
    assert |left| == |right|;
    forall i | 0 <= i < |left|
      ensures left[i] == right[i]
    {
      if i < |a| {
        assert (a + b)[i] == a[i];
      } else {
        assert (a + b)[i] == b[i - |a|];
      }
    }
  }

  /** `tuningToString` writes a tuning entry by entry. */
  lemma TuningToStringSnoc(t: seq<int>, x: int)
    ensures TuningToString(t + [x]) == TuningToString(t) + Notes2Text(x)
  {
    assert (t + [x])[..|t|] == t;
  }

  /** A letter written on its own is read back as its pitch class, which writes the letter again. */
  lemma LetterName(c: char)
    requires c in Alphabet
    ensures ParseTuning([c]) == [LetterPitch(c)]
    ensures Notes2Text(LetterPitch(c)) == [c]
  {
    ParseTuningSpec([c]);
    LetterText(c);
  }

  /** `notes2` lists each letter on its own at the letter's pitch class. */
  lemma LetterText(c: char)
    requires c in Alphabet
    ensures Notes2Text(LetterPitch(c)) == [c]
  {
    if c == 'C' {
    } else if c == 'D' {
    } else if c == 'E' {
    } else if c == 'F' {
    } else if c == 'G' {
    } else if c == 'A' {
    } else {
    }
  }

  /** The name of a natural pitch class is a single letter, read back as that pitch class. */
  lemma NaturalName(p: int)
    requires p in AlphabetPitches
    ensures |Notes2Text(p)| == 1 && Notes2Text(p)[0] in Alphabet
    ensures ParseTuning(Notes2Text(p)) == [p]
  {
    var c := if p == 0 then 'C' else if p == 2 then 'D' else if p == 4 then 'E' else if p == 5 then 'F'
      else if p == 7 then 'G' else if p == 9 then 'A' else 'B';
    assert c in Alphabet && LetterPitch(c) == p;
    LetterName(c);
  }

  /** A tuning written with letters alone survives `parseTuning` then `tuningToString`. */
  lemma {:induction false} TuningRoundTrip(s: string)
    requires forall i | 0 <= i < |s| :: s[i] in Alphabet
    ensures TuningToString(ParseTuning(s)) == s
  {
    if s != [] {
      var init := s[..|s| - 1];
      var c := s[|s| - 1];
      assert s == init + [c];
      TuningRoundTrip(init);
      ParseTuningAppend(init, [c]);
      LetterName(c);
      TuningToStringSnoc(ParseTuning(init), LetterPitch(c));
    }
  }

  /** ... and a tuning of natural pitch classes survives `tuningToString` then `parseTuning`. */
  lemma {:induction false} TuningRoundTripBack(t: seq<int>)
    requires forall i | 0 <= i < |t| :: t[i] in AlphabetPitches
    ensures ParseTuning(TuningToString(t)) == t
  {
    if t != [] {
      var init := t[..|t| - 1];
      var p := t[|t| - 1];
      assert t == init + [p];
      TuningRoundTripBack(init);
      TuningToStringSnoc(init, p);
      ParseTuningAppend(TuningToString(init), Notes2Text(p));
      NaturalName(p);
    }
  }

  /** A sharp in a tuning does not survive: C sharp is written as the two characters "C#" ... */
  lemma SharpTuningText()
    ensures TuningToString([1]) == "C#"
  {
    TuningToStringSnoc([], 1);
    assert [] + [1] == [1];
  }

  /** ... while `parseTuning` only ever yields -1 or a natural pitch class, one entry per character. */
  lemma ParseTuningNaturals(input: string)
    ensures forall i | 0 <= i < |ParseTuning(input)| ::
      ParseTuning(input)[i] == -1 || ParseTuning(input)[i] in AlphabetPitches
  {
    ParseTuningSpec(input);
    forall i | 0 <= i < |input|
      ensures LetterPitch(input[i]) == -1 || LetterPitch(input[i]) in AlphabetPitches
    {
      LetterPitchNatural(input[i]);
    }
  }

  /** A letter's pitch class is one of the naturals'. */
  lemma LetterPitchNatural(c: char)
    ensures LetterPitch(c) == -1 || LetterPitch(c) in AlphabetPitches
  {
    var p := LetterPitch(c);
    if p != -1 {
      var k := if p == 0 then 0 else if p == 2 then 1 else if p == 4 then 2 else if p == 5 then 3
        else if p == 7 then 4 else if p == 9 then 5 else 6;
      assert AlphabetPitches[k] == p;
    }
  }

  // ---------------------------------------------------------------------
  // Scales as text

  /** `s.split(sep)`: the pieces between the separators; the empty string is one empty piece. */
  function Split(s: string, sep: char): seq<string>
    decreases |s|
  {
    var i := IndexOf(s, sep);
    if i < 0 then [s] else [s[..i]] + Split(s[i + 1..], sep)
  }

  /** `pieces.join(sep)`: the pieces with one separator between neighbours. */
  function Join(pieces: seq<string>, sep: char): string
  {
    if |pieces| == 0 then ""
    else if |pieces| == 1 then pieces[0]
    else pieces[0] + [sep] + Join(pieces[1..], sep)
  }

  /** Splitting gives at least one piece, no piece holds the separator, and joining the pieces restores the text. */
  lemma SplitSpec(s: string, sep: char)
    ensures |Split(s, sep)| >= 1
    ensures forall k | 0 <= k < |Split(s, sep)| :: sep !in Split(s, sep)[k]
    ensures Join(Split(s, sep), sep) == s
  {
    SplitPieces(s, sep);
    SplitRejoins(s, sep);
  }

  lemma {:induction false} SplitPieces(s: string, sep: char)
    ensures |Split(s, sep)| >= 1
    ensures forall k | 0 <= k < |Split(s, sep)| :: sep !in Split(s, sep)[k]
    decreases |s|
  {
    var i := IndexOf(s, sep);
    IndexOfSpec(s, sep);
    if i >= 0 {
      var head, rest := s[..i], s[i + 1..];
      SplitPieces(rest, sep);
      var tail := Split(rest, sep);
      assert sep !in head;
      var pieces := Split(s, sep);
      assert pieces == [head] + tail;
      forall k | 0 <= k < |pieces|
        ensures sep !in pieces[k]
      {
        if k > 0 {
          assert pieces[k] == tail[k - 1];
        }
      }
    }
  }

  lemma {:induction false} SplitRejoins(s: string, sep: char)
    ensures Join(Split(s, sep), sep) == s
    decreases |s|
  {
    var i := IndexOf(s, sep);
    if i >= 0 {
      var head, rest := s[..i], s[i + 1..];
      SplitRejoins(rest, sep);
      SplitPieces(rest, sep);
      JoinFront(head, Split(rest, sep), sep);
      CutAt(s, i);
    }
  }

  /** Joining a piece in front of at least one more puts a separator between them. */
  lemma JoinFront(head: string, tail: seq<string>, sep: char)
    requires |tail| >= 1
    ensures Join([head] + tail, sep) == head + [sep] + Join(tail, sep)
  {
    assert ([head] + tail)[1..] == tail;
  }

  /** A text is what lies before position i, the character there, and what follows. */
  lemma CutAt(s: string, i: int)
    requires 0 <= i < |s|
    ensures s == s[..i] + [s[i]] + s[i + 1..]
  {
  }

  /** Joining pieces free of the separator and splitting again gives the pieces back. */
  lemma {:induction false} JoinSplit(pieces: seq<string>, sep: char)
    requires |pieces| >= 1
    requires forall k | 0 <= k < |pieces| :: sep !in pieces[k]
    ensures Split(Join(pieces, sep), sep) == pieces
  {
    var first := pieces[0];
    if |pieces| == 1 {
      IndexOfSpec(first, sep);
    } else {
      var rest := Join(pieces[1..], sep);
      JoinSplit(pieces[1..], sep);
      var text := first + [sep] + rest;
      IndexOfAt(text, sep, |first|);
      assert text[..|first|] == first;
      assert text[|first| + 1..] == rest;
    }
  }

  predicate IsDigit(c: char)
  {
    '0' <= c <= '9'
  }

  predicate AllDigits(s: string)
  {
    forall k | 0 <= k < |s| :: IsDigit(s[k])
  }

  /** The value of a run of decimal digits, most significant first. */
  function DigitsValue(s: string): nat
    requires AllDigits(s)
  {
    if s == [] then 0 else 10 * DigitsValue(s[..|s| - 1]) + (s[|s| - 1] as int - '0' as int)
  }

  /**
   * `+x` on a piece of the scale field: the empty piece is 0, a run of
   * decimal digits with an optional sign is its value, and anything else
   * is NaN, here None.
   */
  function ToNumber(x: string): (r: Option<int>)
    ensures r.Some? <==> x == [] || AllDigits(x) || (|x| > 1 && x[0] in "+-" && AllDigits(x[1..]))
    ensures r.Some? && r.value < 0 ==> |x| > 1 && x[0] == '-'
  {
    if x == [] then Some(0)
    else if AllDigits(x) then Some(DigitsValue(x))
    else if |x| > 1 && x[0] == '-' && AllDigits(x[1..]) then Some(-(DigitsValue(x[1..]) as int))
    else if |x| > 1 && x[0] == '+' && AllDigits(x[1..]) then Some(DigitsValue(x[1..]))
    else None
  }

  /**
   * `parseScale(str)`: the comma-separated pieces, each converted to a
   * number; at least one entry, and exactly one when there is no comma.
   */
  function ParseScale(str: string): (r: seq<Option<int>>)
    ensures |r| >= 1
    ensures ',' !in str ==> |r| == 1 && r[0] == ToNumber(str)
  {
    var pieces := Split(str, ',');
    SplitPieces(str, ',');
    IndexOfSpec(str, ',');
    seq(|pieces|, i requires 0 <= i < |pieces| => ToNumber(pieces[i]))
  }

  /** How a number is written in decimal, as `join` writes the entries of a scale. */
  function Decimal(n: nat): string
  {
    if n < 10 then [('0' as int + n) as char]
    else Decimal(n / 10) + [('0' as int + n % 10) as char]
  }

  /** `scale.join(",")`: the text the page writes for a scale. */
  function ScaleText(scale: seq<nat>): string
  {
    Join(seq(|scale|, i requires 0 <= i < |scale| => Decimal(scale[i])), ',')
  }

  /** Decimal writing is a non-empty run of digits that reads back as the number. */
  lemma {:induction false} DecimalSpec(n: nat)
    ensures |Decimal(n)| > 0 && AllDigits(Decimal(n))
    ensures DigitsValue(Decimal(n)) == n
  {
    if n >= 10 {
      DecimalSpec(n / 10);
      var d := Decimal(n);
      assert d[..|d| - 1] == Decimal(n / 10);
    }
  }

  /** Reading back a scale the page wrote gives its entries, for any non-empty scale of naturals. */
  lemma ParseScaleText(scale: seq<nat>)
    requires |scale| > 0
    ensures ParseScale(ScaleText(scale)) == seq(|scale|, i requires 0 <= i < |scale| => Some(scale[i]))
  {
    var pieces := seq(|scale|, i requires 0 <= i < |scale| => Decimal(scale[i]));
    forall k | 0 <= k < |pieces|
      ensures ',' !in pieces[k] && ToNumber(pieces[k]) == Some(scale[k])
    {
      DecimalSpec(scale[k]);
    }
    JoinSplit(pieces, ',');
  }

  /** The example of the scale field: "2,4,5" is read as 2, 4 and 5. */
  lemma ParseScaleExample()
    ensures ParseScale("2,4,5") == [Some(2), Some(4), Some(5)]
  {
    var scale: seq<nat> := [2, 4, 5];
    ParseScaleText(scale);
    var pieces := seq(3, i requires 0 <= i < 3 => Decimal(scale[i]));
    assert pieces == ["2", "4", "5"];
    assert Join(["5"], ',') == "5";
    assert Join(["4", "5"], ',') == "4,5";
    assert ScaleText(scale) == "2,4,5";
    assert seq(3, i requires 0 <= i < 3 => Some(scale[i])) == [Some(2), Some(4), Some(5)];
  }

  /** An empty scale field is not an empty scale: it reads as the single step 0. */
  lemma ParseScaleEmpty()
    ensures ParseScale("") == [Some(0)]
  {
  }

  // ---------------------------------------------------------------------
  // Helpers

  /** `equalArray(a1, a2)`: the lengths agree and so does every entry. */
  function EqualArray<T(==)>(a1: seq<T>, a2: seq<T>): (equal: bool)
    ensures equal <==> a1 == a2
  {
    |a1| == |a2| && forall i | 0 <= i < |a1| :: a1[i] == a2[i]
  }

  /** `mod(a, n)`: the remainder made non-negative, `((a % n) + n) % n` under JavaScript's `%`. */
  function Mod(a: int, n: int): (r: int)
    requires n != 0
    ensures Abs(r) < Abs(n)
    ensures n > 0 ==> r >= 0
  {
    JsRem(JsRem(a, n) + n, n)
  }

  /**
   * For a positive divisor, `mod` is the mathematical remainder: it lies
   * in [0, n) and differs from a by a multiple of n.
   */
  lemma ModSpec(a: int, n: int)
    requires n > 0
    ensures Mod(a, n) == a % n
    ensures 0 <= Mod(a, n) < n
    ensures a == n * (a / n) + Mod(a, n)
  {
    var r := JsRem(a, n);
    if a >= 0 || a % n == 0 {
      assert r == a % n;
      JsRemNonNegative(r + n, n);
      ModOnce(r + n, n);
    } else {
      assert r == a % n - n;
      JsRemNonNegative(r + n, n);
      ModSmall(r + n, n);
    }
  }
}
