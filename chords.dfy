/**
 * The chord finder of chords.js: a chord name is parsed into its root and
 * the pitch classes of a triad, then every fingering of the triad on a
 * fretted instrument is searched for, string by string, within a hand's
 * reach of four frets.
 *
 * The list `notes` of chords.js is the list `notes2` of scales.js, here
 * `Scales.Notes2`.
 */
module Chords {
  import opened Wrappers
  import opened JsBuiltins
  import Scales

  // ---------------------------------------------------------------------
  // Chord names

  datatype Quality = Minor | Major | Augmented | Diminished

  /** `modifierMap`: the suffixes a chord name may carry and the quality each names. */
  const ModifierMap: map<string, Quality> := map[
    "m" := Minor, "min" := Minor,
    "" := Major, "M" := Major, "Ma" := Major, "Maj" := Major,
    "+" := Augmented, "aug" := Augmented,
    "dim" := Diminished
  ]

  /** The record `parseChord` returns: a display name, the intervals above the root and the pitch classes. */
  datatype Chord = Chord(name: string, formula: seq<int>, notes: seq<int>)

  function QualityName(q: Quality): string
  {
    match q
    case Minor => "minor"
    case Major => "major"
    case Augmented => "augmented"
    case Diminished => "diminished"
  }

  /** The characters `.` does not match in a JavaScript regular expression. */
  predicate IsLineTerminator(c: char)
  {
    c == '\n' || c == '\r' || c == '\U{2028}' || c == '\U{2029}'
  }

  /** The length of the root group `[A-G][b#]?`: the accidental is taken whenever present. */
  function RootLength(input: string): nat
  {
    if |input| >= 2 && (input[1] == 'b' || input[1] == '#') then 2 else 1
  }

  /**
   * `input.match(/^([A-G][b#]?)(.*)$/)`: the root name and the rest, or
   * None when the input does not start with a letter A to G or the rest
   * holds a line terminator.
   */
  function MatchChord(input: string): Option<(string, string)>
  {
    if |input| == 0 || !('A' <= input[0] <= 'G') then None
    else
      var n := RootLength(input);
      if exists k | n <= k < |input| :: IsLineTerminator(input[k]) then None
      else Some((input[..n], input[n..]))
  }

  /** The position of a root name in `notes`, -1 when it is not listed there. */
  function RootIndex(note: string): int
  {
    IndexOf(Scales.Notes2, note)
  }

  /**
   * `parseChord(input)`: the chord named by a root and a suffix of
   * `modifierMap`; None (the source's `null`) for anything else.  A chord
   * has the three notes and the intervals of its suffix's quality.
   */
  function ParseChord(input: string): (r: Option<Chord>)
    ensures r.Some? ==> |input| > 0 && 'A' <= input[0] <= 'G' && Suffix(input) in ModifierMap
    ensures r.Some? ==> r.value.formula == Formula(ModifierMap[Suffix(input)]) && |r.value.notes| == 3
  {
    match MatchChord(input)
    case None => None
    case Some((note, suffix)) =>
      if suffix !in ModifierMap then None
      else Some(Triad(note, RootIndex(note), ModifierMap[suffix]))
  }

  /**
   * The `switch` of `parseChord`: the chord of a quality on a root name
   * whose index in `notes` is `root`.  The root index is at least -1, so
   * the sums root + interval are never negative and JavaScript's `%` is
   * the mathematical remainder here.
   */
  function Triad(note: string, root: int, q: Quality): Chord
  {
    var name := note + " " + QualityName(q);
    match q
    case Minor => Chord(name, [0, 3, 7], [root, (root + 3) % 12, (root + 7) % 12])
    case Major => Chord(name, [0, 4, 7], [root, (root + 4) % 12, (root + 7) % 12])
    case Augmented => Chord(name, [0, 4, 8], [root, (root + 4) % 12, (root + 8) % 12])
    case Diminished => Chord(name, [0, 3, 6], [root, (root + 3) % 12, (root + 6) % 12])
  }

  /** The intervals of each quality: thirds of 3 or 4 semitones and fifths of 6, 7 or 8. */
  function Formula(q: Quality): seq<int>
  {
    match q
    case Minor => [0, 3, 7]
    case Major => [0, 4, 7]
    case Augmented => [0, 4, 8]
    case Diminished => [0, 3, 6]
  }

  /** The suffix after the root group. */
  function Suffix(input: string): string
    requires |input| > 0
  {
    input[RootLength(input)..]
  }

  /**
   * `parseChord` answers a chord exactly when the input is a letter A to
   * G, an optional flat or sharp, and a suffix listed in `modifierMap`.
   */
  lemma ParseChordDefined(input: string)
    ensures ParseChord(input).Some? <==>
      |input| > 0 && 'A' <= input[0] <= 'G' && Suffix(input) in ModifierMap
  {
    if |input| > 0 && 'A' <= input[0] <= 'G' && Suffix(input) in ModifierMap {
      var n := RootLength(input);
      forall k | n <= k < |input|
        ensures !IsLineTerminator(input[k])
      {
        assert input[k] == Suffix(input)[k - n];
      }
    }
  }

  /** A parsed chord is the triad of the suffix's quality on the root group. */
  lemma ParseChordTriad(input: string)
    requires ParseChord(input).Some?
    ensures var note := input[..RootLength(input)];
      ParseChord(input).value == Triad(note, RootIndex(note), ModifierMap[Suffix(input)])
  {
    ParseChordDefined(input);
  }

  /**
   * A triad carries the quality's intervals, and its notes are the root
   * index followed by root + interval for the third and the fifth,
   * wrapped into 0..11.
   */
  lemma TriadSpec(note: string, root: int, q: Quality)
    ensures var c := Triad(note, root, q);
      c.formula == Formula(q)
      && |c.notes| == 3 && c.notes[0] == root
      && forall i | 1 <= i < 3 :: c.notes[i] == (root + c.formula[i]) % 12
  {
  }

  /**
   * The notes of a triad on a listed root are pitch classes, and each
   * lies its interval above the root, counted modulo 12.
   */
  lemma TriadIntervals(note: string, root: int, q: Quality)
    requires 0 <= root < 12
    ensures var c := Triad(note, root, q);
      forall i | 0 <= i < |c.notes| ::
        0 <= c.notes[i] < 12 && (c.notes[i] - c.notes[0]) % 12 == c.formula[i]
  {
    TriadSpec(note, root, q);
    var c := Triad(note, root, q);
    forall i | 0 <= i < |c.notes|
      ensures 0 <= c.notes[i] < 12 && (c.notes[i] - root) % 12 == c.formula[i]
    {
      if i == 0 {
        assert c.notes[i] - root == 0;
      } else {
        assert 0 <= c.formula[i] < 12;
        Above(root, c.formula[i], c.notes[i]);
      }
    }
  }

  /** A pitch class k semitones above a pitch class lies k above it modulo 12. */
  lemma Above(root: int, k: int, n: int)
    requires 0 <= root < 12 && 0 <= k < 12 && n == (root + k) % 12
    ensures 0 <= n < 12 && (n - root) % 12 == k
  {
    if root + k < 12 {
      ModSmall(root + k, 12);
      ModSmall(k, 12);
    } else {
      ModOnce(root + k, 12);
      assert n - root == k - 12;
    }
  }

  /**
   * The sharps of C, D, F, G and A are listed in `notes` one above their
   * letter: root indices 1, 3, 6, 8 and 10.
   */
  lemma SharpRoots(letter: char)
    requires letter in "CDFGA"
    ensures RootIndex([letter, '#']) == Scales.LetterPitch(letter) + 1
  {
    var s, j := Scales.Notes2, Scales.LetterPitch(letter) + 1;
    assert s[..10] == ["C", "C#", "D", "D#", "E", "F", "F#", "G", "G#", "A"];
    assert s[..j] == s[..10][..j];
    IndexOfAt(s, [letter, '#'], j);
  }

  /** E sharp and B sharp are not listed in `notes`: their root index is -1. */
  lemma MissingSharp(letter: char)
    requires letter == 'E' || letter == 'B'
    ensures RootIndex([letter, '#']) == -1
  {
    IndexOfSpec(Scales.Notes2, [letter, '#']);
    if letter == 'E' {
      assert "E#" !in Scales.Notes2;
    } else {
      assert "B#" !in Scales.Notes2;
    }
  }

  /** No flat root is listed in `notes`: its root index is -1. */
  lemma FlatRoot(letter: char)
    ensures RootIndex([letter, 'b']) == -1
  {
    IndexOfSpec(Scales.Notes2, [letter, 'b']);
    assert [letter, 'b'] !in Scales.Notes2;
  }

  // ---------------------------------------------------------------------
  // Fingerings
  //
  // A fingering gives one entry per string, from the first string of the
  // tuning: -1 for a muted string, 0 for an open string and otherwise the
  // fret pressed.

  /** How many frets the hand spans (`reach`). */
  const Reach := 4

  function Max(a: int, b: int): int { if a >= b then a else b }
  function Min(a: int, b: int): int { if a <= b then a else b }

  /** `Math.max(...f)` of a non-empty list. */
  function MaxEntry(f: seq<int>): (m: int)
    requires |f| > 0
    ensures m in f && forall i | 0 <= i < |f| :: f[i] <= m
  {
    if |f| == 1 then f[0] else Max(f[0], MaxEntry(f[1..]))
  }

  /** `Math.min(...f.filter(x => x > 0))`: None stands for the Infinity of an empty list. */
  function MinPositive(f: seq<int>): (m: Option<int>)
    ensures m.None? <==> forall i | 0 <= i < |f| :: f[i] <= 0
    ensures m.Some? ==> m.value in f && m.value > 0
    ensures m.Some? ==> forall i | 0 <= i < |f| && f[i] > 0 :: m.value <= f[i]
  {
    if |f| == 0 then None
    else
      var rest := MinPositive(f[1..]);
      if f[0] <= 0 then rest
      else if rest.None? then Some(f[0])
      else Some(Min(f[0], rest.value))
  }

  /** `min` of `generateChord`: the lowest fret tried, reach - 1 below the highest entry so far. */
  function Low(fingering: seq<int>): int
  {
    if |fingering| == 0 then 0 else Max(0, MaxEntry(fingering) - (Reach - 1))
  }

  /** `max` of `generateChord`: the highest fret tried, reach - 1 above the lowest fretted entry, at most `frets`. */
  function High(fingering: seq<int>, frets: int): int
  {
    match MinPositive(fingering)
    case None => frets
    case Some(m) => Min(m + (Reach - 1), frets)
  }

  /** The pitch class a string sounds at a fret, with JavaScript's `%`. */
  function FretNote(tuning: seq<int>, str: nat, fret: int): int
    requires str < |tuning|
  {
    JsRem(tuning[str] + fret, 12)
  }

  /**
   * `generateChord(tuning, frets, notes, usedNotes, fingering)`: the
   * completions of `fingering` to all strings.  For the next string it
   * tries, in this order, the open string (only when the reach window has
   * left fret 0 behind), the muted string, and each fret of the window
   * sounding a chord note; a completion is kept when `usedNotes` then
   * holds as many distinct notes as the chord has.  `FingeringsExactly`
   * states which completions these are.
   */
  function Fingerings(tuning: seq<int>, frets: int, notes: seq<int>, used: set<int>, fingering: seq<int>): (r: seq<seq<int>>)
    requires |fingering| <= |tuning|
    decreases |tuning| - |fingering|, 2, 0
    ensures forall f | f in r :: |f| == |tuning| && f[..|fingering|] == fingering
  {
    if |fingering| == |tuning| then
      if |used| == |notes| then [fingering] else []
    else
      var str := |fingering|;
      var open := if Low(fingering) > 0 && tuning[str] in notes
        then Fingerings(tuning, frets, notes, used + {tuning[str]}, fingering + [0])
        else [];
      var muted := Fingerings(tuning, frets, notes, used, fingering + [-1]);
      var fretted := Fretted(tuning, frets, notes, used, fingering, Low(fingering), High(fingering, frets));
      Shortened(open, fingering, 0, |tuning|);
      Shortened(muted, fingering, -1, |tuning|);
      assert forall f | f in open + muted + fretted :: f in open || f in muted || f in fretted;
      open + muted + fretted
  }

  /** Completions of `fingering + [x]` are completions of `fingering`. */
  lemma Shortened(fs: seq<seq<int>>, fingering: seq<int>, x: int, n: nat)
    requires |fingering| < n
    requires forall f | f in fs :: |f| == n && f[..|fingering| + 1] == fingering + [x]
    ensures forall f | f in fs :: |f| == n && f[..|fingering|] == fingering
  {
    forall f | f in fs
      ensures f[..|fingering|] == fingering
    {
      assert f[..|fingering|] == f[..|fingering| + 1][..|fingering|];
    }
  }

  /** The fretted completions of `generateChord` for the frets `fret` to `hi` of the next string. */
  function Fretted(tuning: seq<int>, frets: int, notes: seq<int>, used: set<int>, fingering: seq<int>,
                   fret: int, hi: int): (r: seq<seq<int>>)
    requires |fingering| < |tuning|
    decreases |tuning| - |fingering|, 1, hi - fret + 1
    ensures forall f | f in r :: |f| == |tuning| && f[..|fingering|] == fingering
  {
    if fret > hi then []
    else FretChords(tuning, frets, notes, used, fingering, fret) + Fretted(tuning, frets, notes, used, fingering, fret + 1, hi)
  }

  /** The completions of `generateChord` that press the next string at `fret`, if it sounds a chord note. */
  function FretChords(tuning: seq<int>, frets: int, notes: seq<int>, used: set<int>, fingering: seq<int>,
                      fret: int): (r: seq<seq<int>>)
    requires |fingering| < |tuning|
    decreases |tuning| - |fingering|, 0, 0
    ensures forall f | f in r :: |f| == |tuning| && f[..|fingering|] == fingering
  {
    var note := FretNote(tuning, |fingering|, fret);
    if note in notes then
      var pressed := Fingerings(tuning, frets, notes, used + {note}, fingering + [fret]);
      Shortened(pressed, fingering, fret, |tuning|);
      pressed
    else []
  }

  /** `generateChord`: the recursive search, collecting the completions string by string. */
  method GenerateChord(tuning: seq<int>, frets: int, notes: seq<int>, used: set<int>, fingering: seq<int>)
    returns (fingerings: seq<seq<int>>)
    requires |fingering| <= |tuning|
    ensures fingerings == Fingerings(tuning, frets, notes, used, fingering)
    decreases |tuning| - |fingering|, 2
  {
    if |fingering| == |tuning| {
      fingerings := if |used| == |notes| then [fingering] else [];
      return;
    }
    var str := |fingering|;
    var lo := Low(fingering);
    var hi := High(fingering, frets);
    var open := [];
    if lo > 0 && tuning[str] in notes {
      open := GenerateChord(tuning, frets, notes, used + {tuning[str]}, fingering + [0]);
    }
    var muted := GenerateChord(tuning, frets, notes, used, fingering + [-1]);
    fingerings := AddFretted(tuning, frets, notes, used, fingering, lo, hi, open + muted);
  }

  /** The fret loop of `generateChord`: appends the fretted completions for the frets `lo` to `hi`. */
  method AddFretted(tuning: seq<int>, frets: int, notes: seq<int>, used: set<int>, fingering: seq<int>,
                    lo: int, hi: int, acc: seq<seq<int>>)
    returns (fingerings: seq<seq<int>>)
    requires |fingering| < |tuning|
    ensures fingerings == acc + Fretted(tuning, frets, notes, used, fingering, lo, hi)
    decreases |tuning| - |fingering|, 1
  {
    fingerings := acc;
    var fret := lo;
    while fret <= hi
      invariant fingerings + Fretted(tuning, frets, notes, used, fingering, fret, hi)
             == acc + Fretted(tuning, frets, notes, used, fingering, lo, hi)
      decreases hi - fret
    {
      ghost var prior := fingerings;
      var more := FretChord(tuning, frets, notes, used, fingering, fret);
      fingerings := fingerings + more;
      Concat3(prior, more, Fretted(tuning, frets, notes, used, fingering, fret + 1, hi));
      fret := fret + 1;
    }
    assert Fretted(tuning, frets, notes, used, fingering, fret, hi) == [];
  }

  /** The body of the fret loop: the completions pressing the next string at `fret`. */
  method FretChord(tuning: seq<int>, frets: int, notes: seq<int>, used: set<int>, fingering: seq<int>, fret: int)
    returns (found: seq<seq<int>>)
    requires |fingering| < |tuning|
    ensures found == FretChords(tuning, frets, notes, used, fingering, fret)
    decreases |tuning| - |fingering|, 0
  {
    found := [];
    var note := JsRem(tuning[|fingering|] + fret, 12);
    if note in notes {
      found := GenerateChord(tuning, frets, notes, used + {note}, fingering + [fret]);
    }
  }

  /** `Array(n).fill(-1)`: n muted strings. */
  function Muted(n: nat): (f: seq<int>)
    ensures |f| == n && forall i | 0 <= i < n :: f[i] == -1
  {
    seq(n, _ => -1)
  }

  /**
   * The chords `generateChords` finds with the root on string `str` at
   * `fret`: when the string sounds the root, `notes[0]`, the strings
   * before are muted and the search completes the strings after.
   */
  function RootChords(tuning: seq<int>, frets: int, notes: seq<int>, str: nat, fret: int): seq<seq<int>>
    requires str + |notes| < |tuning|
  {
    var note := FretNote(tuning, str, fret);
    if |notes| > 0 && note == notes[0] then Fingerings(tuning, frets, notes, {note}, Muted(str) + [fret]) else []
  }

  /** The chords rooted on string `str` for the frets `fret` up to `frets` - 1. */
  function RootFrets(tuning: seq<int>, frets: int, notes: seq<int>, str: nat, fret: nat): seq<seq<int>>
    requires str + |notes| < |tuning|
    decreases frets - fret
  {
    if fret >= frets then []
    else RootChords(tuning, frets, notes, str, fret) + RootFrets(tuning, frets, notes, str, fret + 1)
  }

  /**
   * `generateChords(tuning, frets, notes)` from the root string `str` on:
   * the root may lie on any string that leaves at least as many strings
   * after it as the chord has notes.
   */
  function ChordsFrom(tuning: seq<int>, frets: int, notes: seq<int>, str: nat): seq<seq<int>>
    decreases |tuning| - str
  {
    if str + |notes| >= |tuning| then []
    else RootFrets(tuning, frets, notes, str, 0) + ChordsFrom(tuning, frets, notes, str + 1)
  }

  /** `generateChords`: the loops over root strings and root frets. */
  method GenerateChords(tuning: seq<int>, frets: int, notes: seq<int>) returns (chords: seq<seq<int>>)
    ensures chords == ChordsFrom(tuning, frets, notes, 0)
  {
    chords := [];
    var str: nat := 0;
    while str + |notes| < |tuning|
      invariant chords + ChordsFrom(tuning, frets, notes, str) == ChordsFrom(tuning, frets, notes, 0)
      decreases |tuning| - str
    {
      ghost var prior := chords;
      chords := AddRootFrets(tuning, frets, notes, str, chords);
      Concat3(prior, RootFrets(tuning, frets, notes, str, 0), ChordsFrom(tuning, frets, notes, str + 1));
      str := str + 1;
    }
    assert ChordsFrom(tuning, frets, notes, str) == [];
  }

  /** The inner loop of `generateChords`: appends the chords rooted on string `str`. */
  method AddRootFrets(tuning: seq<int>, frets: int, notes: seq<int>, str: nat, acc: seq<seq<int>>)
    returns (chords: seq<seq<int>>)
    requires str + |notes| < |tuning|
    ensures chords == acc + RootFrets(tuning, frets, notes, str, 0)
  {
    chords := acc;
    var fret: nat := 0;
    while fret < frets
      invariant chords + RootFrets(tuning, frets, notes, str, fret) == acc + RootFrets(tuning, frets, notes, str, 0)
      decreases frets - fret
    {
      ghost var prior := chords;
      var found := RootChord(tuning, frets, notes, str, fret);
      chords := chords + found;
      Concat3(prior, found, RootFrets(tuning, frets, notes, str, fret + 1));
      fret := fret + 1;
    }
    assert RootFrets(tuning, frets, notes, str, fret) == [];
  }

  /** The body of the inner loop of `generateChords`: the chords with the root on string `str` at `fret`. */
  method RootChord(tuning: seq<int>, frets: int, notes: seq<int>, str: nat, fret: int) returns (found: seq<seq<int>>)
    requires str + |notes| < |tuning|
    ensures found == RootChords(tuning, frets, notes, str, fret)
  {
    found := [];
    var note := JsRem(tuning[str] + fret, 12);
    if |notes| > 0 && note == notes[0] {
      found := GenerateChord(tuning, frets, notes, {note}, Muted(str) + [fret]);
    }
  }

  // ---------------------------------------------------------------------
  // What the search returns

  /**
   * What the search may put on string i of a fingering: a muted string,
   * the open string once the reach window has left fret 0 behind, or a
   * fret of the window that sounds a chord note.
   */
  predicate Placed(tuning: seq<int>, frets: int, notes: seq<int>, r: seq<int>, i: nat)
    requires i < |r| && i < |tuning|
  {
    r[i] == -1
    || (r[i] == 0 && Low(r[..i]) > 0 && tuning[i] in notes)
    || (Low(r[..i]) <= r[i] <= High(r[..i], frets) && FretNote(tuning, i, r[i]) in notes)
  }

  /** r covers every string, keeps `fingering` and fills each further string as the search may. */
  predicate Completes(tuning: seq<int>, frets: int, notes: seq<int>, fingering: seq<int>, r: seq<int>)
    requires |fingering| <= |tuning|
  {
    |r| == |tuning| && r[..|fingering|] == fingering
    && forall i | |fingering| <= i < |tuning| :: Placed(tuning, frets, notes, r, i)
  }

  /**
   * Every fingering `generateChord` returns covers all strings, leaves the
   * entries of `fingering` unchanged and fills each further string as
   * `Placed` allows.
   */
  lemma {:induction false} FingeringsShape(tuning: seq<int>, frets: int, notes: seq<int>, used: set<int>,
                                           fingering: seq<int>, r: seq<int>)
    requires |fingering| <= |tuning|
    requires r in Fingerings(tuning, frets, notes, used, fingering)
    ensures Completes(tuning, frets, notes, fingering, r)
    decreases |tuning| - |fingering|, 2, 0
  {
    if |fingering| == |tuning| {
      assert r == fingering;
      return;
    }
    var s := |fingering|;
    var lo := Low(fingering);
    var hi := High(fingering, frets);
    var open := if lo > 0 && tuning[s] in notes
      then Fingerings(tuning, frets, notes, used + {tuning[s]}, fingering + [0]) else [];
    var muted := Fingerings(tuning, frets, notes, used, fingering + [-1]);
    var fretted := Fretted(tuning, frets, notes, used, fingering, lo, hi);
    assert r in open + muted + fretted;
    if r in open {
      FingeringsShape(tuning, frets, notes, used + {tuning[s]}, fingering + [0], r);
      Extended(tuning, frets, notes, fingering, 0, r);
    } else if r in muted {
      FingeringsShape(tuning, frets, notes, used, fingering + [-1], r);
      Extended(tuning, frets, notes, fingering, -1, r);
    } else {
      FrettedShape(tuning, frets, notes, used, fingering, lo, hi, r);
      Extended(tuning, frets, notes, fingering, r[s], r);
    }
  }

  /** A completion of `fingering` extended by an entry the search may place completes `fingering`. */
  lemma Extended(tuning: seq<int>, frets: int, notes: seq<int>, fingering: seq<int>, x: int, r: seq<int>)
    requires |fingering| < |tuning|
    requires Completes(tuning, frets, notes, fingering + [x], r)
    requires var s := |fingering|;
      x == -1
      || (x == 0 && Low(fingering) > 0 && tuning[s] in notes)
      || (Low(fingering) <= x <= High(fingering, frets) && FretNote(tuning, s, x) in notes)
    ensures Completes(tuning, frets, notes, fingering, r)
  {
    var s := |fingering|;
    assert r[..s] == r[..s + 1][..s];
    assert r[s] == r[..s + 1][s];
    assert Placed(tuning, frets, notes, r, s);
  }

  /** The fretted completions press the next string at a fret of `fret`..`hi` sounding a chord note. */
  lemma {:induction false} FrettedShape(tuning: seq<int>, frets: int, notes: seq<int>, used: set<int>,
                                        fingering: seq<int>, fret: int, hi: int, r: seq<int>)
    requires |fingering| < |tuning|
    requires r in Fretted(tuning, frets, notes, used, fingering, fret, hi)
    ensures |r| == |tuning|
    ensures Completes(tuning, frets, notes, fingering + [r[|fingering|]], r)
    ensures fret <= r[|fingering|] <= hi && FretNote(tuning, |fingering|, r[|fingering|]) in notes
    decreases |tuning| - |fingering|, 1, hi - fret + 1
  {
    if r in FretChords(tuning, frets, notes, used, fingering, fret) {
      FretChordsShape(tuning, frets, notes, used, fingering, fret, r);
    } else {
      FrettedShape(tuning, frets, notes, used, fingering, fret + 1, hi, r);
    }
  }

  /** The completions pressing the next string at `fret` do so, and `fret` sounds a chord note. */
  lemma {:induction false} FretChordsShape(tuning: seq<int>, frets: int, notes: seq<int>, used: set<int>,
                                           fingering: seq<int>, fret: int, r: seq<int>)
    requires |fingering| < |tuning|
    requires r in FretChords(tuning, frets, notes, used, fingering, fret)
    ensures Completes(tuning, frets, notes, fingering + [fret], r)
    ensures r[|fingering|] == fret && FretNote(tuning, |fingering|, fret) in notes
    decreases |tuning| - |fingering|, 0, 0
  {
    var note := FretNote(tuning, |fingering|, fret);
    FingeringsShape(tuning, frets, notes, used + {note}, fingering + [fret], r);
    assert r[|fingering|] == r[..|fingering| + 1][|fingering|];
  }

  // ---------------------------------------------------------------------
  // Which fingerings the search returns

  /**
   * The note `generateChord` records in `usedNotes` for string i of r: the
   * open string's own value when it was taken as the open string, and
   * otherwise the note the fret sounds.
   */
  function Recorded(tuning: seq<int>, r: seq<int>, i: nat): int
    requires i < |r| && i < |tuning|
  {
    if r[i] == 0 && Low(r[..i]) > 0 then tuning[i] else FretNote(tuning, i, r[i])
  }

  /** The notes recorded for the strings of r from i on: one per string that is not muted. */
  function RecordedFrom(tuning: seq<int>, r: seq<int>, i: nat): set<int>
    decreases |r| - i
  {
    if i >= |r| || i >= |tuning| then {}
    else (if r[i] == -1 then {} else {Recorded(tuning, r, i)}) + RecordedFrom(tuning, r, i + 1)
  }

  /**
   * The search misses nothing: every completion of `fingering` filled as
   * the search may place its strings, whose recorded notes together with
   * `usedNotes` are as many as the chord's notes, is returned.
   */
  lemma {:induction false} FingeringsComplete(tuning: seq<int>, frets: int, notes: seq<int>, used: set<int>,
                                              fingering: seq<int>, r: seq<int>)
    requires |fingering| <= |tuning|
    requires Completes(tuning, frets, notes, fingering, r)
    requires |used + RecordedFrom(tuning, r, |fingering|)| == |notes|
    ensures r in Fingerings(tuning, frets, notes, used, fingering)
    decreases |tuning| - |fingering|
  {
    var s := |fingering|;
    if s == |tuning| {
      assert r == r[..s] == fingering;
      return;
    }
    var x := r[s];
    var next := fingering + [x];
    assert r[..s + 1] == next;
    assert Placed(tuning, frets, notes, r, s);
    var lo, hi := Low(fingering), High(fingering, frets);
    var open := if lo > 0 && tuning[s] in notes
      then Fingerings(tuning, frets, notes, used + {tuning[s]}, fingering + [0]) else [];
    var muted := Fingerings(tuning, frets, notes, used, fingering + [-1]);
    var fretted := Fretted(tuning, frets, notes, used, fingering, lo, hi);
    assert Fingerings(tuning, frets, notes, used, fingering) == open + muted + fretted;
    if x == -1 {
      RecordedNext(tuning, fingering, used, r);
      FingeringsComplete(tuning, frets, notes, used, next, r);
      assert r in muted;
    } else if x == 0 && lo > 0 {
      RecordedNext(tuning, fingering, used, r);
      FingeringsComplete(tuning, frets, notes, used + {tuning[s]}, next, r);
      assert r in open;
    } else {
      var note := FretNote(tuning, s, x);
      RecordedNext(tuning, fingering, used, r);
      FingeringsComplete(tuning, frets, notes, used + {note}, next, r);
      FrettedContains(tuning, frets, notes, used, fingering, lo, hi, x, r);
    }
  }

  /** The fret loop collects the completions of every fret of `fret`..`hi`. */
  lemma {:induction false} FrettedContains(tuning: seq<int>, frets: int, notes: seq<int>, used: set<int>,
                                           fingering: seq<int>, fret: int, hi: int, x: int, r: seq<int>)
    requires |fingering| < |tuning| && fret <= x <= hi
    requires r in FretChords(tuning, frets, notes, used, fingering, x)
    ensures r in Fretted(tuning, frets, notes, used, fingering, fret, hi)
    decreases hi - fret
  {
    var here, later := FretChords(tuning, frets, notes, used, fingering, fret),
                       Fretted(tuning, frets, notes, used, fingering, fret + 1, hi);
    assert Fretted(tuning, frets, notes, used, fingering, fret, hi) == here + later;
    if fret < x {
      FrettedContains(tuning, frets, notes, used, fingering, fret + 1, hi, x, r);
      assert r in later;
    } else {
      assert r in here;
    }
  }

  /**
   * The search returns nothing else: with `usedNotes` every fingering it
   * returns records exactly as many distinct notes as the chord has.
   */
  lemma {:induction false} FingeringsCount(tuning: seq<int>, frets: int, notes: seq<int>, used: set<int>,
                                           fingering: seq<int>, r: seq<int>)
    requires |fingering| <= |tuning|
    requires r in Fingerings(tuning, frets, notes, used, fingering)
    ensures |used + RecordedFrom(tuning, r, |fingering|)| == |notes|
    decreases |tuning| - |fingering|, 2, 0
  {
    var s := |fingering|;
    if s == |tuning| {
      assert r == fingering;
      return;
    }
    var lo, hi := Low(fingering), High(fingering, frets);
    var open := if lo > 0 && tuning[s] in notes
      then Fingerings(tuning, frets, notes, used + {tuning[s]}, fingering + [0]) else [];
    var muted := Fingerings(tuning, frets, notes, used, fingering + [-1]);
    var fretted := Fretted(tuning, frets, notes, used, fingering, lo, hi);
    assert r in open + muted + fretted;
    if r in open {
      assert NextUsed(tuning, fingering, used, 0) == used + {tuning[s]};
      NextCount(tuning, frets, notes, used, fingering, 0, r);
    } else if r in muted {
      NextCount(tuning, frets, notes, used, fingering, -1, r);
    } else {
      FrettedCount(tuning, frets, notes, used, fingering, lo, hi, r);
    }
  }

  /** The fretted completions record the pressed note and keep the count. */
  lemma {:induction false} FrettedCount(tuning: seq<int>, frets: int, notes: seq<int>, used: set<int>,
                                        fingering: seq<int>, fret: int, hi: int, r: seq<int>)
    requires |fingering| < |tuning| && Low(fingering) <= fret
    requires r in Fretted(tuning, frets, notes, used, fingering, fret, hi)
    ensures |used + RecordedFrom(tuning, r, |fingering|)| == |notes|
    decreases |tuning| - |fingering|, 1, hi - fret + 1
  {
    if r in FretChords(tuning, frets, notes, used, fingering, fret) {
      FretChordsCount(tuning, frets, notes, used, fingering, fret, r);
    } else {
      FrettedCount(tuning, frets, notes, used, fingering, fret + 1, hi, r);
    }
  }

  /** The completions pressing the next string at `fret` record its note and keep the count. */
  lemma {:induction false} FretChordsCount(tuning: seq<int>, frets: int, notes: seq<int>, used: set<int>,
                                           fingering: seq<int>, fret: int, r: seq<int>)
    requires |fingering| < |tuning| && Low(fingering) <= fret
    requires r in FretChords(tuning, frets, notes, used, fingering, fret)
    ensures |used + RecordedFrom(tuning, r, |fingering|)| == |notes|
    decreases |tuning| - |fingering|, 0, 1
  {
    assert fret == 0 ==> Low(fingering) == 0;
    NextCount(tuning, frets, notes, used, fingering, fret, r);
  }

  /** The completions of `fingering + [x]` with the notes recorded for x keep the count. */
  lemma {:induction false} NextCount(tuning: seq<int>, frets: int, notes: seq<int>, used: set<int>,
                                     fingering: seq<int>, x: int, r: seq<int>)
    requires |fingering| < |tuning|
    requires r in Fingerings(tuning, frets, notes, NextUsed(tuning, fingering, used, x), fingering + [x])
    ensures |used + RecordedFrom(tuning, r, |fingering|)| == |notes|
    decreases |tuning| - |fingering|, 0, 0
  {
    var next := NextUsed(tuning, fingering, used, x);
    FingeringsShape(tuning, frets, notes, next, fingering + [x], r);
    FingeringsCount(tuning, frets, notes, next, fingering + [x], r);
    NextEntry(fingering, x, r);
    RecordedNext(tuning, fingering, used, r);
  }

  /** The `usedNotes` the search passes on when it puts x on the next string. */
  function NextUsed(tuning: seq<int>, fingering: seq<int>, used: set<int>, x: int): set<int>
    requires |fingering| < |tuning|
  {
    if x == -1 then used
    else if x == 0 && Low(fingering) > 0 then used + {tuning[|fingering|]}
    else used + {FretNote(tuning, |fingering|, x)}
  }

  /** Recording the next string of r moves its note from the recorded ones into `usedNotes`. */
  lemma RecordedNext(tuning: seq<int>, fingering: seq<int>, used: set<int>, r: seq<int>)
    requires |fingering| < |r| && |fingering| < |tuning| && r[..|fingering|] == fingering
    ensures used + RecordedFrom(tuning, r, |fingering|)
      == NextUsed(tuning, fingering, used, r[|fingering|]) + RecordedFrom(tuning, r, |fingering| + 1)
  {
  }

  /** A completion of `fingering + [x]` holds x next and `fingering` before it. */
  lemma NextEntry(fingering: seq<int>, x: int, r: seq<int>)
    requires |fingering| < |r| && r[..|fingering| + 1] == fingering + [x]
    ensures r[|fingering|] == x && r[..|fingering|] == fingering
  {
    var s := |fingering|;
    assert r[s] == r[..s + 1][s];
    assert r[..s] == r[..s + 1][..s];
  }

  /**
   * `generateChord` returns exactly the completions of `fingering` filled
   * as the search may place each string whose recorded notes, with
   * `usedNotes`, number as many as the chord's notes.
   */
  lemma FingeringsExactly(tuning: seq<int>, frets: int, notes: seq<int>, used: set<int>,
                          fingering: seq<int>, r: seq<int>)
    requires |fingering| <= |tuning|
    ensures r in Fingerings(tuning, frets, notes, used, fingering)
      <==> Completes(tuning, frets, notes, fingering, r) && |used + RecordedFrom(tuning, r, |fingering|)| == |notes|
  {
    if r in Fingerings(tuning, frets, notes, used, fingering) {
      FingeringsShape(tuning, frets, notes, used, fingering, r);
      FingeringsCount(tuning, frets, notes, used, fingering, r);
    } else if Completes(tuning, frets, notes, fingering, r) && |used + RecordedFrom(tuning, r, |fingering|)| == |notes| {
      FingeringsComplete(tuning, frets, notes, used, fingering, r);
    }
  }

  /** The open strings of the tuning are pitch classes, as in the standard tuning of chords.js. */
  predicate PitchClasses(tuning: seq<int>)
  {
    forall k | 0 <= k < |tuning| :: 0 <= tuning[k] < 12
  }

  /** Some string of fingering f, open or pressed, sounds pitch class n. */
  predicate Sounds(tuning: seq<int>, f: seq<int>, n: int)
  {
    exists i | 0 <= i < |f| && i < |tuning| :: f[i] >= 0 && FretNote(tuning, i, f[i]) == n
  }

  /** Every note recorded in `usedNotes` is a chord note that the fingering sounds. */
  predicate Tracked(tuning: seq<int>, notes: seq<int>, used: set<int>, fingering: seq<int>)
  {
    forall n | n in used :: n in notes && Sounds(tuning, fingering, n)
  }

  /**
   * When `usedNotes` records chord notes the fingering sounds, as it does
   * from `generateChords`, every fingering `generateChord` returns sounds
   * every note of the chord: counting the distinct notes used is enough.
   */
  lemma {:induction false} FingeringsCover(tuning: seq<int>, frets: int, notes: seq<int>, used: set<int>,
                                           fingering: seq<int>, r: seq<int>)
    requires |fingering| <= |tuning| && PitchClasses(tuning)
    requires Tracked(tuning, notes, used, fingering)
    requires r in Fingerings(tuning, frets, notes, used, fingering)
    ensures forall n | n in notes :: Sounds(tuning, r, n)
    decreases |tuning| - |fingering|, 2, 0
  {
    if |fingering| == |tuning| {
      assert r == fingering && |used| == |notes|;
      AllUsed(used, notes);
      return;
    }
    var s := |fingering|;
    var lo := Low(fingering);
    var hi := High(fingering, frets);
    var open := if lo > 0 && tuning[s] in notes
      then Fingerings(tuning, frets, notes, used + {tuning[s]}, fingering + [0]) else [];
    var muted := Fingerings(tuning, frets, notes, used, fingering + [-1]);
    var fretted := Fretted(tuning, frets, notes, used, fingering, lo, hi);
    assert r in open + muted + fretted;
    if r in open {
      JsRemNonNegative(tuning[s], 12);
      ModSmall(tuning[s], 12);
      TrackedAdd(tuning, notes, used, fingering, 0);
      FingeringsCover(tuning, frets, notes, used + {tuning[s]}, fingering + [0], r);
    } else if r in muted {
      TrackedKeep(tuning, notes, used, fingering, -1);
      FingeringsCover(tuning, frets, notes, used, fingering + [-1], r);
    } else {
      FrettedCover(tuning, frets, notes, used, fingering, lo, hi, r);
    }
  }

  /** The fretted completions sound every chord note. */
  lemma {:induction false} FrettedCover(tuning: seq<int>, frets: int, notes: seq<int>, used: set<int>,
                                        fingering: seq<int>, fret: int, hi: int, r: seq<int>)
    requires |fingering| < |tuning| && PitchClasses(tuning) && fret >= 0
    requires Tracked(tuning, notes, used, fingering)
    requires r in Fretted(tuning, frets, notes, used, fingering, fret, hi)
    ensures forall n | n in notes :: Sounds(tuning, r, n)
    decreases |tuning| - |fingering|, 1, hi - fret + 1
  {
    if r in FretChords(tuning, frets, notes, used, fingering, fret) {
      TrackedAdd(tuning, notes, used, fingering, fret);
      FingeringsCover(tuning, frets, notes, used + {FretNote(tuning, |fingering|, fret)}, fingering + [fret], r);
    } else {
      FrettedCover(tuning, frets, notes, used, fingering, fret + 1, hi, r);
    }
  }

  /** A string left muted, or pressed anywhere, keeps every recorded note sounding. */
  lemma TrackedKeep(tuning: seq<int>, notes: seq<int>, used: set<int>, fingering: seq<int>, x: int)
    requires |fingering| < |tuning|
    requires Tracked(tuning, notes, used, fingering)
    ensures Tracked(tuning, notes, used, fingering + [x])
  {
    forall n | n in used
      ensures Sounds(tuning, fingering + [x], n)
    {
      var i :| 0 <= i < |fingering| && i < |tuning| && fingering[i] >= 0 && FretNote(tuning, i, fingering[i]) == n;
      assert (fingering + [x])[i] == fingering[i];
    }
  }

  /** A string pressed at a fret sounding a chord note records that note. */
  lemma TrackedAdd(tuning: seq<int>, notes: seq<int>, used: set<int>, fingering: seq<int>, x: int)
    requires |fingering| < |tuning| && x >= 0
    requires Tracked(tuning, notes, used, fingering)
    requires FretNote(tuning, |fingering|, x) in notes
    ensures Tracked(tuning, notes, used + {FretNote(tuning, |fingering|, x)}, fingering + [x])
  {
    TrackedKeep(tuning, notes, used, fingering, x);
    var s := |fingering|;
    assert (fingering + [x])[s] == x;
    assert Sounds(tuning, fingering + [x], FretNote(tuning, s, x));
  }

  /** Distinct chord notes as many as the chord's notes are all of them. */
  lemma AllUsed(used: set<int>, notes: seq<int>)
    requires forall n | n in used :: n in notes
    requires |used| == |notes|
    ensures forall n | n in notes :: n in used
  {
    var all := set n | n in notes;
    SeqSetCard(notes);
    forall n | n in used
      ensures n in all
    {
    }
    SubsetEqualCard(used, all);
  }

  /** A list has no more distinct elements than entries. */
  lemma {:induction false} SeqSetCard(s: seq<int>)
    ensures |set n | n in s| <= |s|
  {
    if |s| > 0 {
      var init := s[..|s| - 1];
      SeqSetCard(init);
      assert (set n | n in s) == (set n | n in init) + {s[|s| - 1]} by {
        assert s == init + [s[|s| - 1]];
      }
    }
  }

  lemma SubsetEqualCard(a: set<int>, b: set<int>)
    requires a <= b && |a| >= |b|
    ensures a == b
  {
    assert b == a + (b - a);
    assert a * (b - a) == {};
    assert |b - a| == 0;
  }

  /** An entry the search places is -1 or more, and a pressed fret is at most `frets`. */
  lemma PlacedBounds(tuning: seq<int>, frets: int, notes: seq<int>, r: seq<int>, i: nat)
    requires i < |r| && i < |tuning|
    requires Placed(tuning, frets, notes, r, i)
    ensures -1 <= r[i] && (r[i] > 0 ==> r[i] <= frets)
  {
  }

  /** A sounded entry the search places plays a chord note. */
  lemma PlacedSounds(tuning: seq<int>, frets: int, notes: seq<int>, r: seq<int>, i: nat)
    requires i < |r| && i < |tuning| && PitchClasses(tuning)
    requires Placed(tuning, frets, notes, r, i)
    requires r[i] >= 0
    ensures FretNote(tuning, i, r[i]) in notes
  {
    if r[i] == 0 {
      JsRemNonNegative(tuning[i], 12);
      ModSmall(tuning[i], 12);
    }
  }

  /** The pressed frets of a fingering lie within the hand's reach of one another. */
  predicate WithinReach(f: seq<int>)
  {
    forall i, j | 0 <= i < |f| && 0 <= j < |f| && f[i] > 0 && f[j] > 0 :: f[i] - f[j] < Reach
  }

  /** A fret chosen from the window of `generateChord` stays within reach of the frets already pressed. */
  lemma ReachStep(f: seq<int>, x: int, frets: int)
    requires WithinReach(f)
    requires x > 0 ==> Low(f) <= x <= High(f, frets)
    ensures WithinReach(f + [x])
  {
    var g := f + [x];
    forall i, j | 0 <= i < |g| && 0 <= j < |g| && g[i] > 0 && g[j] > 0
      ensures g[i] - g[j] < Reach
    {
      if i < |f| && j < |f| {
        assert g[i] == f[i] && g[j] == f[j];
      } else if i < |f| {
        assert g[i] == f[i] && g[j] == x;
        assert f[i] <= MaxEntry(f);
      } else if j < |f| {
        assert g[j] == f[j] && g[i] == x;
        assert MinPositive(f).value <= f[j];
      }
    }
  }

  /** A completion of a fingering within reach stays within reach, string by string. */
  lemma {:induction false} ReachKept(tuning: seq<int>, frets: int, notes: seq<int>, fingering: seq<int>,
                                     r: seq<int>, k: nat)
    requires |fingering| <= k <= |tuning|
    requires Completes(tuning, frets, notes, fingering, r)
    requires WithinReach(fingering)
    ensures WithinReach(r[..k])
    decreases k
  {
    if k == |fingering| {
      assert r[..k] == fingering;
    } else {
      ReachKept(tuning, frets, notes, fingering, r, k - 1);
      assert Placed(tuning, frets, notes, r, k - 1);
      assert r[..k - 1] == r[..k][..k - 1];
      ReachStep(r[..k - 1], r[k - 1], frets);
      assert r[..k] == r[..k - 1] + [r[k - 1]];
    }
  }

  /**
   * r is a chord `generateChords` may report with its root on string
   * `str`: the strings before are muted, the root string sounds the root
   * `notes[0]` below fret `frets`, and the strings after are filled as the
   * search may.
   */
  predicate RootedAt(tuning: seq<int>, frets: int, notes: seq<int>, r: seq<int>, str: nat)
  {
    str + |notes| < |tuning| && |notes| > 0
    && |r| == |tuning| && r[..str] == Muted(str)
    && 0 <= r[str] < frets && FretNote(tuning, str, r[str]) == notes[0]
    && forall i | str < i < |tuning| :: Placed(tuning, frets, notes, r, i)
  }

  /**
   * r is a chord `generateChords` reports with its root on string `str`:
   * rooted there, and the root with the notes recorded for the strings
   * after it number as many as the chord's notes.
   */
  predicate Reported(tuning: seq<int>, frets: int, notes: seq<int>, r: seq<int>, str: nat)
  {
    RootedAt(tuning, frets, notes, r, str) && |{notes[0]} + RecordedFrom(tuning, r, str + 1)| == |notes|
  }

  /** The chords found with the root on string `str` at `fret`. */
  lemma RootChordsSpec(tuning: seq<int>, frets: int, notes: seq<int>, str: nat, fret: int, r: seq<int>)
    requires str + |notes| < |tuning| && 0 <= fret < frets
    requires r in RootChords(tuning, frets, notes, str, fret)
    ensures Reported(tuning, frets, notes, r, str) && r[str] == fret
    ensures WithinReach(r)
    ensures PitchClasses(tuning) ==> forall n | n in notes :: Sounds(tuning, r, n)
  {
    RootChordsShape(tuning, frets, notes, str, fret, r);
    RootChordsCount(tuning, frets, notes, str, fret, r);
    var start := Muted(str) + [fret];
    StartWithinReach(str, fret);
    ReachKept(tuning, frets, notes, start, r, |tuning|);
    assert r[..|tuning|] == r;
    if PitchClasses(tuning) {
      StartTracked(tuning, notes, str, fret);
      FingeringsCover(tuning, frets, notes, {notes[0]}, start, r);
    }
  }

  /** A chord found with the root on string `str` at `fret` extends the starting fingering. */
  lemma RootChordsShape(tuning: seq<int>, frets: int, notes: seq<int>, str: nat, fret: int, r: seq<int>)
    requires str + |notes| < |tuning| && 0 <= fret < frets
    requires r in RootChords(tuning, frets, notes, str, fret)
    ensures |notes| > 0 && FretNote(tuning, str, fret) == notes[0]
    ensures r in Fingerings(tuning, frets, notes, {notes[0]}, Muted(str) + [fret])
    ensures RootedAt(tuning, frets, notes, r, str) && r[str] == fret
  {
    var note := FretNote(tuning, str, fret);
    var start := Muted(str) + [fret];
    assert |notes| > 0 && note == notes[0];
    assert r in Fingerings(tuning, frets, notes, {note}, start);
    FingeringsShape(tuning, frets, notes, {note}, start, r);
    assert r[..str + 1] == start;
    assert r[..str] == start[..str] == Muted(str);
    assert r[str] == start[str] == fret;
  }

  /** A chord found with the root on string `str` records as many notes as the chord has. */
  lemma RootChordsCount(tuning: seq<int>, frets: int, notes: seq<int>, str: nat, fret: int, r: seq<int>)
    requires str + |notes| < |tuning|
    requires r in RootChords(tuning, frets, notes, str, fret)
    ensures |notes| > 0 && |{notes[0]} + RecordedFrom(tuning, r, str + 1)| == |notes|
  {
    var start := Muted(str) + [fret];
    assert |notes| > 0 && FretNote(tuning, str, fret) == notes[0];
    assert r in Fingerings(tuning, frets, notes, {notes[0]}, start);
    FingeringsCount(tuning, frets, notes, {notes[0]}, start, r);
  }

  /** The fingering `generateChords` starts from presses one fret only. */
  lemma StartWithinReach(str: nat, fret: int)
    ensures WithinReach(Muted(str) + [fret])
  {
    var start := Muted(str) + [fret];
    forall i, j | 0 <= i < |start| && 0 <= j < |start| && start[i] > 0 && start[j] > 0
      ensures start[i] - start[j] < Reach
    {
      assert i == str && j == str;
    }
  }

  /** The root recorded by `generateChords` is a chord note its starting fingering sounds. */
  lemma StartTracked(tuning: seq<int>, notes: seq<int>, str: nat, fret: int)
    requires str < |tuning| && fret >= 0 && |notes| > 0 && FretNote(tuning, str, fret) == notes[0]
    ensures Tracked(tuning, notes, {FretNote(tuning, str, fret)}, Muted(str) + [fret])
  {
    var start := Muted(str) + [fret];
    assert start[str] == fret;
    assert Sounds(tuning, start, notes[0]);
  }

  /** The chords found with the root on string `str` at the frets from `fret` on. */
  lemma {:induction false} RootFretsSpec(tuning: seq<int>, frets: int, notes: seq<int>, str: nat, fret: nat, r: seq<int>)
    requires str + |notes| < |tuning|
    requires r in RootFrets(tuning, frets, notes, str, fret)
    ensures Reported(tuning, frets, notes, r, str) && fret <= r[str]
    ensures WithinReach(r)
    ensures PitchClasses(tuning) ==> forall n | n in notes :: Sounds(tuning, r, n)
    decreases frets - fret
  {
    if r in RootChords(tuning, frets, notes, str, fret) {
      RootChordsSpec(tuning, frets, notes, str, fret, r);
    } else {
      RootFretsSpec(tuning, frets, notes, str, fret + 1, r);
    }
  }

  /**
   * Every chord `generateChords` reports has its root on a string that
   * leaves at least as many strings after it as the chord has notes, at a
   * fret below `frets`, with the strings before muted, and records as
   * many distinct notes as the chord has; its pressed frets lie within
   * the hand's reach, and on a tuning of pitch classes it sounds every
   * note of the chord.
   */
  lemma {:induction false} ChordsFromSpec(tuning: seq<int>, frets: int, notes: seq<int>, start: nat, r: seq<int>)
    requires r in ChordsFrom(tuning, frets, notes, start)
    ensures exists str: nat | start <= str :: Reported(tuning, frets, notes, r, str)
    ensures WithinReach(r)
    ensures PitchClasses(tuning) ==> forall n | n in notes :: Sounds(tuning, r, n)
    decreases |tuning| - start
  {
    if r in RootFrets(tuning, frets, notes, start, 0) {
      RootFretsSpec(tuning, frets, notes, start, 0, r);
    } else {
      ChordsFromSpec(tuning, frets, notes, start + 1, r);
    }
  }

  /** Every chord rooted on string `str` at its root fret that records all the chord's notes is found there. */
  lemma RootChordsComplete(tuning: seq<int>, frets: int, notes: seq<int>, str: nat, r: seq<int>)
    requires Reported(tuning, frets, notes, r, str)
    ensures r in RootChords(tuning, frets, notes, str, r[str])
  {
    var start := Muted(str) + [r[str]];
    assert r[..str + 1] == start;
    assert Completes(tuning, frets, notes, start, r);
    FingeringsComplete(tuning, frets, notes, {notes[0]}, start, r);
  }

  /** The fret loop of `generateChords` reaches the root fret of every such chord. */
  lemma {:induction false} RootFretsComplete(tuning: seq<int>, frets: int, notes: seq<int>, str: nat, fret: nat,
                                             r: seq<int>)
    requires Reported(tuning, frets, notes, r, str) && fret <= r[str]
    ensures r in RootFrets(tuning, frets, notes, str, fret)
    decreases r[str] - fret
  {
    var here, later := RootChords(tuning, frets, notes, str, fret), RootFrets(tuning, frets, notes, str, fret + 1);
    assert RootFrets(tuning, frets, notes, str, fret) == here + later;
    if fret < r[str] {
      RootFretsComplete(tuning, frets, notes, str, fret + 1, r);
      assert r in later;
    } else {
      RootChordsComplete(tuning, frets, notes, str, r);
      assert r in here;
    }
  }

  /** The string loop of `generateChords` reaches the root string of every such chord. */
  lemma ChordsFromComplete(tuning: seq<int>, frets: int, notes: seq<int>, start: nat, str: nat, r: seq<int>)
    requires start <= str && Reported(tuning, frets, notes, r, str)
    ensures r in ChordsFrom(tuning, frets, notes, start)
  {
    RootFretsComplete(tuning, frets, notes, str, 0, r);
    ChordsFromContains(tuning, frets, notes, start, str, r);
  }

  /** The string loop collects the chords of every root string from `start` on. */
  lemma ChordsFromContains(tuning: seq<int>, frets: int, notes: seq<int>, start: nat, str: nat, r: seq<int>)
    requires start <= str && str + |notes| < |tuning|
    requires r in RootFrets(tuning, frets, notes, str, 0)
    ensures r in ChordsFrom(tuning, frets, notes, start)
  {
    ChordsFromStep(tuning, frets, notes, str);
    forall i: nat | start <= i < str
      ensures r in ChordsFrom(tuning, frets, notes, i + 1) ==> r in ChordsFrom(tuning, frets, notes, i)
    {
      ChordsFromStep(tuning, frets, notes, i);
    }
    Climb((i: nat) => r in ChordsFrom(tuning, frets, notes, i), start, str);
  }

  /** A property that passes from each i + 1 down to i holds from `str` down to `start`. */
  lemma {:induction false} Climb(p: nat -> bool, start: nat, str: nat)
    requires start <= str && p(str)
    requires forall i: nat | start <= i < str :: p(i + 1) ==> p(i)
    ensures p(start)
    decreases str - start
  {
    if start < str {
      Climb(p, start + 1, str);
    }
  }

  /** One pass of the string loop appends the chords rooted on string `str`. */
  lemma ChordsFromStep(tuning: seq<int>, frets: int, notes: seq<int>, str: nat)
    requires str + |notes| < |tuning|
    ensures ChordsFrom(tuning, frets, notes, str)
      == RootFrets(tuning, frets, notes, str, 0) + ChordsFrom(tuning, frets, notes, str + 1)
  {
  }

  /** `generateChords` reports exactly the chords rooted on some string that record all the chord's notes. */
  lemma ChordsExactly(tuning: seq<int>, frets: int, notes: seq<int>, r: seq<int>)
    ensures r in ChordsFrom(tuning, frets, notes, 0) <==> exists str: nat :: Reported(tuning, frets, notes, r, str)
  {
    if r in ChordsFrom(tuning, frets, notes, 0) {
      ChordsFromSpec(tuning, frets, notes, 0, r);
    } else if exists str: nat :: Reported(tuning, frets, notes, r, str) {
      var str: nat :| Reported(tuning, frets, notes, r, str);
      ChordsFromComplete(tuning, frets, notes, 0, str, r);
    }
  }
}
