/**
 * Note names (pitch.js): a letter C..B followed by up to two sharps or two
 * flats, parsed into a letter index and a modifier, printed back, and
 * mapped to a pitch class 0..11.
 */
module Pitches {
  import opened Wrappers
  import opened JsBuiltins

  const Sharp: char := '♯'
  const Flat: char := '♭'

  /** The seven letters, in the order that gives their letter index. */
  const Alphabet: seq<char> := ['C', 'D', 'E', 'F', 'G', 'A', 'B']

  /** The pitch class of each natural letter. */
  const AlphabetPitches: seq<int> := [0, 2, 4, 5, 7, 9, 11]

  /**
   * The truncating remainder of a natural pitch plus a modifier: it lies in
   * -2..11, is congruent to the sum, and is negative only for a flatted C.
   */
  lemma ClassOfSum(letter: int, m: Modifier)
    requires 0 <= letter < 7
    ensures var c := JsRem(AlphabetPitches[letter] + m, 12);
      -2 <= c < 12 && (c - AlphabetPitches[letter] - m) % 12 == 0 && (c < 0 <==> letter == 0 && m < 0)
  {
    var a := AlphabetPitches[letter] + m;
    assert 0 <= AlphabetPitches[letter] <= 11 && (AlphabetPitches[letter] == 0 <==> letter == 0);
    assert -2 <= a <= 13;
    if a >= 12 {
      assert JsRem(a, 12) == a - 12;
    } else if a >= 0 {
      assert JsRem(a, 12) == a;
    } else {
      assert JsRem(a, 12) == a;
    }
  }

  /** The spellings of each pitch class, in the order `listPitchClass` returns them. */
  const Notes: seq<seq<string>> := [
    ["B♯", "C", "D♭♭"],
    ["B♯♯", "C♯", "D♭"],
    ["C♯♯", "D", "E♭♭"],
    ["D♯", "E♭", "F♭♭"],
    ["D♯♯", "E", "F♭"],
    ["E♯", "F", "G♭♭"],
    ["E♯♯", "F♯", "G♭"],
    ["F♯♯", "G", "A♭♭"],
    ["G♯", "A♭"],
    ["G♯♯", "A", "B♭♭"],
    ["A♯", "B♭", "C♭♭"],
    ["A♯♯", "B", "C♭"]
  ]

  /** Semitones added by the accidentals: -2 for a double flat up to 2 for a double sharp. */
  type Modifier = m: int | -2 <= m <= 2

  /**
   * A parsed name.  `letter` is -1 when the first character is not a
   * letter; `modifier` is None (the source's `undefined`) when the
   * accidentals are not one of the five recognised forms.
   */
  datatype Pitch = Pitch(letter: int, modifier: Option<Modifier>)
  {
    /** A name both of whose parts were recognised. */
    predicate Valid()
    {
      0 <= letter < 7 && modifier.Some?
    }

    predicate IsDoubleFlat()
    {
      modifier == Some(-2)
    }

    predicate IsFlat()
    {
      modifier == Some(-1)
    }

    predicate IsNatural()
    {
      modifier == Some(0)
    }

    predicate IsSharp()
    {
      modifier == Some(1)
    }

    predicate IsDoubleSharp()
    {
      modifier == Some(2)
    }

    function GetLetter(): int
    {
      letter
    }

    /**
     * `getPitchClass()` as written: natural pitch plus modifier, under
     * JavaScript's truncating `%`.  It is congruent to the sum modulo 12,
     * and negative only for a flatted C.
     */
    function GetPitchClass(): (c: int)
      requires Valid()
      ensures -2 <= c < 12
      ensures (c - AlphabetPitches[letter] - modifier.value) % 12 == 0
      ensures c < 0 <==> letter == 0 && modifier.value < 0
    {
      ClassOfSum(letter, modifier.value);
      JsRem(AlphabetPitches[letter] + modifier.value, 12)
    }

    /**
     * The pitch class in 0..11, the class under which `Notes` lists the
     * name: the same as `getPitchClass()`, or 12 more when that is negative.
     */
    function PitchClass(): (c: int)
      requires Valid()
      ensures 0 <= c < 12
      ensures (c - AlphabetPitches[letter] - modifier.value) % 12 == 0
      ensures c == GetPitchClass() || (GetPitchClass() < 0 && c == GetPitchClass() + 12)
    {
      (AlphabetPitches[letter] + modifier.value) % 12
    }

    /** `toString()`: the letter followed by one accidental per semitone of the modifier. */
    function ToString(): (s: string)
      requires Valid()
      ensures |s| == 1 + Abs(modifier.value) && s[0] == Alphabet[letter]
      ensures forall k | 1 <= k < |s| :: s[k] == if modifier.value < 0 then Flat else Sharp
    {
      [Alphabet[letter]] + Accidentals(modifier.value)
    }
  }

  /** The accidentals that spell a modifier. */
  function Accidentals(m: Modifier): string
  {
    if m == -2 then [Flat, Flat]
    else if m == -1 then [Flat]
    else if m == 0 then []
    else if m == 1 then [Sharp]
    else [Sharp, Sharp]
  }

  /** The modifier the constructor reads from the characters after the letter. */
  function ParseModifier(name: string): Option<Modifier>
  {
    if |name| == 1 then Some(0)
    else if |name| == 2 then
      if name[1] == Sharp then Some(1)
      else if name[1] == Flat then Some(-1)
      else None
    else if |name| == 3 then
      if name[1] == Sharp && name[2] == Sharp then Some(2)
      else if name[1] == Flat && name[2] == Flat then Some(-2)
      else None
    else None
  }

  /**
   * `new Pitch(name)`: the letter index of the first character and the
   * modifier of the rest.  The letter is found exactly when the name starts
   * with one of A to G; a recognised modifier counts the accidentals after
   * the letter, at most two, negative when they are flats.
   */
  function Parse(name: string): (r: Pitch)
    ensures r.letter >= 0 <==> |name| >= 1 && name[0] in Alphabet
    ensures r.letter >= 0 ==> r.letter < 7 && Alphabet[r.letter] == name[0]
    ensures r.modifier.Some? ==> 1 <= |name| <= 3 && Abs(r.modifier.value) == |name| - 1
    ensures r.modifier.Some? && |name| > 1 ==> (r.modifier.value < 0 <==> name[1] == Flat)
  {
    if |name| == 0 then Pitch(-1, ParseModifier(name))
    else
      IndexOfFound(Alphabet, name[0]);
      Pitch(IndexOf(Alphabet, name[0]), ParseModifier(name))
  }

  /**
   * `Pitch.listPitchClass(pc)`: the spellings of pitch class pc, parsed, in
   * table order: two of them for G♯/A♭, three for every other class.
   * That each is a recognised pitch of class pc is `ListPitchClassSpec`.
   */
  function ListPitchClass(pc: int): (r: seq<Pitch>)
    requires 0 <= pc < 12
    ensures |r| == if pc == 8 then 2 else 3
  {
    NotesTable(pc);
    seq(|Notes[pc]|, i requires 0 <= i < |Notes[pc]| => Parse(Notes[pc][i]))
  }

  // ---------------------------------------------------------------------
  // Lemmas

  lemma AlphabetIndex(l: int)
    requires 0 <= l < 7
    ensures IndexOf(Alphabet, Alphabet[l]) == l
  {
    IndexOfSpec(Alphabet, Alphabet[l]);
  }

  /**
   * The constructor reads a letter and its accidentals: a letter index
   * 0..6 and modifier 0, plus or minus 1 for one sharp or flat, plus or
   * minus 2 for two.
   */
  lemma ParseName(l: int, m: Modifier)
    requires 0 <= l < 7
    ensures Parse([Alphabet[l]] + Accidentals(m)) == Pitch(l, Some(m))
  {
    AlphabetIndex(l);
  }

  /** `toString` inverts the constructor: printing a valid pitch and parsing the text gives it back. */
  lemma ParseToString(p: Pitch)
    requires p.Valid()
    ensures Parse(p.ToString()) == p
  {
    ParseName(p.letter, p.modifier.value);
  }

  /** ... and the constructor inverts `toString` on every name it recognises. */
  lemma ToStringParse(name: string)
    requires Parse(name).Valid()
    ensures Parse(name).ToString() == name
  {
    var p := Parse(name);
    IndexOfSpec(Alphabet, name[0]);
    assert name == [name[0]] + name[1..];
  }

  /** A name with accidentals the constructor does not recognise satisfies none of the predicates. */
  lemma UnrecognisedModifier(name: string)
    requires ParseModifier(name).None?
    ensures var p := Parse(name);
      !p.IsDoubleFlat() && !p.IsFlat() && !p.IsNatural() && !p.IsSharp() && !p.IsDoubleSharp()
  {
  }

  /** For a recognised name exactly one of the five predicates holds. */
  lemma ExactlyOneModifier(p: Pitch)
    requires p.Valid()
    ensures (if p.IsDoubleFlat() then 1 else 0) + (if p.IsFlat() then 1 else 0)
          + (if p.IsNatural() then 1 else 0) + (if p.IsSharp() then 1 else 0)
          + (if p.IsDoubleSharp() then 1 else 0) == 1
  {
  }

  /** The corrected pitch class always lies in 0..11 and agrees with `getPitchClass` on non-negative sums. */
  lemma PitchClassRange(p: Pitch)
    requires p.Valid()
    ensures 0 <= p.PitchClass() < 12
    ensures AlphabetPitches[p.letter] + p.modifier.value >= 0 ==> p.GetPitchClass() == p.PitchClass()
  {
  }

  /**
   * Every name in the table is recognised and has the pitch class of its
   * row; each row holds three spellings except that of G sharp / A flat,
   * which holds two.
   */
  lemma NotesTable(pc: int)
    requires 0 <= pc < 12
    ensures |Notes[pc]| == if pc == 8 then 2 else 3
    ensures forall i | 0 <= i < |Notes[pc]| ::
      Parse(Notes[pc][i]).Valid() && Parse(Notes[pc][i]).PitchClass() == pc
  {
    forall i | 0 <= i < |Notes[pc]|
      ensures Parse(Notes[pc][i]).Valid() && Parse(Notes[pc][i]).PitchClass() == pc
    {
      NoteClass(pc, i);
    }
  }

  /** Each name of row pc is recognised with pitch class pc. */
  lemma NoteClass(pc: int, i: int)
    requires 0 <= pc < 12 && 0 <= i < |Notes[pc]|
    ensures Parse(Notes[pc][i]).Valid() && Parse(Notes[pc][i]).PitchClass() == pc
  {
    if pc < 3 {
      NoteClassFirst(pc, i);
    } else if pc < 6 {
      NoteClassSecond(pc, i);
    } else if pc < 9 {
      NoteClassThird(pc, i);
    } else {
      NoteClassFourth(pc, i);
    }
  }

  /** Rows 0 to 2, each given as the pitches its names spell. */
  lemma NoteClassFirst(pc: int, i: int)
    requires 0 <= pc < 3 && 0 <= i < |Notes[pc]|
    ensures Parse(Notes[pc][i]).Valid() && Parse(Notes[pc][i]).PitchClass() == pc
  {
    if pc == 0 {
      SpelledRow(Notes[pc], [Pitch(6, Some(1)), Pitch(0, Some(0)), Pitch(1, Some(-2))], pc);
    } else if pc == 1 {
      SpelledRow(Notes[pc], [Pitch(6, Some(2)), Pitch(0, Some(1)), Pitch(1, Some(-1))], pc);
    } else {
      SpelledRow(Notes[pc], [Pitch(0, Some(2)), Pitch(1, Some(0)), Pitch(2, Some(-2))], pc);
    }
  }

  /** Rows 3 to 5, each given as the pitches its names spell. */
  lemma NoteClassSecond(pc: int, i: int)
    requires 3 <= pc < 6 && 0 <= i < |Notes[pc]|
    ensures Parse(Notes[pc][i]).Valid() && Parse(Notes[pc][i]).PitchClass() == pc
  {
    if pc == 3 {
      SpelledRow(Notes[pc], [Pitch(1, Some(1)), Pitch(2, Some(-1)), Pitch(3, Some(-2))], pc);
    } else if pc == 4 {
      SpelledRow(Notes[pc], [Pitch(1, Some(2)), Pitch(2, Some(0)), Pitch(3, Some(-1))], pc);
    } else {
      SpelledRow(Notes[pc], [Pitch(2, Some(1)), Pitch(3, Some(0)), Pitch(4, Some(-2))], pc);
    }
  }

  /** Rows 6 to 8, each given as the pitches its names spell. */
  lemma NoteClassThird(pc: int, i: int)
    requires 6 <= pc < 9 && 0 <= i < |Notes[pc]|
    ensures Parse(Notes[pc][i]).Valid() && Parse(Notes[pc][i]).PitchClass() == pc
  {
    if pc == 6 {
      SpelledRow(Notes[pc], [Pitch(2, Some(2)), Pitch(3, Some(1)), Pitch(4, Some(-1))], pc);
    } else if pc == 7 {
      SpelledRow(Notes[pc], [Pitch(3, Some(2)), Pitch(4, Some(0)), Pitch(5, Some(-2))], pc);
    } else {
      SpelledRow(Notes[pc], [Pitch(4, Some(1)), Pitch(5, Some(-1))], pc);
    }
  }

  /** Rows 9 to 11, each given as the pitches its names spell. */
  lemma NoteClassFourth(pc: int, i: int)
    requires 9 <= pc < 12 && 0 <= i < |Notes[pc]|
    ensures Parse(Notes[pc][i]).Valid() && Parse(Notes[pc][i]).PitchClass() == pc
  {
    if pc == 9 {
      SpelledRow(Notes[pc], [Pitch(4, Some(2)), Pitch(5, Some(0)), Pitch(6, Some(-2))], pc);
    } else if pc == 10 {
      SpelledRow(Notes[pc], [Pitch(5, Some(1)), Pitch(6, Some(-1)), Pitch(0, Some(-2))], pc);
    } else {
      SpelledRow(Notes[pc], [Pitch(5, Some(2)), Pitch(6, Some(0)), Pitch(0, Some(-1))], pc);
    }
  }

  /** Names that print the recognised pitches `row`, all of class pc, are read back as pitches of class pc. */
  lemma SpelledRow(names: seq<string>, row: seq<Pitch>, pc: int)
    requires |row| == |names|
    requires forall k | 0 <= k < |row| ::
      && row[k].Valid() && (AlphabetPitches[row[k].letter] + row[k].modifier.value) % 12 == pc
      && names[k] == row[k].ToString()
    ensures forall k | 0 <= k < |names| :: Parse(names[k]).Valid() && Parse(names[k]).PitchClass() == pc
  {
    forall k | 0 <= k < |names|
      ensures Parse(names[k]).Valid() && Parse(names[k]).PitchClass() == pc
    {
      SpelledPitch(names[k], row[k], pc);
    }
  }

  /** A name that prints the recognised pitch p, of class pc, is read back as a pitch of class pc. */
  lemma SpelledPitch(name: string, p: Pitch, pc: int)
    requires p.Valid() && (AlphabetPitches[p.letter] + p.modifier.value) % 12 == pc && name == p.ToString()
    ensures Parse(name).Valid() && Parse(name).PitchClass() == pc
  {
    ParseToString(p);
  }

  /** The letter index of each letter. */
  lemma Letters()
    ensures IndexOf(Alphabet, 'C') == 0 && IndexOf(Alphabet, 'D') == 1
    ensures IndexOf(Alphabet, 'E') == 2 && IndexOf(Alphabet, 'F') == 3
    ensures IndexOf(Alphabet, 'G') == 4 && IndexOf(Alphabet, 'A') == 5
    ensures IndexOf(Alphabet, 'B') == 6
  {
    AlphabetIndex(0);
    AlphabetIndex(1);
    AlphabetIndex(2);
    AlphabetIndex(3);
    AlphabetIndex(4);
    AlphabetIndex(5);
    AlphabetIndex(6);
    assert Alphabet[0] == 'C' && Alphabet[1] == 'D' && Alphabet[2] == 'E' && Alphabet[3] == 'F';
    assert Alphabet[4] == 'G' && Alphabet[5] == 'A' && Alphabet[6] == 'B';
  }

  /** Every name in the table prints back unchanged once parsed. */
  lemma NotesPrintBack(pc: int, i: int)
    requires 0 <= pc < 12 && 0 <= i < |Notes[pc]|
    ensures Parse(Notes[pc][i]).Valid() && Parse(Notes[pc][i]).ToString() == Notes[pc][i]
  {
    NotesTable(pc);
    ToStringParse(Notes[pc][i]);
  }

  /**
   * `getPitchClass()` as written gives the row of every table name except
   * C double flat (-2, listed under 10) and C flat (-1, listed under 11),
   * whose sums are negative under the truncating `%`.
   */
  lemma GetPitchClassTable(pc: int, i: int)
    requires 0 <= pc < 12 && 0 <= i < |Notes[pc]|
    ensures Parse(Notes[pc][i]).Valid()
    ensures Parse(Notes[pc][i]).GetPitchClass() ==
      if pc == 10 && i == 2 then -2 else if pc == 11 && i == 2 then -1 else pc
  {
    NotesTable(pc);
  }

  /** C flat: listed under pitch class 11, yet `getPitchClass()` answers -1. */
  lemma CFlatPitchClass()
    ensures Notes[11][2] == "C♭"
    ensures Parse("C♭").Valid() && Parse("C♭").GetPitchClass() == -1
    ensures Parse("C♭").PitchClass() == 11
  {
    GetPitchClassTable(11, 2);
  }

  /**
   * `listPitchClass(pc)` yields one recognised pitch per name of row pc,
   * in table order, each printing as that name and of pitch class pc.
   */
  lemma ListPitchClassSpec(pc: int)
    requires 0 <= pc < 12
    ensures |ListPitchClass(pc)| == if pc == 8 then 2 else 3
    ensures forall i | 0 <= i < |ListPitchClass(pc)| ::
      ListPitchClass(pc)[i].Valid() && ListPitchClass(pc)[i].PitchClass() == pc
      && ListPitchClass(pc)[i].ToString() == Notes[pc][i]
  {
    NotesTable(pc);
    forall i | 0 <= i < |Notes[pc]|
      ensures Parse(Notes[pc][i]).ToString() == Notes[pc][i]
    {
      NotesPrintBack(pc, i);
    }
  }

  /**
   * The table is complete: every recognised pitch is among the spellings
   * `listPitchClass` gives for its own pitch class.
   */
  lemma ListPitchClassComplete(p: Pitch)
    requires p.Valid()
    ensures p in ListPitchClass(p.PitchClass())
  {
    var pc := p.PitchClass();
    ListPitchClassSpec(pc);
    var i: int := PositionInRow(p);
    ParseToString(p);
    assert ListPitchClass(pc)[i] == p;
  }

  /** Where a recognised pitch's name sits in its row of `Notes`. */
  function PositionInRow(p: Pitch): (i: int)
    requires p.Valid()
    ensures 0 <= p.PitchClass() < 12 && 0 <= i < |Notes[p.PitchClass()]|
    ensures Notes[p.PitchClass()][i] == p.ToString()
  {
    var m := p.modifier.value;
    if m == 0 then NaturalPosition(p)
    else if m == 1 then SharpPosition(p)
    else if m == 2 then DoubleSharpPosition(p)
    else if m == -1 then FlatPosition(p)
    else DoubleFlatPosition(p)
  }

  /** The name of p is entry i of the row of its pitch class. */
  predicate SitsAt(p: Pitch, i: int)
    requires p.Valid()
  {
    0 <= i < |Notes[p.PitchClass()]| && Notes[p.PitchClass()][i] == p.ToString()
  }

  /** A natural is the middle spelling of its row. */
  function NaturalPosition(p: Pitch): (i: int)
    requires p.Valid() && p.modifier == Some(0)
    ensures SitsAt(p, i)
  {
    1
  }

  /** C sharp and F sharp are their rows' middle spelling; the other sharps come first. */
  function SharpPosition(p: Pitch): (i: int)
    requires p.Valid() && p.modifier == Some(1)
    ensures SitsAt(p, i)
  {
    match p.letter
    case 0 => 1  // C♯
    case 1 => 0  // D♯
    case 2 => 0  // E♯
    case 3 => 1  // F♯
    case 4 => 0  // G♯
    case 5 => 0  // A♯
    case _ => 0  // B♯
  }

  /** A double sharp comes first in its row. */
  function DoubleSharpPosition(p: Pitch): (i: int)
    requires p.Valid() && p.modifier == Some(2)
    ensures SitsAt(p, i)
  {
    0
  }

  /** E flat, A flat and B flat are their rows' middle spelling; the other flats come last. */
  function FlatPosition(p: Pitch): (i: int)
    requires p.Valid() && p.modifier == Some(-1)
    ensures SitsAt(p, i)
  {
    match p.letter
    case 0 => 2  // C♭
    case 1 => 2  // D♭
    case 2 => 1  // E♭
    case 3 => 2  // F♭
    case 4 => 2  // G♭
    case 5 => 1  // A♭
    case _ => 1  // B♭
  }

  /** A double flat comes last in its row. */
  function DoubleFlatPosition(p: Pitch): (i: int)
    requires p.Valid() && p.modifier == Some(-2)
    ensures SitsAt(p, i)
  {
    2
  }
}
