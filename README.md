# fides in Dafny: bit strings, integer codes, rhythms, pitch spelling, chords and an LFSR

This project models the computational core of the fides collection of small music
and coding toys, and proves properties of the model. The toys are:

- the immutable `BinaryString` of `src/utils/binary-string.js` (module `BinaryStrings`);
- the universal integer codes of `src/integer-codes/integer-codes.js` (module `IntegerCodes`):
  - unary, Elias gamma, Elias delta and Elias omega encoders and decoders;
  - sequence encoding and decoding;
- Toussaint's Euclidean rhythms, with the distance-sequence and subset notations of
  `euclidean-rhythm/euclidean-rhythm.js` (module `EuclideanRhythms`);
- the note names of `pitch.js`, parsed into a letter and a modifier, printed back and mapped to
  pitch classes (module `Pitches`);
- the scale speller of `src/guitar-scales/scale.js` (module `Scale`):
  - it generates every spelling of a scale from a root;
  - it narrows the spellings with five scores (Bora, Tezel and Vahaplar, 2018);
  - the `argMax`/`argMin` selection and the pair sums it uses are the generic module `Selection`;
- the older string-based copy of the speller in `scales.js` (module `Scales`), with:
  - the tuning and scale text fields;
  - `equalArray` and `mod`;
- the chord finder of `chords.js` (module `Chords`):
  - chord names are parsed into triads;
  - every fingering of a triad is searched for within a hand's reach;
- the Fibonacci linear-feedback shift register of `src/fibonacci-lfsr/index.js`
  (module `FibonacciLfsr`):
  - the register is a class whose `state` and `taps` the page's buttons and clicks update;
  - the feedback step;
  - the text of the feedback polynomial.

Two small modules support the others:

- `Wrappers` gives `Option` for the source's `null`/`undefined` and `Result` for a thrown `Error`.
- `JsBuiltins` models the JavaScript built-ins the code relies on:
  - `%`, which truncates toward zero;
  - `indexOf` and `findIndex`, which answer -1 for a missing element.

### How the model is built

- Pure code (bit strings, parsing, the scores as values, the polynomial text) is written as
  functions and lemmas.
- Every loop of the source is a method with a `while` loop. It is proved equal to a
  specification function, and lemmas state the properties of that function. Examples:
  - the decoders;
  - `eliasOmegaEncode`;
  - `decodeSequence`;
  - `argMax`;
  - the nested score loops;
  - `subsets` and `distanceSequence`;
  - `generateChord`'s fret loop;
  - `generateChords`;
  - the polynomial loop of `updateState`.
- `combinations` is a generator. It is modelled by the sequence it yields, in the same order.

### Where the repository's files disagree

- The integer-code page imports more codes than the module it models:
  - `src/integer-codes/index.js:4-21` imports seven codes: unary, binary, VLQ, Elias gamma, delta
    and omega, and Golomb-Rice;
  - `src/integer-codes/index.js:53-71` binds each encoder and decoder to the page's
    `currentSettings`;
  - `src/integer-codes/integer-codes.js:102-113` exports only unary, gamma, delta and omega, with
    `encodeSequence` and `decodeSequence`, and none of them takes settings.
  The model follows `integer-codes.js`. The binary, VLQ and Golomb-Rice codes and their settings
  are not part of this model.
- `chords.js` looks roots up in a list of sharps only, and marks flats as unfinished:
  - a flat root such as `Bb` gets the root index -1 (`Chords.FlatRoot`);
  - so do `E#` and `B#` (`Chords.MissingSharp`).

## Model

| member | source | states |
|---|---|---|
| BinaryStrings.Digits | src/utils/binary-string.js:11-18 | the binary digits of `x.toString(2)` are non-empty, start with 1 for x >= 1, are `[0]` for 0, and there are at most x of them |
| BinaryStrings.RelativeIndex | src/utils/binary-string.js:44-46 | a `slice` bound lands in [0, len], is unchanged when already inside, and is clamped to len above |
| BinaryStrings.BinaryString.At | src/utils/binary-string.js:28-30 | `at(i)` is defined exactly for 0 <= i < length, and then it is the i-th bit |
| BinaryStrings.BinaryString.Concat | src/utils/binary-string.js:32-34 | `concat(other)` has as many bits as the two strings together |
| BinaryStrings.BinaryString.Slice | src/utils/binary-string.js:44-46 | `slice(a, b)` has as many bits as lie between the bounds once `Array.prototype.slice` has clamped them, and none when the clamped bounds cross |
| BinaryStrings.BinaryString.Split | src/utils/binary-string.js:48-50 | the two halves of `split(i)` concatenate back to the string for every i, negative and out of range included; for 0 <= i <= length they are the first i bits and the rest |
| BinaryStrings.BinaryString.ToString | src/utils/binary-string.js:56-58 | `toString()` has one '0'/'1' character per bit, '1' exactly where the bit is 1 |
| BinaryStrings.FromInteger | src/utils/binary-string.js:11-18 | `fromInteger(x)` has as many bits as the binary form of x, is "0" for 0 and starts with 1 otherwise |
| BinaryStrings.FromString | src/utils/binary-string.js:20-22 | `fromString(s)` of a '0'/'1' text has one bit per character, 1 exactly where the character is '1' |
| BinaryStrings.WithLength | src/utils/binary-string.js:24-26 | `withLength(n)` has n bits, all 0 |
| BinaryStrings.ValueConcat | src/utils/binary-string.js:60-62 | the integer value of a concatenation is the left value shifted by the right length plus the right value |
| BinaryStrings.DigitsValue | src/utils/binary-string.js:11-18 | the digits of x, read back in base 2, give x |
| BinaryStrings.DigitsOfValue | src/utils/binary-string.js:60-62 | a one-led bit string is the binary form of its own value |
| BinaryStrings.ToIntegerBounds | src/utils/binary-string.js:60-62 | `toInteger()` of n bits is below 2^n, and of a one-led string it is at least 2^(n-1) |
| BinaryStrings.WithLengthValue | src/utils/binary-string.js:24-26 | `withLength(n).toInteger()` is 0 |
| BinaryStrings.EndsSpec | src/utils/binary-string.js:32-42 | `append(b)` doubles the value and adds b, `prepend(b)` adds b at the weight of the new top bit, each adds one bit, and `concat` adds the lengths |
| BinaryStrings.SliceSpec | src/utils/binary-string.js:44-46 | a slice is never longer than the string; with bounds 0 <= a <= b it holds exactly the bits from a to b, each bound cut down to the length; `slice(0, length)` is the string, and `slice(-k)` is its last k bits |
| BinaryStrings.LeadingZeros | src/utils/binary-string.js:60-62 | leading zero bits do not change the integer value |
| BinaryStrings.IntegerRoundTrip | src/utils/binary-string.js:11-18 | `fromInteger(x).toInteger() == x` for every x, and `fromInteger(s.toInteger()) == s` for one-led s |
| BinaryStrings.TextRoundTrip | src/utils/binary-string.js:20-22 | `fromString(s.toString()) == s`, and `fromString(t).toString() == t` for every '0'/'1' text |
| IntegerCodes.UnaryParseSpec | src/integer-codes/integer-codes.js:10-17 | `unaryDecode` fails exactly on input with no 1; otherwise the integer is the number of zeros before the first 1 and the code ends at that 1 |
| IntegerCodes.UnaryEncode | src/integer-codes/integer-codes.js:6-8 | the unary code of x is x zeros followed by a 1 |
| IntegerCodes.EliasGammaEncode | src/integer-codes/integer-codes.js:19-23 | the gamma code of x has 2 bitlen(x) - 1 bits and, read as one binary number, denotes x |
| IntegerCodes.EliasGammaParse | src/integer-codes/integer-codes.js:25-36 | a successful gamma decode consumes a prefix of odd length and returns a positive integer |
| IntegerCodes.EliasDeltaEncode | src/integer-codes/integer-codes.js:38-42 | the delta code of x is the gamma code of bitlen(x), followed by the binary digits of x without their leading 1 |
| IntegerCodes.EliasDeltaDecode | src/integer-codes/integer-codes.js:44-55 | a successful delta decode consumes a non-empty prefix and returns a positive integer |
| IntegerCodes.EliasOmegaParse | src/integer-codes/integer-codes.js:67-79 | a successful omega decode consumes a prefix, non-empty for non-empty input, and returns a positive integer |
| IntegerCodes.EncodeSequence | src/integer-codes/integer-codes.js:81-86 | `encodeSequence` writes at least one bit per integer |
| IntegerCodes.DecodedSequence | src/integer-codes/integer-codes.js:88-100 | `decodeSequence` gives at most one record per bit of input |
| IntegerCodes.UnaryDecode | src/integer-codes/integer-codes.js:10-17 | the loop returns the unary parse of its input |
| IntegerCodes.UnaryReadsBack | src/integer-codes/integer-codes.js:6-8 | the unary code of x, followed by anything, is decoded as x with exactly that code consumed |
| IntegerCodes.EliasGammaEncodeLayout | src/integer-codes/integer-codes.js:19-23 | the gamma code is bitlen(x) - 1 zeros followed by x in binary |
| IntegerCodes.EliasGammaEncodeShape | src/integer-codes/integer-codes.js:19-23 | for x >= 1 the gamma code has 2 bitlen(x) - 1 bits, its first 1 at bitlen(x) - 1; its bits denote x; gamma(0) is "0" |
| IntegerCodes.EliasGammaParseSpec | src/integer-codes/integer-codes.js:25-36 | gamma decoding fails exactly when there is no 1, or fewer than i bits follow the first 1 at i; otherwise it consumes 2i + 1 bits and returns the positive number in the last i + 1 |
| IntegerCodes.EliasGammaDecode | src/integer-codes/integer-codes.js:25-36 | the loop, with its early `break`, returns the gamma parse of its input |
| IntegerCodes.EliasGammaReadsBack | src/integer-codes/integer-codes.js:19-36 | for x >= 1, the gamma code of x followed by anything decodes as x, consuming exactly the code |
| IntegerCodes.EliasDeltaDecodeSpec | src/integer-codes/integer-codes.js:44-55 | delta decoding fails when the gamma prefix fails or announces more bits than remain; otherwise it consumes the prefix and n - 1 more bits, and the number's binary digits are 1 followed by those bits |
| IntegerCodes.EliasDeltaReadsParts | src/integer-codes/integer-codes.js:44-55 | a gamma prefix announcing n, then n - 1 bits, is read by delta as the single number 1 followed by those bits |
| IntegerCodes.EliasDeltaReadsBack | src/integer-codes/integer-codes.js:38-55 | for x >= 1, the delta code of x followed by anything decodes as x, consuming exactly the code |
| IntegerCodes.EliasOmegaEncode | src/integer-codes/integer-codes.js:57-65 | the loop returns the omega code of x: the groups of x followed by the terminating 0 |
| IntegerCodes.OmegaLoopSpec | src/integer-codes/integer-codes.js:67-79 | the omega decoder's loop ends on a suffix of its input with a positive integer, and on non-empty input that suffix starts with the terminator 0 |
| IntegerCodes.EliasOmegaParseSpec | src/integer-codes/integer-codes.js:67-79 | a successful omega decode consumes a prefix that ends in the terminator 0 and returns a positive integer |
| IntegerCodes.EliasOmegaParseShort | src/integer-codes/integer-codes.js:67-79 | a leading 0 is the code of 1, and empty input reads as 1 with an empty code |
| IntegerCodes.EliasOmegaDecode | src/integer-codes/integer-codes.js:67-79 | the loop returns the omega parse of its input |
| IntegerCodes.OmegaLoopGroups | src/integer-codes/integer-codes.js:57-79 | reading the encoder's groups of x from the initial integer 1 leaves the integer x |
| IntegerCodes.EliasOmegaReadsBack | src/integer-codes/integer-codes.js:57-79 | for x >= 1, the omega code of x followed by anything decodes as x, consuming exactly the code |
| IntegerCodes.ParseConsumes | src/integer-codes/integer-codes.js:10-79 | every decoder's code is a prefix of its input, and a non-empty one of non-empty input |
| IntegerCodes.Decode | src/integer-codes/integer-codes.js:10-79 | running the decoder of a code gives that code's parse |
| IntegerCodes.ReadsBack | src/integer-codes/integer-codes.js:6-79 | every code is a prefix code: decode(encode(x) ++ rest) is x with encode(x) consumed |
| IntegerCodes.RoundTrip | src/integer-codes/integer-codes.js:6-79 | decode(encode(x)) is x with the whole code consumed, for every x the code can write |
| IntegerCodes.DecoderConsumes | src/integer-codes/integer-codes.js:88-100 | every decoder passed to `decodeSequence` consumes a prefix, and a non-empty one of non-empty input |
| IntegerCodes.Decoder | src/integer-codes/integer-codes.js:88-100 | the decoder passed for a code consumes only a non-empty prefix, so `decodeSequence` advances |
| IntegerCodes.DecodedSequenceSpec | src/integer-codes/integer-codes.js:88-100 | the codes of `decodeSequence`'s records put together give back the input; every code is non-empty; only the last record can lack an integer |
| IntegerCodes.DecodeSequence | src/integer-codes/integer-codes.js:88-100 | the loop, with its `break` on failure, returns the decoded sequence of its input |
| IntegerCodes.EncodeSequenceFront | src/integer-codes/integer-codes.js:81-86 | the left fold of `encodeSequence` is the first code followed by the encoding of the rest |
| IntegerCodes.EncodeNonEmpty | src/integer-codes/integer-codes.js:6-65 | every codeword has at least one bit |
| IntegerCodes.DecodedSequenceOfConcat | src/integer-codes/integer-codes.js:88-100 | a decoder that reads e back from the front of e ++ tail makes e the first record |
| IntegerCodes.SequenceFront | src/integer-codes/integer-codes.js:81-100 | decoding an encoded sequence reads the first integer back and continues with the rest |
| IntegerCodes.SequenceRoundTrip | src/integer-codes/integer-codes.js:81-100 | decoding the encoding of xs gives one record per integer, each holding that integer and its codeword |
| EuclideanRhythms.Repeat | euclidean-rhythm/euclidean-rhythm.js:5-6 | `new Array(n).fill(v)` has n entries |
| EuclideanRhythms.Rhythm | euclidean-rhythm/euclidean-rhythm.js:1-19 | E(k, n) succeeds exactly when 0 <= k <= n and n > 0 |
| EuclideanRhythms.Distribute | euclidean-rhythm/euclidean-rhythm.js:9-17 | the do-while loop only joins groups, so it ends with at least one group and no more than it started with |
| EuclideanRhythms.Zip | euclidean-rhythm/euclidean-rhythm.js:12-14 | pairing the first m groups of each list gives m groups |
| EuclideanRhythms.EuclideanRhythm | euclidean-rhythm/euclidean-rhythm.js:1-19 | the method with the do-while loop returns the rhythm, or the error thrown |
| EuclideanRhythms.FlattenConcat | euclidean-rhythm/euclidean-rhythm.js:18 | `flat()` of two lists of groups put together is the two flattenings put together |
| EuclideanRhythms.FlattenSingles | euclidean-rhythm/euclidean-rhythm.js:7-8 | n one-step groups of v flatten to n copies of v |
| EuclideanRhythms.ZipBag | euclidean-rhythm/euclidean-rhythm.js:12-14 | pairing groups keeps every step: the paired groups hold exactly the steps of both prefixes |
| EuclideanRhythms.SplitBag | euclidean-rhythm/euclidean-rhythm.js:12-15 | slicing a list of groups in two keeps every step |
| EuclideanRhythms.PassKeepsSteps | euclidean-rhythm/euclidean-rhythm.js:10-16 | one pass of the loop keeps every step and removes min(\|A\|, \|B\|) groups |
| EuclideanRhythms.DistributeKeepsSteps | euclidean-rhythm/euclidean-rhythm.js:9-17 | the whole loop keeps every step of the groups it starts from |
| EuclideanRhythms.RhythmCounts | euclidean-rhythm/euclidean-rhythm.js:1-19 | for 0 <= k <= n, n > 0, E(k, n) succeeds with n steps, exactly k onsets and n - k rests |
| EuclideanRhythms.RhythmErrors | euclidean-rhythm/euclidean-rhythm.js:2-4 | E(k, n) fails exactly when n <= 0, k < 0 or k > n, with the message of the first failed check in the source's order |
| EuclideanRhythms.RhythmExtremes | euclidean-rhythm/euclidean-rhythm.js:5-6 | E(0, n) is all rests and E(n, n) all onsets |
| EuclideanRhythms.Subsets | euclidean-rhythm/euclidean-rhythm.js:33-41 | the loop returns the onset positions of the rhythm |
| EuclideanRhythms.OnsetsSpec | euclidean-rhythm/euclidean-rhythm.js:33-41 | the onsets are exactly the positions holding 1, in strictly increasing order |
| EuclideanRhythms.DistanceSequence | euclidean-rhythm/euclidean-rhythm.js:21-31 | the loop returns the distance sequence of the rhythm |
| EuclideanRhythms.DistancesAreGaps | euclidean-rhythm/euclidean-rhythm.js:21-31 | there is one distance per onset, the gap from that onset to the next onset or to the end |
| EuclideanRhythms.DistancesSum | euclidean-rhythm/euclidean-rhythm.js:21-31 | the distances add up to the span from the first onset to the end of the rhythm |
| EuclideanRhythms.DistancesSumFromOnset | euclidean-rhythm/euclidean-rhythm.js:21-31 | for a rhythm that starts with an onset, the distances add up to its length |
| EuclideanRhythms.DistancesOfBar | euclidean-rhythm/euclidean-rhythm.js:21-31 | a bar of n steps appended to any rhythm adds the single distance n |
| EuclideanRhythms.OnsetsOfBar | euclidean-rhythm/euclidean-rhythm.js:33-41 | a bar of n steps appended to any rhythm adds one onset, at the bar's start |
| EuclideanRhythms.DistanceSequenceExample | euclidean-rhythm/test.js:99 | the tests' rhythm 1001001000101000 has distances 3, 3, 4, 2, 4 |
| EuclideanRhythms.SubsetsExample | euclidean-rhythm/test.js:107 | the tests' rhythm 1001001000101000 has onsets 0, 3, 6, 10, 12 |
| EuclideanRhythms.TresilloExample | euclidean-rhythm/test.js:69 | E(3, 8) is 10010010 |
| EuclideanRhythms.FiveOfTwelveExample | euclidean-rhythm/test.js:78 | E(5, 12) is 100101001010 |
| EuclideanRhythms.FiveOfTwelveGroups | euclidean-rhythm/euclidean-rhythm.js:9-17 | for E(5, 12) the loop ends with the groups 10010, 10010 and 10 |
| EuclideanRhythms.RhythmOfThreeGroups | euclidean-rhythm/euclidean-rhythm.js:1-19 | between the edge cases, when the loop ends with three groups, the rhythm is those groups joined |
| EuclideanRhythms.TwoOfFiveExample | euclidean-rhythm/test.js:65 | E(2, 5) is 10100 |
| Pitches.AlphabetIndex | pitch.js:27 | the letter index of each of the seven letters is its position in the alphabet |
| Pitches.Parse | pitch.js:26-43 | the letter is recognised exactly when the name starts with one of the seven letters, and is that letter's index; a recognised modifier has one semitone per accidental after the letter, at most two, negative exactly for ♭ |
| Pitches.Pitch.GetPitchClass | pitch.js:69-71 | `getPitchClass()` is congruent to natural pitch plus modifier modulo 12, lies in -2..11, and is negative exactly for a flatted C |
| Pitches.Pitch.PitchClass | pitch.js:69-71 | the corrected class lies in 0..11, is congruent to natural pitch plus modifier, and is `getPitchClass()` or, where that is negative, 12 more |
| Pitches.Pitch.ToString | pitch.js:73-89 | `toString()` is the letter followed by one accidental per semitone of the modifier, ♭ when it is negative and ♯ otherwise |
| Pitches.ListPitchClass | pitch.js:22-24 | `listPitchClass(pc)` gives two pitches for 8 and three otherwise (that each is recognised and of class pc is `Pitches.ListPitchClassSpec`) |
| Pitches.Letters | pitch.js:4 | C, D, E, F, G, A, B have letter indices 0 to 6 |
| Pitches.ParseName | pitch.js:26-43 | a letter followed by the accidentals of a modifier is parsed to that letter index and modifier |
| Pitches.ParseToString | pitch.js:73-89 | printing a recognised pitch and parsing the text gives the pitch back |
| Pitches.ToStringParse | pitch.js:26-43 | every name the constructor recognises prints back unchanged |
| Pitches.UnrecognisedModifier | pitch.js:28-63 | when the accidentals are not one of the five forms, none of the five modifier predicates holds |
| Pitches.ExactlyOneModifier | pitch.js:45-63 | for a recognised pitch exactly one of the five modifier predicates holds |
| Pitches.PitchClassRange | pitch.js:69-71 | the corrected pitch class (not `getPitchClass` as written) lies in 0..11 and agrees with `getPitchClass` whenever the sum is non-negative |
| Pitches.NotesTable | pitch.js:6-19 | every row but G♯/A♭ lists three names; every name listed under pc is recognised with pitch class pc |
| Pitches.NoteClass | pitch.js:6-19 | each listed name is recognised, and its pitch class is the row it is listed in |
| Pitches.NotesPrintBack | pitch.js:73-89 | every listed name, parsed and printed, is unchanged |
| Pitches.GetPitchClassTable | pitch.js:69-71 | `getPitchClass` of each listed name is its row, except C♭, whose answer is -1, and C♭♭, whose answer is -2 |
| Pitches.CFlatPitchClass | pitch.js:69-71 | C♭ is listed under pitch class 11, yet `getPitchClass()` answers -1; the corrected class is 11 |
| Pitches.ListPitchClassSpec | pitch.js:22-24 | `listPitchClass(pc)` has one recognised pitch per listed name, each of class pc, printing as that name |
| Pitches.ListPitchClassComplete | pitch.js:22-24 | every recognised pitch is among the pitches listed for its own pitch class |
| Pitches.PositionInRow | pitch.js:6-19 | every recognised pitch's name sits in the row of its pitch class |
| Selection.ArgMax | src/guitar-scales/scale.js:18-33 | `argMax` returns the elements of maximal score, in input order |
| Selection.PairSumOfThree | src/guitar-scales/scale.js:65-95 | the pair sum of three elements is the sum of the three pairs' terms |
| Selection.ArgMin | src/guitar-scales/scale.js:36-38 | `argMin` returns the elements of minimal score, in input order |
| Selection.MaxOfBounds | src/guitar-scales/scale.js:18-33 | the running maximum bounds every score and is the score of some element |
| Selection.MinOfBounds | src/guitar-scales/scale.js:36-38 | the minimum bounds every score from below and is attained |
| Selection.AttainingSpec | src/guitar-scales/scale.js:25-30 | keeping the elements that tie with the score m keeps exactly those scoring m |
| Selection.MaximisersSpec | src/guitar-scales/scale.js:18-33 | `argMax` keeps exactly the maximal elements, at least one, and nothing scores higher |
| Selection.MinimisersSpec | src/guitar-scales/scale.js:36-38 | `argMin` keeps exactly the minimal elements, at least one, and nothing scores lower |
| Selection.NegatedMax | src/guitar-scales/scale.js:36-38 | maximising the negated score is minimising the score |
| Selection.NegatedAttaining | src/guitar-scales/scale.js:36-38 | the elements tying at -m under the negated score are those tying at m |
| Selection.MaxPhase | src/guitar-scales/scale.js:130-134 | after an `argMax` phase, every candidate scores below the survivor or ties with it |
| Selection.MinPhase | src/guitar-scales/scale.js:136-140 | after an `argMin` phase, every candidate scores above the survivor or ties with it |
| Selection.PairTotal | scales.js:66-107 | the nested pair loops that `uniqueLetters` and `augmentedDimished` share add g(N[i], N[j]) over all pairs i < j |
| Selection.RowSumZero | src/guitar-scales/scale.js:67-93 | a row of non-negative penalties sums to zero exactly when every penalty is zero |
| Selection.PairSumZero | src/guitar-scales/scale.js:65-95 | a pair sum of non-negative penalties is non-negative, and zero exactly when every pair scores zero |
| Selection.PairSumAgree | scales.js:77-107 | sequences whose pair terms agree position by position have equal pair sums |
| JsBuiltins.JsRemNonNegative | chords.js:132 | on a non-negative dividend and a positive divisor, `%` is the mathematical remainder |
| JsBuiltins.JsRem | pitch.js:70 | JavaScript's `%` is smaller than the divisor in magnitude, signed like the dividend, and the Euclidean remainder or that less the divisor |
| JsBuiltins.JsRemAgrees | scales.js:38 | JavaScript's `%` is non-negative exactly for a non-negative dividend or a multiple of the divisor, and then it is the mathematical remainder |
| JsBuiltins.IndexOf | chords.js:62 | `indexOf` is -1 or a position that holds the element |
| JsBuiltins.FindIndex | scales.js:84-85 | `findIndex` is -1 or a position whose element passes the test |
| JsBuiltins.IndexOfSpec | chords.js:62 | `indexOf` is -1 exactly when the element is absent, and otherwise the position of its first occurrence |
| JsBuiltins.FindIndexSpec | scales.js:84-85 | `findIndex` is -1 exactly when no element satisfies the test, and otherwise the first position that does |
| Scale.CombinationsSpec | src/guitar-scales/scale.js:41-49 | `combinations` yields exactly the continuations of `initial` by one spelling of each pitch class, in order |
| Scale.UniqueLetters | src/guitar-scales/scale.js:52-62 | `uniqueLetters` never exceeds the number of pitches |
| Scale.IntervalPenalty | src/guitar-scales/scale.js:69-91 | the penalty of one pair, with `getPitchClass` as written, is never negative, is 0 for an unrecognised pitch, and is 1 for two pitches of the same letter |
| Scale.CorrectedIntervalPenalty | src/guitar-scales/scale.js:69-91 | the same penalty over the corrected 0..11 classes keeps those three properties |
| Scale.AugmentedDiminished | src/guitar-scales/scale.js:65-95 | `augmentedDiminished`, with `getPitchClass` as written, is never negative |
| Scale.CorrectedAugmentedDiminished | src/guitar-scales/scale.js:65-95 | the pair sum of the corrected penalties is never negative |
| Scale.JsRemOf12 | src/guitar-scales/scale.js:126 | `% 12` of a non-negative sum is the remainder in 0..11 |
| Scale.ExtensionsSpec | src/guitar-scales/scale.js:45-47 | the loop over the spellings of the first class yields the continuations that start with one of them |
| Scale.CombinationsNonEmpty | src/guitar-scales/scale.js:41-49 | every pitch class has a spelling, so `combinations` yields at least one candidate |
| Scale.CandidatesSpec | src/guitar-scales/scale.js:125-128 | with `getPitchClass` as written and no (root class plus step) % 12 negative in JavaScript, the candidates are exactly the root followed by one recognised pitch of class (root.getPitchClass() + scale[i - 1]) % 12 |
| Scale.ExtendsRoot | src/guitar-scales/scale.js:41-49 | a continuation of [root] by one spelling of each class of pcs is exactly the root followed by one recognised pitch of each class, in order |
| Scale.RootedCombinations | src/guitar-scales/scale.js:41-49 | for classes in 0..11, `combinations(pcs, [root])` yields exactly the root followed by one recognised pitch of each class, in order |
| Scale.CorrectedCandidatesSpec | src/guitar-scales/scale.js:125-128 | the corrected candidates, for every step, are the root followed by one recognised pitch of class (root class + step) mod 12 |
| Scale.ListPitchClassMembers | src/guitar-scales/scale.js:45 | a pitch is listed for pc exactly when it is recognised and of class pc |
| Scale.MeasureUniqueLetters | src/guitar-scales/scale.js:52-62 | the nested loops return the length less the number of same-letter pairs |
| Scale.UniqueLettersSpec | src/guitar-scales/scale.js:52-62 | `uniqueLetters` is at most the length, and equals it exactly when no two pitches share a letter |
| Scale.Penalty | src/guitar-scales/scale.js:75-91 | the interval penalty of the case chain, given letter steps and semitones, is never negative |
| Scale.PenaltyZero | src/guitar-scales/scale.js:75-91 | the penalty is zero exactly for the diatonic interval sizes of each letter distance |
| Scale.MeasureAugmentedDiminished | src/guitar-scales/scale.js:65-95 | the nested loops return the sum of the penalties of all pairs i < j, with semitones from `getPitchClass` as written |
| Scale.AddRowPenalties | src/guitar-scales/scale.js:68-92 | the inner loop adds the penalties, with `getPitchClass` as written, of the intervals from every later pitch up to N[i] |
| Scale.AddPenalty | src/guitar-scales/scale.js:69-91 | the loop body adds the penalty of the interval from N[j] up to N[i], with `getPitchClass` as written |
| Scale.AugmentedDiminishedSpec | src/guitar-scales/scale.js:65-95 | `augmentedDiminished`, with `getPitchClass` as written, is never negative, and zero exactly when every pair forms a diatonic interval |
| Scale.NaturalsDoubles | src/guitar-scales/scale.js:98-105 | no pitch is both natural and doubled, so naturals plus doubles is at most the length |
| Scale.MeasureBetween | src/guitar-scales/scale.js:108-121 | the loop counts the positions, read cyclically, that are sharps between naturals a letter apart |
| Scale.BetweenAtMostNaturals | src/guitar-scales/scale.js:108-121 | `between` never exceeds `naturals` |
| Scale.BetweenUpToNaturals | src/guitar-scales/scale.js:108-121 | the count of sharps between naturals over the first k positions is at most the naturals among them |
| Scale.SpellScale | src/guitar-scales/scale.js:124-157 | as written: defined when no (root.getPitchClass() + step) % 12 is negative in JavaScript and the root is recognised or the scale empty; the answer is a candidate, the root and then one recognised pitch of class (root.getPitchClass() + step) % 12 per step; no candidate beats it under the five phases, the penalty taken with `getPitchClass` as written |
| Scale.CorrectedSpellScale | src/guitar-scales/scale.js:124-157 | corrected: defined for every recognised root and every step; each note has class (root class + step) mod 12, and no corrected candidate beats it under the five phases with the corrected penalty |
| Scale.Narrow | src/guitar-scales/scale.js:130-156 | the five phases, for any second-phase score, answer one of the candidates, and no candidate beats it |
| Scale.Settle1 | src/guitar-scales/scale.js:130-134 | for any second-phase score: a spelling of most unique letters that no other such spelling beats under the later phases is a candidate, and no candidate beats it |
| Scale.Settle2 | src/guitar-scales/scale.js:136-140 | for any second-phase score: a spelling of least score among the first phase's survivors that no other such spelling beats under the later phases is at least as good as every survivor from the second phase on |
| Scale.Settle3 | src/guitar-scales/scale.js:142-146 | a spelling with the most naturals among the second phase's survivors that no other such spelling beats under the later phases is at least as good as every survivor from the third phase on |
| Scale.Settle4 | src/guitar-scales/scale.js:148-152 | a spelling with the fewest doubles among the third phase's survivors that no other such spelling beats in the last phase is at least as good as every survivor from the fourth phase on |
| Scale.Settle5 | src/guitar-scales/scale.js:154-156 | the first spelling with the most sharps between naturals is a survivor of the fourth phase, and none of them has more |
| Scale.ScoresAgreeWithoutFlatC | src/guitar-scales/scale.js:72-74 | without a flatted C, every pair's penalty as written is the corrected one, and so is the sum |
| Scale.CandidatesAgreeWithoutFlatC | src/guitar-scales/scale.js:125-128 | from a root that is not a flatted C, with non-negative steps, the speller as written and the corrected one start from the same candidates |
| Scale.SpellersDiffer | src/guitar-scales/scale.js:72-74 | B over C♭ has the penalty 1 as written and 10 corrected; A, C♭♭, B sums to 4 as written and 11 corrected; a C♭ root with the step 0 is outside the speller as written, because (-1 + 0) % 12 is -1 |
| Scale.TransposableEdges | src/guitar-scales/scale.js:125-128 | from a C root the step -12 reads row 0, since `-12 % 12` is -0; an empty scale accepts any root and gives the root alone |
| Scales.CombinationsSpec | scales.js:34-42 | `combinations` yields exactly the continuations by one `notes3` name of each row `(step + offset) % 12` |
| Scales.ExtensionsSpec | scales.js:38-40 | the loop over the first row's names yields the continuations that start with one of them |
| Scales.TransposableEdges | scales.js:38 | the step -12 reads a row, since `-12 % 12` is -0, while the step -1 reads none |
| Scales.CombinationsNonEmpty | scales.js:34-42 | every row is non-empty, so `combinations` yields at least one candidate |
| Scales.CandidatesSpec | scales.js:135 | the candidates are exactly the root followed by one listed name of each step's row |
| Scales.ExtendsRoot | scales.js:135 | a candidate has one more entry than the scale, starts with the root, and its i-th entry is listed in row (scale[i - 1] + offset) % 12 |
| Scales.MeasureUniqueLetters | scales.js:65-75 | the nested loops return the length less the number of pairs sharing a first character |
| Scales.MeasureAugmentedDimished | scales.js:77-107 | the nested loops return the sum of the string penalties of all pairs i < j |
| Scales.MeasureBetween | scales.js:117-132 | the loop counts the cyclic sharps between naturals a letter apart |
| Scales.Spell | scales.js:134-156 | the answer is a candidate: the root, then a listed name of each step's row; no candidate beats it under the five phases |
| Scales.Settle1 | scales.js:137-139 | a spelling of most unique letters that no other such spelling beats under the later phases is a candidate spelling the scale from the root, and no candidate beats it |
| Scales.Settle2 | scales.js:141-143 | a spelling of least penalty among the first phase's survivors that no other such spelling beats under the later phases is at least as good as every survivor from the second phase on |
| Scales.Settle3 | scales.js:145-147 | a spelling with the most one-character names among the second phase's survivors that no other such spelling beats under the later phases is at least as good as every survivor from the third phase on |
| Scales.Settle4 | scales.js:149-151 | a spelling with the fewest three-character names among the third phase's survivors that no other such spelling beats in the last phase is at least as good as every survivor from the fourth phase on |
| Scales.Settle5 | scales.js:153-155 | the first spelling with the most sharps between naturals is a survivor of the fourth phase, and none of them has more |
| Scales.TableRows | scales.js:19-32 | every name in a row of `notes3` is recognised by the Pitch constructor, with the row as pitch class |
| Scales.Position | scales.js:84-85 | `notes3.findIndex(n => n.includes(name))` is -1 or a row that lists the name |
| Scales.PositionSpec | scales.js:84-85 | `notes3.findIndex(n => n.includes(name))` is the pitch class of a recognised name and -1 for any other string |
| Scales.SameFirstAgrees | scales.js:69 | on recognised names, equal first characters mean equal letters |
| Scales.PenaltyAgrees | scales.js:81-103 | on recognised names, the string penalty is the pitch penalty over corrected pitch classes (`Scale.CorrectedIntervalPenalty`), not the one of src/guitar-scales/scale.js as written |
| Scales.PenaltyDiffersAsWritten | scales.js:81-103 | the string speller gives B over C♭ the penalty 10, while src/guitar-scales/scale.js as written gives it 1 |
| Scales.NameLength | scales.js:110-126 | the length of a recognised name tells its accidentals: 1 natural, 3 doubled, 2 with ♯ sharp |
| Scales.NaturalsDoublesAgree | scales.js:109-115 | on recognised names, counting one- and three-character names counts the natural and the doubled pitches |
| Scales.BetweenAgree | scales.js:117-132 | on recognised names, the string count of sharps between naturals agrees with the pitch count at every prefix |
| Scales.ScoresAgree | scales.js:65-132 | on recognised names, the five string scores equal the pitch scores of src/guitar-scales/scale.js, the penalty sum taken over corrected pitch classes |
| Scales.RankingAgrees | scales.js:134-156 | the string speller and the corrected pitch speller rank recognised spellings alike |
| Scales.CandidatesRecognised | scales.js:34-42 | from a recognised root, every candidate is made of recognised names |
| Scales.TuningChar | scales.js:159 | a single character is found in `notes2` exactly when it is a letter, at the letter's pitch class |
| Scales.ParseTuning | scales.js:158-160 | `parseTuning` gives one entry per character, each -1 or a row of `notes2` listing exactly that character |
| Scales.TuningToString | scales.js:162-164 | `tuningToString` writes at most two characters per entry, and at least one per entry when every entry is a pitch class |
| Scales.ParseTuningSpec | scales.js:158-160 | `parseTuning` gives one entry per character: the letter's pitch class, or -1 |
| Scales.ParseTuningAppend | scales.js:158-160 | `parseTuning` reads a concatenation piece by piece |
| Scales.TuningToStringSnoc | scales.js:162-164 | `tuningToString` writes a tuning entry by entry |
| Scales.LetterName | scales.js:158-164 | a letter on its own is read as its pitch class, whose name is the letter again |
| Scales.NaturalName | scales.js:158-164 | the name of a natural pitch class is one letter, which is read back as that class |
| Scales.TuningRoundTrip | scales.js:158-164 | a tuning written in letters survives `parseTuning` then `tuningToString` |
| Scales.TuningRoundTripBack | scales.js:158-164 | a tuning of natural pitch classes survives `tuningToString` then `parseTuning` |
| Scales.SharpTuningText | scales.js:162-164 | C sharp is written as the two characters "C#" |
| Scales.ParseTuningNaturals | scales.js:158-160 | `parseTuning` only yields -1 or a natural pitch class, so a sharp in a tuning is not read back |
| Scales.SplitSpec | scales.js:167 | `split` gives at least one piece, no piece holds the separator, and joining the pieces restores the text |
| Scales.SplitPieces | scales.js:167 | `split` gives at least one piece, and no piece holds the separator |
| Scales.SplitRejoins | scales.js:167 | joining the pieces of `split` with the separator restores the text |
| Scales.ToNumber | scales.js:167 | unary `+` on a piece gives a number exactly for the empty piece or digits with an optional sign, negative only after a minus |
| Scales.ParseScale | scales.js:166-168 | `parseScale` gives at least one entry, and a text without commas gives the single number of the whole text |
| Scales.JoinSplit | scales.js:167 | joining pieces free of the separator and splitting again gives the pieces back |
| Scales.DecimalSpec | scales.js:167 | a number written in decimal is a non-empty run of digits that reads back as the number |
| Scales.ParseScaleText | scales.js:166-168 | `parseScale` of a non-empty scale written with commas gives back every entry |
| Scales.ParseScaleExample | scales.js:166-168 | "2,4,5" is read as 2, 4 and 5 |
| Scales.ParseScaleEmpty | scales.js:166-168 | an empty field is read as the single step 0, not as an empty scale |
| Scales.EqualArray | scales.js:200-202 | `equalArray` is true exactly when the two arrays are equal |
| Scales.Mod | scales.js:204-206 | `mod(a, n)` is smaller than n in magnitude, and non-negative for a positive n |
| Scales.ModSpec | scales.js:204-206 | for a positive divisor, `mod(a, n)` is the mathematical remainder: it lies in [0, n) and differs from a by a multiple of n, negative a included |
| Chords.ParseChordDefined | chords.js:56-92 | `parseChord` answers a chord exactly when the input is a letter A-G, an optional b or #, and a suffix listed in `modifierMap` |
| Chords.ParseChord | chords.js:56-92 | a parsed chord starts with a letter A-G and a suffix listed in `modifierMap`, and carries that suffix's formula and three notes |
| Chords.ParseChordTriad | chords.js:61-63 | a parsed chord is the triad of the suffix's quality on the root group and its index in `notes` |
| Chords.TriadSpec | chords.js:64-91 | a triad carries the quality's formula; its notes are the root, then root + interval modulo 12 |
| Chords.TriadIntervals | chords.js:64-91 | on a listed root every note is a pitch class lying its formula interval above the root, modulo 12 |
| Chords.SharpRoots | chords.js:62 | the sharp of C, D, F, G or A gets the root index one above its letter's pitch class (1, 3, 6, 8, 10) |
| Chords.MissingSharp | chords.js:62 | E# and B# get the root index -1 |
| Chords.FlatRoot | chords.js:62 | every flat root gets the root index -1 |
| Chords.MaxEntry | chords.js:102 | `Math.max(...f)` is an entry of f at least as large as every entry |
| Chords.MinPositive | chords.js:103-106 | the minimum of the positive entries is absent exactly when none is positive; otherwise it is a positive entry below every other one |
| Chords.GenerateChord | chords.js:94-145 | the recursive search returns its completions in the source's order: open string, muted string, then each fret of the window |
| Chords.AddFretted | chords.js:131-142 | the fret loop appends the completions for the frets lo to hi |
| Chords.FretChord | chords.js:132-141 | one pass of the fret loop gives the completions pressing the string at that fret, if it sounds a chord note |
| Chords.Muted | chords.js:158 | `Array(n).fill(-1)` has n entries, all -1 |
| Chords.FingeringsShape | chords.js:94-145 | every fingering returned covers all strings, keeps the given entries, and fills each later string with a muted string, an allowed open string or a window fret sounding a chord note |
| Chords.Fingerings | chords.js:94-145 | every fingering returned covers all strings and begins with the given fingering |
| Chords.Fretted | chords.js:131-142 | every fretted completion covers all strings and begins with the given fingering |
| Chords.FretChords | chords.js:132-141 | every completion pressing the next string at a fret covers all strings and begins with the given fingering |
| Chords.FrettedShape | chords.js:131-142 | the fretted completions press the next string at a fret of the window sounding a chord note |
| Chords.FretChordsShape | chords.js:132-141 | the completions pressing the next string at a fret keep that fret, which sounds a chord note |
| Chords.FingeringsComplete | chords.js:94-145 | the search misses nothing: every completion filled as the search may place each string, whose recorded notes with `usedNotes` number as many as the chord's notes, is returned |
| Chords.FingeringsCount | chords.js:95-96 | every fingering returned records, with `usedNotes`, exactly as many distinct notes as the chord has |
| Chords.FingeringsExactly | chords.js:94-145 | a fingering is returned if and only if it completes the given one as the search may place each string and records, with `usedNotes`, as many distinct notes as the chord has |
| Chords.FingeringsCover | chords.js:95-96 | when `usedNotes` records sounded chord notes, every fingering returned sounds every note of the chord |
| Chords.FrettedCover | chords.js:131-142 | the fretted completions sound every chord note |
| Chords.TrackedAdd | chords.js:136 | pressing a fret that sounds a chord note records that note as sounded |
| Chords.AllUsed | chords.js:96 | as many distinct recorded chord notes as the chord has notes are all of them |
| Chords.PlacedBounds | chords.js:102-106 | an entry the search places is at least -1, and a pressed fret is at most `frets` |
| Chords.PlacedSounds | chords.js:111-133 | a sounded entry the search places plays a chord note |
| Chords.ReachStep | chords.js:101-106 | a fret chosen from the window keeps every two pressed frets less than four frets apart |
| Chords.ReachKept | chords.js:101-145 | completing a fingering whose pressed frets are less than four apart keeps them less than four apart, string by string |
| Chords.GenerateChords | chords.js:147-168 | the loops over root strings and root frets return the chords of every root position |
| Chords.AddRootFrets | chords.js:152-163 | the inner loop appends the chords rooted on the string at each fret below `frets` |
| Chords.RootChord | chords.js:153-162 | one pass gives the chords rooted on the string at the fret, when it sounds `notes[0]` |
| Chords.RootChordsSpec | chords.js:153-162 | a chord found from a root fret mutes the strings before, presses the root there, records as many distinct notes as the chord has, is within reach and sounds every chord note |
| Chords.RootFretsSpec | chords.js:152-163 | a chord found on a root string has its root at a fret from the start fret on, and satisfies the same properties |
| Chords.ChordsFromSpec | chords.js:147-168 | every chord reported has its root on a string that leaves as many strings after it as the chord has notes, records as many distinct notes as the chord has, is within reach and sounds every chord note |
| Chords.RootChordsComplete | chords.js:153-162 | every completion rooted on a string at a fret below `frets` that records all the chord's notes is found from that root fret |
| Chords.ChordsFromComplete | chords.js:147-168 | the loops over root strings and root frets reach every such chord whose root string is at or after the start |
| Chords.ChordsExactly | chords.js:147-168 | a chord is reported if and only if it is rooted on some string, mutes the strings before, is filled as the search may place each string and records as many distinct notes as the chord has |
| FibonacciLfsr.Zeros | src/fibonacci-lfsr/index.js:99-100 | `new Array(n).fill(0)` has n entries, all 0 |
| FibonacciLfsr.Register.constructor | src/fibonacci-lfsr/index.js:99-101 | a new register of n bits is all clear, with only its last position tapped |
| FibonacciLfsr.Register.Initialize | src/fibonacci-lfsr/index.js:99-101 | `initialize(bits)` clears every bit and taps only the last position |
| FibonacciLfsr.Register.Next | src/fibonacci-lfsr/index.js:38-41 | "Next state" replaces the state with one step of the register and keeps the taps |
| FibonacciLfsr.Register.ToggleBit | src/fibonacci-lfsr/index.js:115 | a click on bit i flips that bit only |
| FibonacciLfsr.Register.ToggleTap | src/fibonacci-lfsr/index.js:164-172 | a click on tap i, below the last position, flips that tap only, so the last position stays tapped |
| FibonacciLfsr.Register.TapsOutput | src/fibonacci-lfsr/index.js:51-60 | the loop of `updateState` builds the polynomial text of the taps |
| FibonacciLfsr.XorAllZeros | src/fibonacci-lfsr/index.js:39 | the XOR of clear bits is clear |
| FibonacciLfsr.Step | src/fibonacci-lfsr/index.js:38-41 | a step keeps the length, puts the feedback first and moves every other bit one place on |
| FibonacciLfsr.Feedback | src/fibonacci-lfsr/index.js:39 | the feedback of an all-clear state, or of a register with no taps, is clear |
| FibonacciLfsr.ClearFeedback | src/fibonacci-lfsr/index.js:39 | a clear state, or no taps, selects only clear bits, so their XOR is clear |
| FibonacciLfsr.TapsText | src/fibonacci-lfsr/index.js:50-60 | the polynomial text starts with x to the superscript length and ends with "+1" |
| FibonacciLfsr.ZeroFixed | src/fibonacci-lfsr/index.js:38-41 | the all-clear state that `initialize` sets up is a fixed point of the step, whatever the taps |
| FibonacciLfsr.FeedbackSnoc | src/fibonacci-lfsr/index.js:39 | the feedback is that of all but the last bit, XORed with the last bit when it is tapped |
| FibonacciLfsr.FeedbackToggle | src/fibonacci-lfsr/index.js:39 | flipping a tapped bit flips the feedback; flipping an untapped bit leaves it |
| FibonacciLfsr.StepInjective | src/fibonacci-lfsr/index.js:38-41 | with the last position tapped, two states with the same successor are equal |
| FibonacciLfsr.ExponentsSpec | src/fibonacci-lfsr/index.js:52-59 | the polynomial's exponents decrease, and e is listed exactly when 1 <= e <= k and position e - 1 is tapped |
| FibonacciLfsr.TermsAppend | src/fibonacci-lfsr/index.js:52-59 | the terms of two lists of exponents are written one after the other |
| FibonacciLfsr.LoopTermsSpec | src/fibonacci-lfsr/index.js:52-59 | the loop's terms and the "+x" term write the tapped exponents from i + 1 down |
| FibonacciLfsr.TapsTextSpec | src/fibonacci-lfsr/index.js:51-60 | for two bits or more, the page writes the tap polynomial x^n + the tapped powers from the highest down + 1 |
| FibonacciLfsr.OneBitText | src/fibonacci-lfsr/index.js:51-60 | for one bit, the page writes x^1 + x + 1, which is not the polynomial x^1 + 1 |
| FibonacciLfsr.CorrectedTapsTextSpec | src/fibonacci-lfsr/index.js:51-60 | the corrected text is the tap polynomial for every register length |

## Left out

- Browser and UI code is not modelled. It has no computational content beyond what is listed
  above. This covers:
  - the DOM and SVG drawing;
  - event wiring;
  - `localStorage`;
  - audio (`midiToHertz`, `playSound`, `playChord` and the sample loading of `chords.js`);
  - `render` and `generateFretWidths`, which work on floating point;
  - `console.log`;
  - the hexadecimal and decimal display of the LFSR state.
- `BinaryStrings.BinaryString.ToInteger` of the empty string is 0. `parseInt('', 2)` is NaN, but
  no code path converts an empty string.
- Bit arrays hold only 0 and 1. The source's unary `+` on other characters gives NaN, and
  `BinaryStrings.FromString` requires a '0'/'1' text.
- `IntegerCodes.EliasOmegaEncode` requires x >= 1. On 0 the source's loop never ends, because
  each pass maps 0 to bitlen(0) - 1 == 0.
- The gamma and delta round trips are stated for x >= 1, the integers those codes write. Gamma of
  0 is the undecodable "0", and delta of 0 equals delta of 1.
- `decodeSequence` takes the code as a tag, not as a function value, because a Dafny method
  cannot be passed as a value. The lemmas are stated for any decoder that consumes a prefix.
- `argMax` on an empty iterable returns `[undefined]` in the source.
  - `Selection.ArgMax` requires a non-empty input.
  - The candidates passed to it are never empty (`Scale.CombinationsNonEmpty`).
- Ties are broken by input order. This is modelled through the order of the candidates, and no
  lemma ranks spellings beyond the five phases.
- `scale.js` is a copy of `src/guitar-scales/scale.js`. It differs only in spelling
  `augmentedDiminished` as `augmentedDimished` and in the order of its definitions, so module
  `Scale` models both.
- src/guitar-scales/pitch.js is not part of this model. The speller uses the `Pitch` of
  `pitch.js` in its place.
- `Scale.SpellScale` requires that no `(root.getPitchClass() + step) % 12` is negative, in
  JavaScript's truncating `%`. That is where the source throws: `notes` has no row for a negative
  index. The sum may itself be negative when it is a multiple of 12: `-12 % 12` is -0, which reads
  row 0 (`Scale.TransposableEdges`). A root of C♭ (-1) or C♭♭ (-2) with the step 0 gives -1 or -2
  and throws (`Scale.SpellersDiffer`). It also requires a recognised root unless the scale is
  empty: an empty scale gives the root alone, whatever it is.
  - `Scale.SpellScale` takes pitch classes from `getPitchClass` as written
    (`Pitches.Pitch.GetPitchClass`), both for the transposition and in the penalty.
  - `Scale.CorrectedSpellScale` uses the 0..11 class `Pitches.Pitch.PitchClass` and has no
    requirement on the steps. The two differ only through a C♭ or C♭♭, as the root or among the
    candidates' notes (`Scale.ScoresAgreeWithoutFlatC`, `Scale.CandidatesAgreeWithoutFlatC`).
    There the penalties differ, so the chosen spelling can differ too (see Findings).
- `Pitches.Parse` measures a name in Unicode characters, while pitch.js:26-41 reads `name.length`
  and `name[i]` in UTF-16 code units. A name starting with a character outside the Basic
  Multilingual Plane is read differently: "𝄞" has length 2 in the source, so its modifier stays
  undefined, while the model gives it the modifier 0; "𝄞♯" has length 3 in the source and modifier
  undefined, while the model gives 1. In both the letter is -1, so the pitch is unrecognised either
  way.
- Pitches.Pitch.GetPitchClass, Pitches.Pitch.PitchClass, Pitches.Pitch.ToString: require a
  recognised pitch. On an unrecognised name the source answers NaN, `undefined` or a text such as
  "undefined♭", which the model does not follow. No caller in the modelled code passes an
  unrecognised pitch: the speller's candidates come from `notes`, and its root is required to be
  recognised unless the scale is empty, when its penalties are never taken.
- The `Scales` agreement lemmas (`Scales.PenaltyAgrees`, `Scales.ScoresAgree`,
  `Scales.RankingAgrees`) compare the string speller with the corrected pitch speller. The string
  speller finds C♭ in row 11, so it disagrees with `src/guitar-scales/scale.js` as written on C♭
  and C♭♭ (`Scales.PenaltyDiffersAsWritten`).
- `Scales.Spell` and `Scales.Combinations` require that no `(scale[k] + offset) % 12` is
  negative, in JavaScript's truncating `%`; a negative row index throws in the source. A negative
  multiple of 12 gives -0, which reads row 0 (`Scales.TransposableEdges`).
- `Scales.ParseTuning` splits the tuning text into Unicode characters, while `split("")` splits it
  into UTF-16 code units. A character outside the Basic Multilingual Plane is one -1 entry in the
  model and two -1 entries in the source.
- `Scales.ToNumber` models unary `+` on decimal digits with an optional sign, and on the empty
  piece; every other piece is NaN (None). It does not model:
  - surrounding white space;
  - fractions and exponents;
  - hexadecimal, octal and binary literals;
  - `Infinity`.
- Scales.Mod requires a non-zero divisor, because with n == 0 the source gives NaN. `Scales.ModSpec` is stated for a positive divisor.
- `Chords.GenerateChord` requires that the fingering is no longer than the tuning. On a longer
  one the source recurses without end.
- `usedNotes` is modelled as a set of numbers. `Object.keys` of the source's object of keys
  counts the same distinct notes.
- The coverage lemmas `Chords.FingeringsCover`, `Chords.RootChordsSpec`, `Chords.RootFretsSpec`
  and `Chords.ChordsFromSpec` state that every chord note sounds only for a tuning of pitch
  classes 0..11, as in `chords.js`. Otherwise the open-string test compares the raw tuning value.
- The regular expression of `parseChord` is modelled explicitly: a letter A-G, an optional b or
  #, then a rest without line terminators.
- Keys inherited from `Object.prototype` are not modelled in `modifierMap`. They give a non-string
  quality, which the `switch` sends to `null` like any unknown suffix.
- The LFSR requires at least one bit. The page's `min="1"` input can still deliver 0, a negative
  or a fractional number, which the model does not follow.
- The LFSR's `state` and `taps` are sequences that each method reassigns, not arrays changed in
  place. Nothing else holds a reference to them, so no aliasing is lost.

## Findings

| source | as written | input that shows it | evidently intended | confidence | as-written member | corrected member |
|---|---|---|---|---|---|---|
| pitch.js:69-71 | `(alphabetPitches[letter] + modifier) % 12` truncates toward zero, so C♭ gets pitch class -1 and C♭♭ gets -2 | `new Pitch("C♭").getPitchClass()` gives -1, yet `notes` lists C♭ under 11 (and C♭♭ under 10) | the class in 0..11 under which `notes` lists the name, 11 for C♭ and 10 for C♭♭ | high, not executed | Pitches.CFlatPitchClass | Pitches.NotesTable |
| src/guitar-scales/scale.js:72-74 | the speller takes semitones and the transposition from `getPitchClass`, which is -1 for C♭ and -2 for C♭♭ | B over C♭ scores the penalty 1, almost diatonic, though it is a diminished octave (10 over classes 0..11); a root of C♭ with the step 0 asks `listPitchClass` for row -1, which `notes` lacks, so the speller throws | the 0..11 pitch class in both places | high, not executed | Scale.SpellersDiffer | Scale.CorrectedSpellScale |
| src/fibonacci-lfsr/index.js:51-60 | the "+x" term for tap 0 is written even when position 0 is the last position, whose tap is the leading term x^n | a register of one bit writes x<sup>1</sup>+x+1 | x<sup>1</sup>+1, the polynomial of the taps | medium, not executed | FibonacciLfsr.OneBitText | FibonacciLfsr.CorrectedTapsTextSpec |
