# Advent of Code 2015 solutions, modelled in Dafny

This project models the puzzle solvers of an Advent of Code 2015 repository
written in Rust, one Dafny module per solver file, and proves what each solver
computes.

- `Circuit` (src/bin/07.rs) is the centre of the model. It covers the logic-gate
  network: wires driven by literal signals, AND, OR, LSHIFT, RSHIFT and NOT
  gates over 16-bit values; the parser of `<expr> -> <wire>` lines; the
  memoised `get_signal` lookup that threads a resolution cache through the
  recursion; and the part-two override of wire `b`. The board is a value and
  the cache is passed in and out of the methods, as `&mut HashMap` is in the
  source. A ghost rank map, in which every wire a gate reads ranks lower than
  the gate's own wire, stands for the acyclic boards the code can evaluate.
  The memoised methods are proved equal to an uncached recursive semantics
  (`SignalOf`). Cache entries, once written, are never changed.
- `Password` (src/bin/11.rs): the eight-letter base-26 odometer.
  `PasswordGenerator` is a class over an `array<nat>` of digits. `Increment`
  is the in-place carry loop. `Next` loops until the three validity rules hold.
- `Lights` (src/bin/06.rs): the 1000×1000 light grid as a class over a 2-D
  array, with the two in-place rectangle updates, the lit count and the total
  brightness, and the instruction parser.
- `Seating` (src/bin/13.rs): the happiness matrix. It covers parsing,
  `add_myself`, the circular total and the best total over every seating.
- `Routes` (src/bin/09.rs): the symmetric distance table and the shortest and
  longest routes over every ordering of the places.
- `Permutations` is shared by `Seating` and `Routes`. It enumerates every
  ordering of a sequence and gives the maximum and minimum of a list.
- `Delivery` (src/bin/03.rs): the grid walk for Santa alone and for Santa with
  Robo-Santa, with the number of distinct houses visited.
- `Wrapping` (src/bin/02.rs): paper and ribbon for a box given as `AxBxC`.
- `Json` (src/bin/12.rs): the separator-split number sum of part one, and the
  "red"-aware score over a JSON tree.
- `Nice` (src/bin/05.rs): the two niceness rules and the count of nice words.
- `LookAndSay` (src/bin/10.rs): one look-and-say step as a grouping fold and an
  emitting fold, inside a generator class that keeps the latest string.
- `Escapes` (src/bin/08.rs): the per-line escape overheads, as the window fold
  of part one and the quote count of part two.
- `Floors` (src/bin/01.rs): the bracket floor and the first step into the
  basement.
- The helper modules are `Text`, `Sums` and `Wrappers`. `Text` covers
  splitting, lines, trimming, decimal parsing and printing, and the byte
  offsets of `char_indices`. `Sums` sums a sequence of integers. `Wrappers`
  holds `Option`.

Two conventions hold across the model. An `unwrap`, a map index or a
`usize` underflow that panics on some input becomes a precondition of the
operation. Fixed-width integer results are
mathematical integers unless a section below says otherwise.

## Model

| member | source | states |
|---|---|---|
| Circuit.CircuitComponent.Resolve | src/bin/07.rs:35-77 | The result is the gate's output on the board: the literal or wire value of a direct connection, `l & r`, `l \| r`, `x << k` and `x >> k` truncated to 16 bits, `!x`, or 0 when an operand's wire is undefined. The cache only gains entries, exactly the wires the gate depends on, and stays consistent with the uncached semantics. |
| Circuit.CircuitBoard.GetSignal | src/bin/07.rs:85-97 | Memoised lookup equals the uncached recursive signal of the wire. A cache hit returns the stored value and leaves the cache unchanged. A miss ends with the wire cached with the returned value, `None` included. Earlier entries are never altered. The cache grows by exactly the wire's dependencies. |
| Circuit.GetComponentInputValue | src/bin/07.rs:23-32 | A literal operand yields itself and leaves the cache untouched. A wire operand yields that wire's signal, with the same cache guarantees as `get_signal`. |
| Circuit.GetOperandValues | src/bin/07.rs:40-57 | Both operands of a binary gate are evaluated left then right. Each value is that operand's signal, and the cache grows by the union of both operands' dependencies. |
| Circuit.ComponentBelowWire | src/bin/07.rs:85-92 | On a ranked board, the gate of a wire sits strictly lower than the wire, so the recursion of `get_signal` through `resolve` terminates. |
| Circuit.DepsBelow | src/bin/07.rs:85-97 | Every wire resolved while computing a wire is no higher than that wire. |
| Circuit.ComponentDepsBelow | src/bin/07.rs:35-77 | Every wire resolved while computing a gate is no higher than the gate. |
| Circuit.OnlyUndefinedWireIsNone | src/bin/07.rs:89-94 | A wire's signal is `None` exactly when no component drives that wire. A defined wire always has a value. |
| Circuit.MissingOperandYieldsZero | src/bin/07.rs:37-75 | A gate that reads an undefined wire outputs 0, for every gate kind. |
| Circuit.BitNotComplement | src/bin/07.rs:72 | NOT is `65535 - x`, and applying it twice gives `x` back. |
| Circuit.AndOrBounds | src/bin/07.rs:45-54 | AND is at most each operand, and OR is at least each operand. |
| Circuit.ShiftLeftWraps | src/bin/07.rs:60 | A left shift by k below 16 is multiplication by 2^k modulo 2^16. |
| Circuit.ShiftLeftTruncates | src/bin/07.rs:60-66 | Bits shifted out above bit 15 or below bit 0 are lost, and right shifts fill with zeros. |
| Circuit.RankIndependent | src/bin/07.rs:85-97 | The signal of a wire does not depend on which rank map shows that the board is acyclic. |
| Circuit.ParseSource | src/bin/07.rs:106-111 | The token is a `Signal` exactly when it parses as a u16. Otherwise it is a reference to the wire named by the whole token. |
| Circuit.ParseComponent | src/bin/07.rs:113-134 | The gate kind is fixed by the first of " AND ", " OR ", " LSHIFT ", " RSHIFT ", "NOT " that the text contains, in that priority. A text with none of them is a direct connection. Shift amounts fit a usize. |
| Circuit.ParseInstruction | src/bin/07.rs:136-140 | The target is the text after the first " -> ". The component is parsed from the text before it. |
| Circuit.ParseAll | src/bin/07.rs:101 | Every line is parsed, in order. |
| Circuit.Collect | src/bin/07.rs:101 | The map has exactly the targets of the parsed lines as its keys. |
| Circuit.CollectCovers | src/bin/07.rs:101 | The target of every parsed line is a key of the collected map. |
| Circuit.LastPairWins | src/bin/07.rs:101 | When a target appears on several lines, the last line's component is the one kept. |
| Circuit.FromInstructions | src/bin/07.rs:99-103 | Every line's target is a wire of the board. |
| Circuit.ShowInputParses | src/bin/07.rs:106-111 | Parsing a printed operand, a literal or a wire name, gives the operand back. |
| Circuit.ShowSignalParses | src/bin/07.rs:107-108 | A printed 16-bit value parses back as that `Signal`. |
| Circuit.ShowWireParses | src/bin/07.rs:109 | A lower-case wire name parses as a reference to itself. |
| Circuit.KeywordSplit | src/bin/07.rs:114-128 | In `a KEYWORD b`, where a and b are plain operands, the only keyword found is that one, and the split happens at it. |
| Circuit.PlainHasNoKeyword | src/bin/07.rs:114-128 | A plain operand contains none of the gate keywords. |
| Circuit.NotHasNoKeyword | src/bin/07.rs:128-130 | `NOT x` contains "NOT " and none of the binary keywords. |
| Circuit.ParseComponentRoundTrip | src/bin/07.rs:113-134 | Parsing a printed gate gives back the same gate, for all six kinds. |
| Circuit.BinaryRoundTrip | src/bin/07.rs:114-119 | Parsing a printed AND or OR gate gives back the same gate. |
| Circuit.DirectRoundTrip | src/bin/07.rs:131-133 | Parsing a printed direct connection gives back the same connection. |
| Circuit.LeftShiftRoundTrip | src/bin/07.rs:120-123 | Parsing a printed LSHIFT gate gives back the same gate and amount. |
| Circuit.RightShiftRoundTrip | src/bin/07.rs:124-127 | Parsing a printed RSHIFT gate gives back the same gate and amount. |
| Circuit.NotRoundTrip | src/bin/07.rs:128-130 | Parsing a printed NOT gate gives back the same gate. |
| Circuit.ArrowSplit | src/bin/07.rs:137 | `a -> b` splits into a and b when neither contains a dash. |
| Circuit.ParseInstructionRoundTrip | src/bin/07.rs:136-140 | Parsing `<gate> -> <wire>` gives back the wire and the gate. |
| Circuit.ParseAllRoundTrip | src/bin/07.rs:99-103 | Parsing the printed lines of a list of instructions gives back the list. |
| Circuit.ShowInstructions | src/bin/07.rs:136-140 | One printed `<gate> -> <wire>` line per instruction, in order. |
| Circuit.CastRoundTrip | src/bin/07.rs:107-108 | A 16-bit value fits the u16 parser's range and converts back to itself. |
| Circuit.PartOne | src/bin/07.rs:142-145 | The answer is the signal of wire `a` on the parsed board, and it is `None` exactly when `a` is undefined. |
| Circuit.Rewire | src/bin/07.rs:152-155 | Wire `b` is driven by the given literal, whether or not it existed before. Every other wire keeps its component. |
| Circuit.RewiredRank | src/bin/07.rs:152-155 | A rank for the rewired board: the overridden wire ranks 0 and every other wire ranks one higher. |
| Circuit.RewirePreservesWellFormed | src/bin/07.rs:152-155 | Overriding a wire with a literal keeps an acyclic board acyclic. |
| Circuit.RewiredWireSignal | src/bin/07.rs:152-155 | After the override, the overridden wire carries the literal. |
| Circuit.RewireUnaffected | src/bin/07.rs:152-158 | A wire that does not depend on the overridden wire keeps its signal after the override. |
| Circuit.PartTwo | src/bin/07.rs:147-159 | The answer is the signal of `a` on the board in which `b` is driven by part one's value of `a`, evaluated afresh. The answer is always present. |
| Circuit.ExampleBoard | src/bin/07.rs:166-182 | The eight example lines parse into the expected board. |
| Circuit.ExampleSplitsIntoLines | src/bin/07.rs:166-182 | The example text splits into its eight lines. |
| Circuit.ExampleText | src/bin/07.rs:166-182 | The eight example lines are the printed form of the eight expected instructions. |
| Circuit.ExampleCollects | src/bin/07.rs:166-182 | The parsed example instructions form the expected wire map. |
| Circuit.ExampleInputs | src/bin/07.rs:173-174 | On the example board, x = 123 and y = 456. |
| Circuit.ExampleInput | src/bin/07.rs:173-174 | On the example board, the input wire x or y carries its literal. |
| Circuit.ExampleGateD | src/bin/07.rs:167 | On the example board, d = 72. |
| Circuit.ExampleGateE | src/bin/07.rs:168 | On the example board, e = 507. |
| Circuit.ExampleGateF | src/bin/07.rs:169 | On the example board, f = 492. |
| Circuit.ExampleGateG | src/bin/07.rs:170 | On the example board, g = 114. |
| Circuit.ExampleGateH | src/bin/07.rs:171 | On the example board, h = 65412. |
| Circuit.ExampleGateI | src/bin/07.rs:172 | On the example board, i = 65079. |
| Circuit.ExampleSignal | src/bin/07.rs:166-182 | Each of the six gate wires of the example carries its expected value. |
| Circuit.ExampleSignals | src/bin/07.rs:166-182 | Every expected wire value of the example holds at once. |
| Circuit.ExampleWellFormed | src/bin/07.rs:166-182 | The example board is acyclic and every shift in it is below 16. |
| Circuit.ExampleReads | src/bin/07.rs:166-182 | Every wire an example gate reads ranks below the gate's own wire. |
| Circuit.ExampleNamesDistinct | src/bin/07.rs:166-182 | The eight example lines drive eight different wires. |
| Password.LettersInOrder | src/bin/11.rs:3-6 | The alphabet has 26 letters, in code-point order. |
| Password.Position | src/bin/11.rs:18-20 | A letter's digit is its offset from `a`, and the alphabet holds that letter at that position. |
| Password.DigitsOf | src/bin/11.rs:14-23 | Each letter becomes its offset from `a`, which is a digit below 26. |
| Password.Show | src/bin/11.rs:77-82 | Each digit becomes the letter at that offset from `a`. |
| Password.ShowDigitsOf | src/bin/11.rs:133-138 | Printing the digits of a lower-case password gives the password back. |
| Password.DigitsOfShow | src/bin/11.rs:14-23 | Reading back the printed digits gives the digits back. |
| Password.ValueSnoc | src/bin/11.rs:59-75 | The value of digits read as a base-26 number, extended by one digit. |
| Password.ValueBound | src/bin/11.rs:59-75 | An n-digit base-26 number is below 26^n. |
| Password.ValueInjective | src/bin/11.rs:59-75 | Two digit strings of the same length and value are equal. |
| Password.Incremented | src/bin/11.rs:59-75 | Incrementing keeps the length and keeps every digit below 26. |
| Password.IncrementedValue | src/bin/11.rs:59-75 | Incrementing maps the number n to (n + 1) mod 26^length. |
| Password.IncrementedShape | src/bin/11.rs:63-74 | Only the last non-25 digit and the 25s after it change: that digit goes up by one and the 25s wrap to 0. |
| Password.IncrementedWrapsAll | src/bin/11.rs:63-74 | All 25s wrap round to all 0s. |
| Password.HasIncreasingRun | src/bin/11.rs:25-29 | The increasing-run rule holds exactly when some three neighbouring digits climb by one each. |
| Password.ClimbsShift | src/bin/11.rs:26-28 | A climb after the first digit is a climb of the remaining digits. |
| Password.NoConfusingLetters | src/bin/11.rs:31-35 | No digit is 8, 11 or 14 exactly when the printed password has no `i`, `l` or `o`. |
| Password.ConfusingLettersShown | src/bin/11.rs:31-35 | Digits 8, 11 and 14 print as `i`, `l` and `o`. |
| Password.NoConfusingLettersIff | src/bin/11.rs:31-35 | The banned-digit rule, digits 8, 11 and 14, holds exactly when the password has no `i`, `l` or `o`. |
| Password.BannedLetter | src/bin/11.rs:31-35 | Digits 8, 11 and 14 are exactly the letters `i`, `l` and `o`. |
| Password.PairFoldGrows | src/bin/11.rs:37-51 | The greedy pair count never goes down. |
| Password.PairFoldFindsOne | src/bin/11.rs:37-51 | A pair anywhere ahead is counted. |
| Password.PairFoldFindsTwo | src/bin/11.rs:37-51 | Two non-overlapping pairs ahead are both counted. |
| Password.PairFoldWitness | src/bin/11.rs:37-51 | A positive count comes from an actual pair. |
| Password.PairFoldWitnessTwo | src/bin/11.rs:37-51 | A count of two comes from two non-overlapping pairs. |
| Password.PairFoldTwoIff | src/bin/11.rs:38-50 | The fold from the first window counts two exactly when two non-overlapping pairs exist. |
| Password.HasTwoPairs | src/bin/11.rs:37-51 | The pair rule holds exactly when there are two non-overlapping pairs of equal neighbouring digits. |
| Password.IsValidPassword | src/bin/11.rs:53-57 | Valid exactly when three neighbouring digits climb, no digit is 8, 11 or 14, and two pairs do not overlap. |
| Password.TargetIsValid | src/bin/11.rs:53-57 | There is a valid eight-letter password, so the search in `next` ends. |
| Password.DistanceShrinks | src/bin/11.rs:88-94 | An increment from an invalid password moves strictly closer to a fixed valid password, counting wrap-around. |
| Password.PasswordGenerator.FromInitialPassword | src/bin/11.rs:14-23 | The state holds the digits of the password, and printing the state gives the password back. |
| Password.PasswordGenerator.AsString | src/bin/11.rs:77-82 | The printed state is a lower-case password whose digits are the state. |
| Password.PasswordGenerator.IsValid | src/bin/11.rs:53-57 | The held password is valid exactly when its digits climb somewhere, its text has no `i`, `l` or `o`, and two of its pairs do not overlap. |
| Password.PasswordGenerator.Increment | src/bin/11.rs:59-75 | The state becomes the incremented digits, that is, n + 1 modulo 26^8. |
| Password.PasswordGenerator.Next | src/bin/11.rs:88-94 | The state advances by the least positive number of increments that reaches a valid password, and the result is that password. |
| Password.PartOne | src/bin/11.rs:97-99 | The answer is the first valid password after the input with Unicode white space trimmed. |
| Password.PartTwo | src/bin/11.rs:101-103 | The answer is the first valid password after part one's answer. |
| Password.HijklmmnIsInvalid | src/bin/11.rs:111 | `hijklmmn` is not valid. |
| Password.AbbceffgIsInvalid | src/bin/11.rs:112 | `abbceffg` is not valid. |
| Password.AbbcegjkIsInvalid | src/bin/11.rs:113 | `abbcegjk` is not valid. |
| Password.AbcdefghIsInvalid | src/bin/11.rs:114 | `abcdefgh` is not valid. |
| Password.AbcdffaaIsValid | src/bin/11.rs:115 | `abcdffaa` is valid. |
| Password.GhijklmnIsInvalid | src/bin/11.rs:116 | `ghijklmn` is not valid. |
| Password.GhjaabccIsValid | src/bin/11.rs:117 | `ghjaabcc` is valid. |
| Password.TripleIsOnePair | src/bin/11.rs:37-51 | The greedy pair count takes `aaa` as one pair and `aaaa` as two. |
| Password.IncrementFirstExample | src/bin/11.rs:141 | `aaaaaaaa` increments to `aaaaaaab`. |
| Password.IncrementCarryExample | src/bin/11.rs:142 | `azzzzzzz` increments to `baaaaaaa`. |
| Password.IncrementWrapExample | src/bin/11.rs:143 | `zzzzzzzz` increments to `aaaaaaaa`. |
| Password.CarryDigits | src/bin/11.rs:142 | The digits of `azzzzzzz` increment to those of `baaaaaaa`. |
| Password.WrapDigits | src/bin/11.rs:143 | Eight 25s increment to eight 0s. |
| Password.GhjaabccDigitsAreValid | src/bin/11.rs:117 | The digits of `ghjaabcc` satisfy all three rules. |
| Password.Iterate | src/bin/11.rs:88-94 | Repeated increments keep the length and keep every digit below 26. |
| Lights.LightAfter | src/bin/06.rs:14-24 | Under the part-one rules a light is always 0 or 1. |
| Lights.BrightnessAfter | src/bin/06.rs:26-36 | Under the part-two rules each instruction raises a light's brightness by at most 2. |
| Lights.ToggleTwice | src/bin/06.rs:19-21 | Toggling flips a light that is on or off, and toggling twice restores it. |
| Lights.ToggleTwiceRestores | src/bin/06.rs:14-24 | Two identical toggles leave every part-one light as it was. |
| Lights.ToggleTwiceBrightens | src/bin/06.rs:26-36 | Two identical toggles add 4 to the brightness of each covered light and nothing elsewhere. |
| Lights.LitCountFrom | src/bin/06.rs:38-44 | The number of lit lights is at most the number of lights. |
| Lights.Lights.New | src/bin/06.rs:8-12 | Every light of the new grid is off. |
| Lights.Lights.ApplyInstructionP1 | src/bin/06.rs:14-24 | In the inclusive rectangle, turn-on sets 1, turn-off sets 0 and toggle flips. Every light outside it keeps its value. A grid that showed the lights after some instructions then shows the lights after one more. |
| Lights.Lights.ApplyInstructionP2 | src/bin/06.rs:26-36 | In the inclusive rectangle, turn-on adds 1, toggle adds 2 and turn-off subtracts 1 without going below 0. Every light outside it keeps its value. A grid that showed the brightness after some instructions then shows the brightness after one more. |
| Lights.Lights.CountOnFrom | src/bin/06.rs:38-44 | The number of lit lights from a given position on is at most the number of remaining lights. |
| Lights.Lights.CountOn | src/bin/06.rs:38-44 | The number of lit lights is at most 1000·1000. |
| Lights.Lights.CountOnAtMostBrightness | src/bin/06.rs:38-48 | The lit count never exceeds the total brightness. |
| Lights.Lights.BinaryCountIsBrightness | src/bin/06.rs:38-48 | On a grid of 0s and 1s, the lit count equals the total brightness. |
| Lights.Lights.CountAndBrightness | src/bin/06.rs:38-48 | Over the whole grid, the lit count is at most the brightness, and equal to it on a grid of 0s and 1s. |
| Lights.Lights.TotalBrightness | src/bin/06.rs:46-48 | The total brightness is at least the number of lit lights, and equals it on a grid of 0s and 1s. |
| Lights.Lights.CountOnMatches | src/bin/06.rs:38-44 | The lit count of the grid equals the count defined directly from the instructions. |
| Lights.Lights.BrightnessMatches | src/bin/06.rs:46-48 | The total brightness of the grid equals the sum defined directly from the instructions. |
| Lights.ParseCorner | src/bin/06.rs:81-90 | A corner that parses has two coordinates that fit a usize. |
| Lights.ParseInstruction | src/bin/06.rs:63-94 | A line that parses has the kind chosen by its prefix, `turn on`, then `turn off`, else toggle, and contains " through ". |
| Lights.TurnOnWithoutSpace | src/bin/06.rs:69-71 | A line starting with `turn on` but not `turn on ` is rejected. |
| Lights.UnknownWordFails | src/bin/06.rs:75-77 | A line with none of the three prefixes is rejected, as the toggle branch requires `toggle `. |
| Lights.ParseCornerRoundTrip | src/bin/06.rs:81-90 | A printed corner parses back to itself. |
| Lights.KindRoundTrip | src/bin/06.rs:69-78 | Each kind's prefix selects that kind, and stripping the prefix leaves the rest of the line. |
| Lights.ParseInstructionRoundTrip | src/bin/06.rs:63-94 | A printed instruction parses back to itself. |
| Lights.ParseAll | src/bin/06.rs:98-99 | Every line is parsed, in order, into an instruction within the grid. |
| Lights.CountOnAfter | src/bin/06.rs:96-102 | Applying the instructions in order to a new grid and counting gives the lit count defined from the instructions. |
| Lights.TotalBrightnessAfter | src/bin/06.rs:104-110 | Applying the instructions in order to a new grid and summing gives the brightness defined from the instructions. |
| Lights.PartOne | src/bin/06.rs:96-102 | The answer is the number of lights lit by the parsed instructions. |
| Lights.PartTwo | src/bin/06.rs:104-110 | The answer is the total brightness after the parsed instructions. |
| Seating.ParseChange | src/bin/13.rs:19-26 | A parsed change is an i32. |
| Seating.ParsePreference | src/bin/13.rs:15-30 | A parsed preference holds an i32 amount. |
| Seating.ParsePreferences | src/bin/13.rs:14-33 | Every line is parsed, in order. |
| Seating.ParseChangeRoundTrip | src/bin/13.rs:19-26 | `who would gain N` reads as +N, and `who would lose N` as -N. |
| Seating.ParsePreferenceRoundTrip | src/bin/13.rs:15-30 | A printed preference line parses back to the same guest, neighbour and signed amount. |
| Seating.LastPreferenceWins | src/bin/13.rs:30 | The matrix holds each (guest, neighbour) pair's amount from the last line that names the pair. |
| Seating.MatrixKeys | src/bin/13.rs:14-33 | The matrix's pairs are exactly the pairs named on some line. |
| Seating.WithMeBeside | src/bin/13.rs:37-44 | Adding myself beside the guests adds (ME, g) and (g, ME) with 0 for each guest and keeps every other pair. |
| Seating.WithMeBesideNobody | src/bin/13.rs:37-44 | With no guests, adding myself changes nothing. |
| Seating.WithMeBesideOneMore | src/bin/13.rs:38-43 | The insertion loop: one more guest adds exactly the two pairs with that guest. |
| Seating.WithMyself | src/bin/13.rs:37-44 | `add_myself`: the result has the old pairs plus (ME, g) and (g, ME) for every guest, with 0 for the new pairs. The old pairs without ME keep their values. |
| Seating.WithMyselfGuests | src/bin/13.rs:37-53 | After adding myself the guests are the old guests plus ME, unless there were none. |
| Seating.LeftOf | src/bin/13.rs:61-62 | The left neighbour is the seat before, wrapping from the first seat to the last. |
| Seating.RightOf | src/bin/13.rs:63 | The right neighbour is the seat after, wrapping from the last seat to the first. |
| Seating.RotateOne | src/bin/13.rs:61-63 | Moving everybody one seat round: each seat holds its right neighbour's guest. |
| Seating.RotateOneNeighbours | src/bin/13.rs:61-63 | After moving everybody one seat round, a guest's left and right neighbours stay the same. |
| Seating.RotateStep | src/bin/13.rs:61-63 | Rotating by r seats is rotating by r - 1 seats and then by one more. |
| Seating.TotalHappiness | src/bin/13.rs:55-69 | An empty table totals 0. A lone guest sits beside themself on both sides, so the total is twice their own entry. At a table of two, each guest sits beside the other on both sides, so the total is twice both entries. |
| Seating.SmallTable | src/bin/13.rs:55-69 | The totals of tables of one and two guests. |
| Seating.SeatHappinesses | src/bin/13.rs:55-69 | Each seat contributes what its guest feels about the left neighbour plus the right neighbour. |
| Seating.RotateOneTotal | src/bin/13.rs:55-69 | Moving everybody one seat round keeps the arrangement evaluable and keeps the total. |
| Seating.RotateOneSeated | src/bin/13.rs:65-66 | Moving everybody one seat round keeps every neighbour pair in the matrix. |
| Seating.RotationInvariant | src/bin/13.rs:62-63 | Rotating an arrangement by any number of seats keeps its total. |
| Seating.ArrangementSeated | src/bin/13.rs:65-66 | When the matrix knows every pair of distinct guests, and a lone guest's pair with themself, every seating of all guests can be evaluated without a missing pair. |
| Seating.PermutationsSeated | src/bin/13.rs:76-78 | Every listed ordering of the guests can be evaluated without a missing pair. |
| Seating.LoneGuest | src/bin/13.rs:55-69 | A seating of one guest is a guest list of one. |
| Seating.WithMyselfCovers | src/bin/13.rs:82-91 | If every pair of guests is known before adding myself, every pair is known after. |
| Seating.NewcomerCovered | src/bin/13.rs:37-44 | After adding myself, every pair among the old guests and ME is known. |
| Seating.PermutationTotals | src/bin/13.rs:76-78 | There is one total per ordering of the guests, and each is that seating's total. |
| Seating.PermutationTotalsCover | src/bin/13.rs:76-78 | Every seating of all the guests has its total among the listed totals. |
| Seating.HappinessMatrix.FromInput | src/bin/13.rs:12-35 | The matrix is the one built from the parsed lines, later lines overriding earlier ones. |
| Seating.HappinessMatrix.AddMyself | src/bin/13.rs:37-44 | The matrix becomes the old one with myself added beside every guest. |
| Seating.HappinessMatrix.AllGuests | src/bin/13.rs:46-53 | The guests are exactly the first names of the matrix's pairs. |
| Seating.HappinessMatrix.BestTotal | src/bin/13.rs:74-79 | The result is the total of some seating of all guests, and no seating has a larger total. |
| Seating.PartOne | src/bin/13.rs:72-80 | When the matrix knows every neighbour pair a seating looks up, the answer is the largest total over all seatings of the guests: it is attained and it bounds every seating. |
| Seating.PartTwo | src/bin/13.rs:82-91 | The same as part one, once myself is added beside every guest. It asks only that the matrix with myself added knows every pair of guests. |
| Seating.PartTwoNeedsLess | src/bin/13.rs:82-91 | After the one line "A would gain 1 happiness units by sitting next to B.", part one cannot seat the table but part two can. |
| Routes.WithDistance | src/bin/09.rs:33-38 | Adding a distance sets both (a, b) and (b, a) to it and changes no other pair. |
| Routes.WithDistanceSymmetric | src/bin/09.rs:33-38 | Adding a distance keeps a symmetric table symmetric. |
| Routes.ParseRoute | src/bin/09.rs:20-26 | A parsed distance is a u32. |
| Routes.ParseRoutes | src/bin/09.rs:19-28 | Every line is parsed, in order. |
| Routes.TableOfPrefix | src/bin/09.rs:19-28 | The lines are added in order: each line adds its distance to the table built from the lines before it. |
| Routes.TableOfSymmetric | src/bin/09.rs:33-38 | The built table is symmetric. |
| Routes.LastRouteWins | src/bin/09.rs:19-28 | A pair of places gets the distance of the last line that joins them, in both directions. |
| Routes.OriginsAreNamedPlaces | src/bin/09.rs:40-46 | The destinations are exactly the places named on some line, as source or destination. |
| Routes.RouteLength | src/bin/09.rs:51-59 | No single hop of a route is longer than the whole route. |
| Routes.RouteLengthSnoc | src/bin/09.rs:51-59 | Extending a route by one place adds the distance of the last hop. |
| Routes.Reverse | src/bin/09.rs:51-59 | Reversing lists the places from last to first. |
| Routes.RouteLengthReversed | src/bin/09.rs:33-38 | In a symmetric table a reversed route has the same length. |
| Routes.ArrangementLinked | src/bin/09.rs:54-56 | When every two places are joined, every ordering of the places is a route whose hops all have a distance. |
| Routes.PermutationDistances | src/bin/09.rs:48-60 | There is one length per ordering of the places, and each is that route's length. |
| Routes.PermutationDistancesCover | src/bin/09.rs:48-60 | Every ordering of all the places has its length among the listed lengths. |
| Routes.Destinations.New | src/bin/09.rs:11-15 | The table starts empty. |
| Routes.Destinations.AddDistance | src/bin/09.rs:33-38 | The table becomes the old one with the distance added in both directions. |
| Routes.Destinations.FromInput | src/bin/09.rs:17-31 | The table is built from the parsed lines, in order. |
| Routes.Destinations.AllDestinations | src/bin/09.rs:40-46 | The destinations are exactly the first places of the table's pairs. On a table filled both ways, every second place is one too. |
| Routes.Destinations.SalesmanDistance | src/bin/09.rs:62-64 | The result is the length of some route through all places, and no such route is shorter. |
| Routes.Destinations.TerribleSalesmanDistance | src/bin/09.rs:66-68 | The result is the length of some route through all places, and no such route is longer. |
| Routes.ParseRouteRoundTrip | src/bin/09.rs:20-26 | A printed `a to b = d` line parses back to the same route. |
| Routes.PartOne | src/bin/09.rs:71-73 | When every two places named are joined, the answer is the shortest route through every place named in the input. |
| Routes.PartTwo | src/bin/09.rs:75-77 | When every two places named are joined, the answer is the longest route through every place named in the input. |
| Permutations.Without | src/bin/09.rs:51 | Removing one element leaves the rest, as a multiset. |
| Permutations.PrependAll | src/bin/09.rs:51 | Each listed sequence gets the element in front. |
| Permutations.AllPermutations | src/bin/13.rs:76-77 | Every listed sequence is a rearrangement of the input. |
| Permutations.PermutationsFrom | src/bin/13.rs:76-77 | Every sequence listed from a position on is a rearrangement of the input. |
| Permutations.PermutationsFromIncludes | src/bin/13.rs:76-77 | A rearrangement that starts with the element at position i, with the rest rearranged, is listed from every position j up to i. |
| Permutations.AllPermutationsComplete | src/bin/13.rs:76-77 | Every rearrangement of the input is listed. |
| Permutations.DistinctCounts | src/bin/09.rs:49-51 | A sequence without repeats holds each of its elements once. |
| Permutations.ListedAreArrangements | src/bin/09.rs:49-51 | A rearrangement of a repeat-free list is an ordering of its set. |
| Permutations.ArrangementsAreListed | src/bin/09.rs:49-51 | Every ordering of the set of a repeat-free list is listed. |
| Permutations.Enumerate | src/bin/09.rs:49-51 | A set is listed without repeats, with each element once. |
| Permutations.MaxOf | src/bin/13.rs:79 | The maximum is `None` exactly for an empty list. Otherwise it is an element and bounds every element. |
| Permutations.MinOf | src/bin/09.rs:63 | The minimum is `None` exactly for an empty list. Otherwise it is an element and is at most every element. |
| Delivery.FromChar | src/bin/03.rs:18-28 | A character moves Santa exactly when it is one of the four arrows. |
| Delivery.FromCharSize | src/bin/03.rs:18-28 | Each arrow is a unit move, and any other character is no move. |
| Delivery.Add | src/bin/03.rs:30-47 | A move added to a house is the componentwise sum, the same for `Add` and in place for `AddAssign`; the house lands as far from where it was as the move is long. |
| Delivery.AddLaws | src/bin/03.rs:30-47 | Adding moves is commutative and associative, and the origin is the zero move. |
| Delivery.Total | src/bin/03.rs:30-47 | The sum of a list of moves. |
| Delivery.TotalAppend | src/bin/03.rs:30-47 | The sum of two lists of moves joined is the sum of their sums. |
| Delivery.TotalSwap | src/bin/03.rs:30-47 | Swapping two neighbouring moves does not change the sum. |
| Delivery.DistanceTriangle | src/bin/03.rs:30-47 | Manhattan distance obeys the triangle inequality. |
| Delivery.Steps | src/bin/03.rs:52-53 | There is one move per character. |
| Delivery.Walk | src/bin/03.rs:54-57 | The walk has one position per move: the running componentwise sum. |
| Delivery.WalkCons | src/bin/03.rs:54-57 | A walk first moves by its first step, then walks on from there. |
| Delivery.WalkPrefixSums | src/bin/03.rs:54-57 | After move k the walker stands at the start plus the sum of the first k + 1 moves. |
| Delivery.WalkEnd | src/bin/03.rs:54-57 | The walk ends at the start plus the sum of all its moves. |
| Delivery.WalkStaysNear | src/bin/03.rs:54-57 | After k + 1 unit moves the walker is at most k + 1 away from the start. |
| Delivery.InputStaysNear | src/bin/03.rs:49-57 | After k + 1 characters Santa is at most k + 1 houses from the origin. |
| Delivery.WalkAppend | src/bin/03.rs:54-57 | Walking two move lists in turn continues from where the first ends. |
| Delivery.StrayCharacterStays | src/bin/03.rs:25 | A character that is not an arrow leaves Santa where he is. |
| Delivery.ElementsAppend | src/bin/03.rs:58-59 | The houses of two walks together are the union of the houses of each. |
| Delivery.ElementsBound | src/bin/03.rs:59-60 | A walk visits at most as many distinct houses as it has positions. |
| Delivery.VisitedBy | src/bin/03.rs:58 | The origin is always visited. |
| Delivery.VisitedBounds | src/bin/03.rs:49-62 | At least one house and at most one more than the number of moves are visited. |
| Delivery.AsU32 | src/bin/03.rs:60 | The `as u32` cast leaves counts below 2^32 unchanged. |
| Delivery.PartOne | src/bin/03.rs:49-62 | The answer is the number of distinct houses Santa visits, origin included. For inputs shorter than 2^32 - 1, it is between 1 and one more than the input length. |
| Delivery.IndexedSteps | src/bin/03.rs:67-68 | There is one (offset, move) pair per character. |
| Delivery.TurnWalk | src/bin/03.rs:69-79 | After each move the walk records both positions, Santa's and Robo-Santa's. |
| Delivery.Turns | src/bin/03.rs:72-76 | The moves taken on one parity of offset are a sub-list of all moves. |
| Delivery.SantaTurn | src/bin/03.rs:73 | At an even offset Santa moves and Robo-Santa stays. |
| Delivery.RoboTurn | src/bin/03.rs:74 | At an odd offset Robo-Santa moves and Santa stays. |
| Delivery.TurnWalkSplits | src/bin/03.rs:64-86 | A house is in the joint walk exactly when Santa reaches it on his turns or Robo-Santa on theirs. |
| Delivery.SantaSplits | src/bin/03.rs:73 | The split is kept across a turn of Santa's. |
| Delivery.RoboSplits | src/bin/03.rs:74 | The split is kept across a turn of Robo-Santa's. |
| Delivery.TurnVisited | src/bin/03.rs:81-83 | The origin is always counted in part two. |
| Delivery.TurnVisitedSplits | src/bin/03.rs:64-86 | Part two's houses are the union of Santa's and Robo-Santa's separate walks. |
| Delivery.PartTwo | src/bin/03.rs:64-86 | The answer is the number of houses in the union of the walk over even-offset moves and the walk over odd-offset moves. |
| Delivery.EveryOther | src/bin/03.rs:72-76 | The elements at even positions, in order. |
| Delivery.Tail | src/bin/03.rs:72-76 | All elements but the first, in order. |
| Delivery.Unindexed | src/bin/03.rs:68 | The moves, without their offsets. |
| Delivery.ConsecutiveTurns | src/bin/03.rs:67-76 | With consecutive offsets, one walker gets every other move and the other gets the rest. |
| Delivery.StepsEveryOther | src/bin/03.rs:68 | Taking every other character, then its move, gives every other move. |
| Delivery.AsciiPartTwo | src/bin/03.rs:64-86 | On ASCII input, Santa follows the characters at even positions and Robo-Santa those at odd positions. |
| Delivery.OneMove | src/bin/03.rs:49-62 | One move visits the origin and the square it moves to. |
| Delivery.ThereAndBack | src/bin/03.rs:49-62 | A move and its opposite visit just two houses. |
| Delivery.UpAndDown | src/bin/03.rs:49-62 | Alternating up and down only ever visits the start and the house above it. |
| Delivery.Column | src/bin/03.rs:64-86 | The houses straight above the origin between two heights. |
| Delivery.ColumnSize | src/bin/03.rs:64-86 | A column between two heights holds one house per height. |
| Delivery.ColumnJoin | src/bin/03.rs:64-86 | Two columns that meet form one column. |
| Delivery.Straight | src/bin/03.rs:54-57 | Repeating one move walks along a straight line. |
| Delivery.NorthColumn | src/bin/03.rs:64-86 | n moves north visit the column from 0 to n. |
| Delivery.SouthColumn | src/bin/03.rs:64-86 | n moves south visit the column from -n to 0. |
| Delivery.FiveEachWay | src/bin/03.rs:106 | Five moves up and five moves down, walked separately, cover the column from -5 to 5. |
| Delivery.PartTwoFrom | src/bin/03.rs:64-86 | Part two's answer follows from the houses of the two separate walks. |
| Delivery.PartOneEast | src/bin/03.rs:94 | `>` visits 2 houses. |
| Delivery.PartOneSquare | src/bin/03.rs:95 | `^>v<` visits 4 houses. |
| Delivery.PartOneUpDown | src/bin/03.rs:96 | `^v^v^v^v^v` visits 2 houses. |
| Delivery.PartTwoEast | src/bin/03.rs:103 | With Robo-Santa, `>` visits 2 houses. |
| Delivery.PartTwoUpDown | src/bin/03.rs:104 | With Robo-Santa, `^v` visits 3 houses. |
| Delivery.PartTwoSquare | src/bin/03.rs:105 | With Robo-Santa, `^>v<` visits 3 houses. |
| Delivery.PartTwoUpDownFive | src/bin/03.rs:106 | With Robo-Santa, `^v^v^v^v^v` visits 11 houses. |
| Wrapping.Sort3 | src/bin/02.rs:26-27 | Sorting three dimensions gives them in ascending order, as the same multiset. |
| Wrapping.SortedUnique | src/bin/02.rs:26-27 | Two ascending triples with the same elements are equal. |
| Wrapping.SortedOfSameBox | src/bin/02.rs:26-27 | Boxes whose dimensions are the same up to order sort to the same triple. |
| Wrapping.SortedProducts | src/bin/02.rs:21-32 | The two smallest dimensions give the smallest side. The sorted triple has the same volume and sum as the box, and its last element is the largest dimension. |
| Wrapping.RequiredWrapping | src/bin/02.rs:20-23 | The paper is the surface area plus the area of the smallest side, which is the product of the two smallest dimensions. |
| Wrapping.RequiredRibbon | src/bin/02.rs:25-33 | The ribbon is the smallest perimeter, twice the sum of all dimensions but the largest, plus the volume. |
| Wrapping.OrderDoesNotMatter | src/bin/02.rs:20-33 | Neither answer depends on the order in which the dimensions are given. |
| Wrapping.SortedPairSums | src/bin/02.rs:21 | The sum of the three side areas is the same for the sorted dimensions. |
| Wrapping.FromInput | src/bin/02.rs:11-18 | The parsed dimensions are u32s. |
| Wrapping.FromInputRoundTrip | src/bin/02.rs:11-18 | `AxBxC` reads back as w = A, h = B, l = C. |
| Wrapping.Boxes | src/bin/02.rs:39-40 | Every whitespace-separated token is read as a box, in order. |
| Wrapping.Each | src/bin/02.rs:40 | Each box is mapped to its paper or ribbon. |
| Wrapping.PartOne | src/bin/02.rs:36-43 | The answer is at least the paper of each box, and 0 for an input with no boxes. |
| Wrapping.PartTwo | src/bin/02.rs:45-52 | The answer is at least the ribbon of each box, and 0 for an input with no boxes. |
| Wrapping.TotalsPair | src/bin/02.rs:41 | The total for two boxes is the sum of their values. |
| Wrapping.BoxesPair | src/bin/02.rs:39-40 | Two parsable tokens read as their two boxes. |
| Wrapping.TwoBoxes | src/bin/02.rs:36-52 | For input `a b`, part one is the sum of both boxes' paper and part two the sum of both boxes' ribbon. |
| Wrapping.FromInputFirstExample | src/bin/02.rs:60 | `2x3x4` reads as w = 2, h = 3, l = 4. |
| Wrapping.FromInputSecondExample | src/bin/02.rs:61 | `1x1x10` reads as w = 1, h = 1, l = 10. |
| Wrapping.BoxExamples | src/bin/02.rs:66-77 | `2x3x4` needs 58 of paper and 34 of ribbon. `1x1x10` needs 43 and 14. |
| Json.Parsed | src/bin/12.rs:9-12 | Keeping the pieces that parse as i32 keeps at most all of them. |
| Json.PartOne | src/bin/12.rs:5-15 | An answer is always returned, and on the text of any document whose strings hold no separator and whose numbers fit an i32, it is the sum of every number in the document. |
| Json.TextSumOfShow | src/bin/12.rs:5-15 | The text sum of the printed text of such a document is the sum of its numbers. |
| Json.PartTwo | src/bin/12.rs:36-38 | A score is always returned. The score itself is `Score`, whose meaning the lemmas below state. |
| Json.ParsedAppend | src/bin/12.rs:9-12 | The numbers of two lists of pieces are those of each, in order. |
| Json.SplitAtSeparator | src/bin/12.rs:8 | Splitting at a separator splits each side separately. |
| Json.TextSumSplit | src/bin/12.rs:5-15 | The text sum across a separator is the sum of both sides. |
| Json.OnePiece | src/bin/12.rs:8 | A text without separators is a single piece. |
| Json.NonNumericPiece | src/bin/12.rs:9-11 | A piece that starts with neither a digit nor a sign adds nothing. |
| Json.EmptyText | src/bin/12.rs:5-15 | An empty text sums to 0. |
| Json.NumberPiece | src/bin/12.rs:9-10 | A printed i32 adds its value. |
| Json.QuotedPiece | src/bin/12.rs:9-11 | A quoted string adds nothing. |
| Json.ShowSums | src/bin/12.rs:5-15 | On printed JSON, part one's text sum is the sum of every number in the document. |
| Json.Bracketed | src/bin/12.rs:8 | Brackets around a text add nothing. |
| Json.ShowItemsSums | src/bin/12.rs:5-15 | On printed array items, the text sum is the sum of their numbers. |
| Json.ShowMemberSums | src/bin/12.rs:5-15 | On a printed member, the text sum is the sum of the value's numbers. |
| Json.ShowMembersSums | src/bin/12.rs:5-15 | On printed object members, the text sum is the sum of their numbers. |
| Json.PartOneOfShow | src/bin/12.rs:5-15 | Part one on printed JSON is the sum of every number in the document. |
| Json.Score | src/bin/12.rs:17-34 | With no `"red"` value in any object, the score is the sum of all numbers. |
| Json.ScoreItems | src/bin/12.rs:27 | With no `"red"` object value, an array's items score the sum of their numbers. |
| Json.ScoreMembers | src/bin/12.rs:23 | With no `"red"` object value, an object's members score the sum of their numbers. |
| Json.ScoreBounded | src/bin/12.rs:17-34 | With no negative numbers, the score lies between 0 and the sum of all numbers. Skipping red objects only removes numbers. |
| Json.ScoreBoundedItems | src/bin/12.rs:27 | The same bound for the items of an array. |
| Json.ScoreBoundedMembers | src/bin/12.rs:23 | The same bound for the members of an object. |
| Json.ScoreItemsAppend | src/bin/12.rs:27 | An array's score is additive over its items. |
| Json.RedInArray | src/bin/12.rs:27 | A `"red"` string inside an array has no effect on the array's score. |
| Json.PartsAgree | src/bin/12.rs:5-38 | On printed JSON with no red objects, the two parts give the same answer. |
| Json.ScoreExamples | src/bin/12.rs:60-67 | `[1,2,3]` scores 6, `{"a":2,"b":4}` 6, `[[[3]]]` 3, `{"a":{"b":4},"c":-1}` 3, `{"a":[-1,1]}` 0, `[-1,{"a":1}]` 0, and `[]` and `{}` score 0. |
| Json.FlatExamples | src/bin/12.rs:60-67 | The scores of the examples without nesting. |
| Json.NestedExamples | src/bin/12.rs:62-65 | The scores of the nested examples. |
| Json.RedExamples | src/bin/12.rs:68-70 | `[1,{"c":"red","b":2},3]` scores 4, `{"d":"red","e":[1,2,3,4],"f":5}` scores 0, and `[1,"red",5]` scores 6. |
| Json.PartOneExample | src/bin/12.rs:46 | Part one of `[1,2,3]` is 6. |
| Nice.FindWindow | src/bin/05.rs:7-10 | `windows(w).find(p)`: the first window from a position on that satisfies the test, or `None` when no window does. |
| Nice.VowelCount | src/bin/05.rs:6 | The number of characters among `a`, `e`, `i`, `o`, `u`, counting repeats. |
| Nice.PairWindows | src/bin/05.rs:7-12 | The window searches find a doubled letter, or a forbidden pair, exactly when the word has one. |
| Nice.IsNiceP1 | src/bin/05.rs:3-13 | Nice under the first rules exactly when there are at least three vowels, some two equal neighbours, and none of `ab`, `cd`, `pq`, `xy`. |
| Nice.FindRepeat | src/bin/05.rs:18-22 | The first start below length - 3 whose pair recurs, not overlapping, later in the word, or `None`. |
| Nice.RepeatSearch | src/bin/05.rs:18-22 | A pair at i recurs later exactly when some j ≥ i + 2 holds the same two letters. |
| Nice.RepeatAndSandwichWindows | src/bin/05.rs:17-25 | The two searches find a repeated pair, or a letter repeated one apart, exactly when the word has one. |
| Nice.IsNiceP2 | src/bin/05.rs:15-26 | On words of at least three letters, nice under the second rules exactly when some pair recurs without overlapping and some letter repeats with one letter between; shorter words underflow `chars.len() - 3` in the source. |
| Nice.CountNice | src/bin/05.rs:28-44 | At most all words are nice. The count is 0 exactly when no word is nice, and the number of words exactly when every word is. |
| Nice.WrapCount | src/bin/05.rs:34 | The count taken as a u32 is no larger, and is the count itself while the number of words fits a u32. |
| Nice.PartOne | src/bin/05.rs:28-35 | The answer is at most the number of words. While that fits a u32, it is 0 exactly when no word is nice under the first rules. |
| Nice.PartTwo | src/bin/05.rs:37-44 | For input whose words all have at least three letters, the answer is at most the number of words. While that fits a u32, it is 0 exactly when no word is nice under the second rules. |
| Nice.NoVowels | src/bin/05.rs:6 | A word without vowels has none to count. |
| Nice.SingleVowel | src/bin/05.rs:6 | A word with a vowel at one position at most has at most one vowel. |
| Nice.VowelCountAppend | src/bin/05.rs:6 | Vowel counts add up over concatenation. |
| Nice.FewVowelsIsNaughty | src/bin/05.rs:12 | Fewer than three vowels make a word naughty. |
| Nice.VowelsPresent | src/bin/05.rs:6 | A word with `u`, `i` and `o` has at least three vowels. |
| Nice.NiceP1By | src/bin/05.rs:3-13 | A word with `u`, `i`, `o`, a double letter and no banned pair is nice. |
| Nice.NoDoubleIsNaughty | src/bin/05.rs:7 | A word without equal neighbours is naughty. |
| Nice.BannedIsNaughty | src/bin/05.rs:8-10 | A word with a banned pair is naughty. |
| Nice.OneVowelIsNaughty | src/bin/05.rs:6 | A word with at most one vowel is naughty. |
| Nice.NiceP2By | src/bin/05.rs:15-26 | A recurring pair and a letter sandwich make a word nice. |
| Nice.NoSandwichIsNaughty | src/bin/05.rs:23 | A word without a letter sandwich is naughty. |
| Nice.NoRepeatIsNaughty | src/bin/05.rs:18-22 | A word without a recurring pair is naughty. |
| Nice.NiceP1Example | src/bin/05.rs:52 | `ugknbfddgicrmopn` is nice under the first rules. |
| Nice.NiceP1Triple | src/bin/05.rs:53 | `aaa` is nice under the first rules. |
| Nice.NaughtyP1NoDouble | src/bin/05.rs:54 | `jchzalrnumimnmhp` is naughty: no double letter. |
| Nice.NaughtyP1Banned | src/bin/05.rs:55 | `haegwjzuvuyypxyu` is naughty: it contains `xy`. |
| Nice.NaughtyP1OneVowel | src/bin/05.rs:56 | `dvszwmarrgswjxmb` is naughty: one vowel. |
| Nice.NiceP2Example | src/bin/05.rs:63 | `qjhvhtzxzqqjkmpb` is nice under the second rules. |
| Nice.NaughtyP2Triple | src/bin/05.rs:64 | `aaa` is naughty under the second rules: its pairs overlap. |
| Nice.NiceP2Short | src/bin/05.rs:65 | `xxyxx` is nice under the second rules. |
| Nice.NaughtyP2NoSandwich | src/bin/05.rs:66 | `uurcxstgmygtbstg` is naughty: no letter sandwich. |
| Nice.NaughtyP2NoRepeat | src/bin/05.rs:67 | `ieodomkazucvgmuy` is naughty: no recurring pair. |
| LookAndSay.Repeat | src/bin/10.rs:17-33 | A run of count copies of a character has length count. |
| LookAndSay.AbsorbGrouped | src/bin/10.rs:20-33 | One step of the grouping fold keeps the groups well formed (counts at least 1, neighbours with different characters), adding at most one group. |
| LookAndSay.AbsorbSpells | src/bin/10.rs:20-33 | After one step the groups spell the old text plus the new character. |
| LookAndSay.Runs | src/bin/10.rs:17-33 | The grouping fold's groups are well formed and spell the input, with no more groups than characters and none for empty input. |
| LookAndSay.RunsAbsorb | src/bin/10.rs:20-33 | The groups of a longer text are the groups of the shorter one with the last character absorbed. |
| LookAndSay.RunsPrefix | src/bin/10.rs:20-33 | The fold's accumulator after i characters is the groups of the first i characters. |
| LookAndSay.ExpandLast | src/bin/10.rs:20-33 | The last group spells the end of the text. |
| LookAndSay.TrailingRepeat | src/bin/10.rs:20-33 | Appending n copies of a character adds n to its trailing count. |
| LookAndSay.LastRunIsTrailing | src/bin/10.rs:20-33 | The last group's count is the number of trailing copies of its character. |
| LookAndSay.LastRunsAgree | src/bin/10.rs:20-33 | Two well-formed groupings of one text have the same last group. |
| LookAndSay.RunsUnique | src/bin/10.rs:20-33 | A text has one well-formed grouping only. |
| LookAndSay.RunsOnly | src/bin/10.rs:20-33 | Any well-formed grouping of a text is the one the fold builds. |
| LookAndSay.Emit | src/bin/10.rs:35-40 | Each group writes at least its decimal count and its character. |
| LookAndSay.Say | src/bin/10.rs:16-44 | One step of empty text is empty, and only then, and writes at least two characters per group. |
| LookAndSay.UnsayEmit | src/bin/10.rs:35-40 | When every count is a single digit, reading the emitted text back as count-character pairs gives the grouped text. |
| LookAndSay.SayRoundTrip | src/bin/10.rs:16-44 | When every run is shorter than ten, the step can be undone. |
| LookAndSay.Iterate | src/bin/10.rs:47-53 | Repeated steps reach empty text exactly when they start from it. |
| LookAndSay.ExpandAscii | src/bin/10.rs:20-33 | Every group of ASCII text has an ASCII character. |
| LookAndSay.EmitAscii | src/bin/10.rs:35-40 | Groups with ASCII characters write ASCII text. |
| LookAndSay.SayAscii | src/bin/10.rs:16-44 | A step keeps ASCII text ASCII. |
| LookAndSay.IterateAscii | src/bin/10.rs:47-53 | Every number of steps keeps ASCII text ASCII. |
| LookAndSay.LookAndSay.constructor | src/bin/10.rs:8-10 | The generator starts at the given text. |
| LookAndSay.LookAndSay.Push | src/bin/10.rs:21-31 | The fold's closure: pop the last group, then push it back extended, or push it back and a new group. |
| LookAndSay.LookAndSay.Group | src/bin/10.rs:17-33 | The grouping fold returns exactly the runs of the text. |
| LookAndSay.LookAndSay.Next | src/bin/10.rs:16-44 | The result is the look-and-say step of the old text, and it is kept as the new text. |
| LookAndSay.LookAndSay.Nth | src/bin/10.rs:47-48 | `nth(k)` takes k + 1 steps and returns the last one. |
| Text.Utf8Length | src/bin/10.rs:48 | `len` counts UTF-8 bytes: at least one and at most four per character. |
| Text.AsciiLength | src/bin/10.rs:48 | On ASCII text the byte length is the number of characters. |
| LookAndSay.PartOne | src/bin/10.rs:47-49 | The answer is the length in UTF-8 bytes after forty steps, and the number of characters on ASCII input. |
| LookAndSay.PartTwo | src/bin/10.rs:51-53 | The answer is the length in UTF-8 bytes after fifty steps, and the number of characters on ASCII input. |
| LookAndSay.SayBy | src/bin/10.rs:16-44 | The step can be computed from any well-formed grouping of the text. |
| LookAndSay.ExpandSnoc | src/bin/10.rs:20-33 | Adding a group spells its copies at the end. |
| LookAndSay.EmitSnoc | src/bin/10.rs:35-40 | Adding a group writes its decimal count and character at the end. |
| LookAndSay.SayOne | src/bin/10.rs:63 | `1` becomes `11`. |
| LookAndSay.SayOneOne | src/bin/10.rs:64 | `11` becomes `21`. |
| LookAndSay.SayTwoOne | src/bin/10.rs:65 | `21` becomes `1211`. |
| LookAndSay.SayOneTwoOneOne | src/bin/10.rs:66 | `1211` becomes `111221`. |
| LookAndSay.SayThreeOnes | src/bin/10.rs:67 | `111221` becomes `312211`. |
| LookAndSay.FromOne | src/bin/10.rs:61-68 | Five steps from `1` give 11, 21, 1211, 111221, 312211. |
| LookAndSay.FromEmpty | src/bin/10.rs:20 | Steps from empty text stay empty. |
| Escapes.Step | src/bin/08.rs:12-24 | One window never lowers the running sum. |
| Escapes.FoldWindows | src/bin/08.rs:11-24 | The fold over the windows never lowers the sum. |
| Escapes.LineOverhead | src/bin/08.rs:7-25 | Each line's part-one value is at least its starting 2. |
| Escapes.FoldWithoutBackslash | src/bin/08.rs:21 | Windows without a backslash add nothing. |
| Escapes.NoBackslashLine | src/bin/08.rs:12-25 | A line without a backslash contributes exactly 2. |
| Escapes.SkipWindows | src/bin/08.rs:13-14 | A pending skip of k drops the next k windows. |
| Escapes.Unescape | src/bin/08.rs:17-20 | What a literal body stands for is no longer than the body. |
| Escapes.FoldOverBody | src/bin/08.rs:12-24 | On a quoted well-formed body, the fold counts the body's length less the length of what it stands for. |
| Escapes.LiteralOverhead | src/bin/08.rs:7-25 | A line's part-one value is the characters of code less the characters in memory. |
| Escapes.EscapeBody | src/bin/08.rs:36-41 | Escaping never shortens a string. |
| Escapes.UnescapeEscape | src/bin/08.rs:36-41 | Escaping a string and unescaping it gives the string back. |
| Escapes.QuoteFold | src/bin/08.rs:36-41 | The fold never lowers its sum. |
| Escapes.QuotedOverhead | src/bin/08.rs:35-42 | Each line's part-two value is at least its starting 2. |
| Escapes.QuoteFoldEscapes | src/bin/08.rs:36-41 | The fold counts the characters that escaping adds. |
| Escapes.QuoteFoldCounts | src/bin/08.rs:36-41 | The fold adds one for every `"` and every `\`. |
| Escapes.QuotedOverheadMeaning | src/bin/08.rs:35-42 | A line's part-two value is 2 plus its `"` and `\` characters, which is the length of the encoded line less the line. |
| Escapes.OverheadOfEncoding | src/bin/08.rs:3-45 | Part one's value of an encoded line is part two's value of the line. |
| Escapes.Each | src/bin/08.rs:6-7 | Each line is mapped to its value. |
| Escapes.PartOne | src/bin/08.rs:3-29 | The total is at least 2 per line. |
| Escapes.PartTwo | src/bin/08.rs:31-45 | The total is at least 2 per line. |
| Escapes.SumAtLeastTwo | src/bin/08.rs:27 | Values of at least 2 sum to at least twice their number. |
| Escapes.PartOneOfLines | src/bin/08.rs:3-45 | On text made of lines, each part is the sum of its per-line values over those lines. |
| Escapes.PlainLines | src/bin/08.rs:12-27 | Lines without backslashes total 2 each. |
| Escapes.EmptyLiteral | src/bin/08.rs:3-45 | `""` has part-one value 2 and part-two value 4. |
| Escapes.EscapedQuoteLiteral | src/bin/08.rs:17-19 | `"aaa\"aaa"` has part-one value 3. |
| Escapes.HexLiteral | src/bin/08.rs:18 | `"\x27"` has part-one value 5. |
| Floors.BracketValue | src/bin/01.rs:3-9 | `(` is +1, `)` is -1, and any other character is 0. |
| Floors.CountOccurrences | src/bin/01.rs:11-13 | The count of a character is its number of occurrences. |
| Floors.Floor | src/bin/01.rs:11-13 | The floor is the number of `(` less the number of `)`. |
| Floors.PartOne | src/bin/01.rs:11-13 | The answer is the number of `(` less the number of `)`. |
| Floors.FloorStep | src/bin/01.rs:19-22 | Each character moves the floor by -1, 0 or +1. |
| Floors.FirstBelow | src/bin/01.rs:19-23 | The search finds the first prefix below ground after a position, or `None` when none is. |
| Floors.Basement | src/bin/01.rs:16-23 | The first position whose prefix is below ground, or `None` exactly when no prefix is. |
| Floors.BasementIsMinusOne | src/bin/01.rs:3-9 | The first prefix below ground ends on floor -1. |
| Floors.PartTwo | src/bin/01.rs:15-24 | The answer is `None` exactly when no prefix goes below ground. |
| Floors.AsciiPartTwo | src/bin/01.rs:15-24 | On ASCII input the answer is `Some(n)` exactly when the length-n prefix is below ground and no shorter prefix is; that prefix ends on floor -1. |
| Floors.PartOneBalanced | src/bin/01.rs:32 | `(())` ends on floor 0. |
| Floors.PartOneUp | src/bin/01.rs:36 | `))(((((` ends on floor 3. |
| Floors.PartOneDown | src/bin/01.rs:40 | `)())())` ends on floor -3. |
| Floors.PartTwoDown | src/bin/01.rs:47 | `)` reaches the basement at position 1. |
| Floors.PartTwoFifth | src/bin/01.rs:48 | `()())` reaches the basement at position 5. |
| Floors.PartTwoNever | src/bin/01.rs:49-50 | `()()` and `(((` never reach the basement. |

## Left out

- src/bin/04.rs is not part of this model. It loops around the MD5 hash of an external crate, which cannot be modelled.
- Reading the puzzle input and the example files is file I/O and is not modelled. So the tests whose expected answers come from example files are not stated: 605 and 982 for src/bin/09.rs, 330 for src/bin/13.rs, 12 and 19 for src/bin/08.rs.
- An `unwrap`, a map index or a `usize` underflow panics in the source on some inputs. The model instead requires inputs on which they do not panic, so panics are preconditions, not error paths. These are:
  - the line parsers of 02, 06, 07, 09 and 13;
  - the `a` lookup of 07's part two;
  - the digit conversion of 11;
  - the `chars.len() - 3` of 05's second rules, which underflows on a word shorter than three letters (`requires |s| >= 3` on `Nice.IsNiceP2`, `LongWords` on `Nice.PartTwo`);
  - the neighbour lookups `neighbor_happiness[..]` of 13 (`CoversNeighbours` on `Seating.PartOne` and `Seating.PartTwo`);
  - the distance lookups `get(..).unwrap()` of 09 (`Connected` on `Routes.PartOne` and `Routes.PartTwo`).
- The recursion of src/bin/07.rs has no cycle detection: a cyclic board recurses without end. The model evaluates only boards with a rank map that orders every wire above the wires its gate reads.
- A shift by 16 or more overflows and panics in debug builds. `WellFormed` asks every gate on the board to shift by less than 16, and asks a rank for every wire, even for gates the requested wire never reads. The source only panics on a shift it evaluates, and only loops on a cycle it follows. So a board with a large shift or a cycle in a part that is never read is outside the model, though the source answers on it. The parser still accepts any usize amount.
- Only values below 2^16 parse as literal signals, as in the source. A longer number is taken as a wire name, and the model follows the code there.
- Fixed-width overflow of totals is not modelled: u32 sums in 02, 06 part two, 08 and 09, the i32 floor sum in 01, the i32 coordinates of 03 (reaching the bound takes an input of more than 2^31 characters), and the i32 total in 13. Where a count goes through `as u32`, the model makes the cast explicit (`AsU32` in 03, `% 2^32` in 05). The 16-bit arithmetic of 07 is exact, on `bv16`.
- Json.PartTwo: the JSON text is not parsed. Part two takes the parsed document as a tree with integer numbers, so serde's parser, floating-point numbers and the `n as i32` truncation are left out. Its own contract only says that a score is returned; what the score is, is stated by the contract of `Score`, by `ScoreBounded`, `RedInArray`, `PartsAgree` and the example lemmas.
- Json.PartOne: the pieces are parsed as i32 with an optional sign, the same as Rust's `parse::<i32>`. The sum is a mathematical integer, with no i32 overflow. Its contract states the answer for the text of documents whose strings hold no separator and whose numbers fit an i32; on other text, `TextSum` and the piece lemmas say what it computes.
- Wrapping.PartOne and Wrapping.PartTwo only bound the totals in their own contracts. `TwoBoxes` states their value on a two-box input, and the contracts of `RequiredWrapping` and `RequiredRibbon` state the formulas.
- Escapes.PartOne and Escapes.PartTwo only bound the totals in their own contracts. `PartOneOfLines` states that they are the sums of the per-line values, and the per-line lemmas say what those values mean.
- Nice.PartOne and Nice.PartTwo count, modulo 2^32, the words nice under `IsNiceP1` and `IsNiceP2`. Their contracts bound the count and say when it is zero, but do not give its exact value.
- The order in which `itertools::permutations` lists the orderings, and the iteration order of `HashMap` and `HashSet`, are not modelled. They do not change the answers. `AllPermutations` lists every ordering of a sequence in its own order, and `Enumerate` lists a set in an order it chooses.
- Unicode: in src/bin/01.rs and src/bin/03.rs, `char_indices` gives byte offsets, and in src/bin/10.rs `len` counts UTF-8 bytes. The model computes the UTF-8 width of each character, and states the exact answers for ASCII input. `split_whitespace` splits on, and `trim` strips, the characters with the Unicode White_Space property, as `char::is_whitespace` does. Case folding and normalisation play no part in the source.
- Lights: the grid is 1000×1000, as in the source. An instruction whose corners lie outside the grid panics in the source and is excluded by precondition. The whole input is parsed before the instructions are applied, while the source parses each line just before applying it. This changes nothing, since neither step can fail once the preconditions hold.
- Password.PasswordGenerator.Next: the test expectations `abcdefgh` to `abcdffaa` and `ghijklmn` to `ghjaabcc` are not proved. They need hundreds of thousands of increments. The contract states what `next` returns for every input: the first valid password after the start. The two expected results are proved valid.
- Password.PartOne: the input, with Unicode white space trimmed from both ends, must be eight lower-case letters. Any other length fails `try_into`, and any other letter panics when looked up in the alphabet.
