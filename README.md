# Advent of Code 2023 puzzles, modelled in Dafny

This project models the puzzle-solving core of a Rust Advent of Code 2023
repository and proves properties of that model:

- **Trebuchet calibration (day 1).** Three versions of `find_digits` and
  `calc_calibration_value` exist. `puzzle-1/main.rs` keeps the ASCII digits.
  `day1/src/bin/part1.rs` keeps every numeric character. `src/puzzle1/mod.rs`
  also reads spelled-out digit words through an overlapping lookahead regex.
  Each version takes the first and last digit and parses them as a `u8`.
  Modules `Calibration`, `AsciiDigits`, `NumericDigits`, `SpelledDigits` and
  `SpelledExamples`.
- **Cube game (day 2).** `day2/src/bin/game.rs` parses "Game N: ..." lines
  into a `Game` object made of turns. It decides whether a game is possible
  in a given world, and computes the smallest world in which it is. Module
  `CubeGame`, class `CubeGame.Game`.
- **Scratchcards (day 4).** `day4/src/bin/scratchcards.rs` parses a card's
  id, its winning numbers and its own numbers. It counts the matches and
  scores the card. `day4/src/bin/part2.rs` cascades won copies through an
  array of counts. Modules `Scratchcards` (class `Scratchcards.ScratchCard`)
  and `ScratchcardCopies`.
- **Camel Cards (day 7).** There are three engines:
  - the card/hand engine of `day7/src/bin/camelcards.rs`, in module `CamelCards`;
  - its earlier version in `src/puzzle7/camelcards.rs`, in module `RankCards`;
  - the value-map library of `day7/src/camelcards.rs`, in module `ValueGame`.

  Two drivers use them: the standard rules of `day7/src/bin/part1.rs`
  (module `StandardWinnings`) and the joker rules of `day7/src/bin/part2.rs`
  (module `JokerWinnings`). Module `Ranking` holds what they share: Rust's
  `Ordering`, the hand types, a stable sort, enumerations of hash-map keys
  and the winnings fold.
- **Haunted wasteland (day 8).** `day8/src/bin/part1.rs` splits the input
  into instructions and rules, and builds the adjacency map. It then walks
  from `AAA` to `ZZZ`. Module `Network`.

The shared modules are as follows:

- `Outcomes` holds `Option` and `Result`. A Rust panic is the value
  `Panic(reason)`, with the panic message as its reason.
- `Text` holds the pieces of `str` the puzzles read input with: `lines`,
  `split`, `split_whitespace`, and `parse` into an unsigned type.

Rust's fixed-width integers appear as the subset types `U8`, `U32` and `I32`.
Every overflow the source can hit is written out as a panic, except those
listed under "## Left out".

A Rust `HashMap` or `HashSet` yields its keys in an order that the program
cannot predict. Where that order matters, the model takes it as a parameter
`order` that lists each key exactly once (`Ranking.Enumerates`). The lemmas
then say which results do not depend on it.

Code that mutates state is modelled imperatively:

- the `Game` and `ScratchCard` objects are Dafny classes;
- the in-place `reverse` of part one works on an array;
- the counts vector of the scratchcard cascade is an array.

Each method is proved against a specification function. The lemmas state
what the program promises about that function.

## Model

| member | source | states |
|---|---|---|
| Outcomes.CollectMapPanics | day7/src/bin/part1.rs:40-51 | collecting `filter_map` entries into a map panics exactly when some kept entry is a panic |
| Outcomes.CollectMapLastWins | day7/src/bin/part1.rs:40-51 | otherwise the keys of the map are exactly the kept keys, and each holds the value of the last entry that kept it |
| Text.Lines | day4/src/bin/part2.rs:6 | no line of `lines()` holds a line break |
| Text.LinesTerminated | day4/src/bin/part2.rs:6 | lines that each end in `\n` (and not in `\r`) are read back by `lines()` one for one |
| Text.StripCarriageReturn | day4/src/bin/part2.rs:6 | a line loses at most one trailing `\r` |
| Text.LinesUnterminated | day4/src/bin/part2.rs:6 | a text without a line break is one line, a trailing `\r` included |
| Text.CarriageReturnLines | day4/src/bin/part2.rs:6 | `\r\n` ends a line, while a bare `\r` at the end of the text stays on the last line |
| Text.IndexOf | day8/src/bin/part1.rs:9 | the first position of a character, or the length when it is absent |
| Text.IndexOfFirst | day8/src/bin/part1.rs:9 | a position holding the character with none before it is the first position |
| Text.IndexOfJoined | day2/src/bin/game.rs:72 | in `p + sep + rest` with no separator in `p` the first separator follows `p` |
| Text.Split | day2/src/bin/game.rs:72 | `split` gives at least one piece and no piece holds the separator |
| Text.SplitJoin | day2/src/bin/game.rs:72 | splitting pieces joined by a separator that none of them holds gives the pieces back |
| Text.WordsShape | day4/src/bin/scratchcards.rs:50-51 | every word of `split_whitespace` is a nonempty run without whitespace |
| Text.WordsOfWord | day4/src/bin/scratchcards.rs:50-51 | non-whitespace text read after a partial word extends that word |
| Text.SplitJoinSpaced | day4/src/bin/scratchcards.rs:50-51 | splitting words joined by single spaces gives the words back |
| Text.DigitValue | day4/src/bin/scratchcards.rs:55 | an ASCII digit has a value below 10 |
| Text.ParseUnsigned | day4/src/bin/scratchcards.rs:55 | a successful `parse::<uN>` gives a value below the type's limit |
| Text.Decimal | day4/src/bin/scratchcards.rs:49 | the decimal form of a number is a nonempty string of ASCII digits |
| Text.DecimalValue | day4/src/bin/scratchcards.rs:49 | the digits of the decimal form of `n` have the value `n` |
| Text.ParseDecimal | day4/src/bin/scratchcards.rs:49 | parsing the decimal form of a number below the limit gives the number |
| Text.ParseTooLarge | day4/src/bin/scratchcards.rs:49 | parsing the decimal form of a number at or above the limit fails |
| Text.DigitRunEnd | day2/src/bin/game.rs:85 | the end of the `\d+` run from `p`: every character before it is a digit and the one at it is not |
| Text.RunEndsAt | day2/src/bin/game.rs:85 | a digit run that stops at a non-digit ends exactly there |
| Text.WhitespaceRunEnd | day4/src/bin/scratchcards.rs:46 | the end of the `\s+` run from `p`: all whitespace before it, none at it |
| Text.WhitespaceRunEndsAt | day4/src/bin/scratchcards.rs:46 | a whitespace run that stops at a non-whitespace character ends exactly there |
| Calibration.CalibrationText | src/puzzle1/mod.rs:68-74 | the text parsed as `u8` is two characters: the first digit and the last digit (the only digit twice) |
| Calibration.CalibrationValue | src/puzzle1/mod.rs:60-77 | the method computes `ValueOf`: 0 without digits, else the `u8` parse of first and last digit |
| Calibration.ParseTwoDigits | src/puzzle1/mod.rs:74 | two ASCII digits parse as a `u8` to ten times the first plus the second |
| Calibration.AsciiValue | puzzle-1/main.rs:35-52 | with ASCII digits the value is 0, 11·d for a single digit d, or 10·first + last, never above 99 and never a panic |
| Calibration.NonAsciiPanics | day1/src/bin/part1.rs:17-23 | a first or last digit that is numeric but not ASCII makes `parse::<u8>().unwrap()` panic |
| AsciiDigits.FindDigits | puzzle-1/main.rs:13-23 | the loop pushes exactly `Digits(line)`, the ASCII digits of the line in order |
| AsciiDigits.DigitsFromMembers | puzzle-1/main.rs:16-19 | a character is kept exactly when it occurs in the line and is an ASCII digit |
| AsciiDigits.DigitsFromConcat | puzzle-1/main.rs:16-19 | the digits of `a + b` read from inside `a` are those of `a` from there, then those of `b` |
| AsciiDigits.DigitsFromShift | puzzle-1/main.rs:16-19 | reading `a + b` past `a` is reading `b` |
| AsciiDigits.DigitsConcat | puzzle-1/main.rs:16-19 | the digits of `a + b` are the digits of `a` followed by those of `b` |
| AsciiDigits.DigitsOfChar | puzzle-1/main.rs:17-18 | one character contributes itself when it is an ASCII digit and nothing otherwise |
| AsciiDigits.CalcCalibrationValue | puzzle-1/main.rs:35-52 | the method returns `ValueOf` of the line's digits |
| AsciiDigits.LineValue | puzzle-1/main.rs:35-52 | for any line: 0 without digits, 11·d for one digit, 10·first + last otherwise; never a panic |
| AsciiDigits.Example16 | puzzle-1/main.rs:82 | "abc123def456" gives 16 |
| AsciiDigits.DigitsOf16 | puzzle-1/main.rs:75 | "abc123def456" keeps 1 to 6 |
| AsciiDigits.ExampleNoDigits | puzzle-1/main.rs:83 | "no digits here" gives 0 |
| AsciiDigits.ExampleShort | puzzle-1/main.rs:84-85 | "111" gives 11 and "2" gives 22 |
| NumericDigits.DigitsFromMembers | day1/src/bin/part1.rs:2-7 | a character is kept exactly when it occurs in the line and `is_numeric` |
| NumericDigits.CalcCalibrationValue | day1/src/bin/part1.rs:9-26 | the method returns `ValueOf` of the line's numeric characters |
| NumericDigits.DigitsFromShift | day1/src/bin/part1.rs:2-7 | reading `a + b` past `a` is reading `b` |
| NumericDigits.DigitsFromConcat | day1/src/bin/part1.rs:2-7 | the numeric characters of `a + b` from inside `a` are those of `a`, then those of `b` |
| NumericDigits.DigitsConcat | day1/src/bin/part1.rs:2-7 | `find_digits` distributes over concatenation |
| NumericDigits.DigitsOfChar | day1/src/bin/part1.rs:4 | one character contributes itself exactly when it is numeric |
| NumericDigits.ReversedLettersIgnored | day1/src/bin/part1.rs:2-7 | the reversed Roman letters U+2183 and U+2184 are not numeric, so a line "1" with one of them next to it is worth 11 |
| NumericDigits.AgreesWithAscii | day1/src/bin/part1.rs:2-7 | when every numeric character is an ASCII digit the filter keeps what the ASCII loop of puzzle-1 keeps |
| NumericDigits.NonAsciiPanics | day1/src/bin/part1.rs:17-23 | a first or last kept character that is not an ASCII digit makes the `u8` parse panic |
| NumericDigits.FractionPanics | day1/src/bin/part1.rs:17-23 | "7½" keeps both characters and its calibration panics |
| NumericDigits.AsciiLine | day1/src/bin/part1.rs:2-7 | on an ASCII line the numeric characters are exactly the ASCII digits |
| NumericDigits.ExampleSpelledIgnored | day1/src/bin/part1.rs:57 | "fourfive6seven" keeps only "6" |
| NumericDigits.Example13 | day1/src/bin/part1.rs:67 | "abc1pqsttwo33four" gives 13 |
| NumericDigits.Example24 | day1/src/bin/part1.rs:58-68 | "zoneight234" keeps 2, 3, 4 and gives 24 |
| SpelledDigits.FindDigits | src/puzzle1/mod.rs:37-49 | the loop over the lookahead matches returns `Digits(line)`, one digit per position where a match starts |
| SpelledDigits.CalcCalibrationValue | src/puzzle1/mod.rs:60-77 | the method returns `ValueOf` of the digits read |
| SpelledDigits.WordParses | src/puzzle1/mod.rs:7-26 | every word of the alternation is mapped by `parse_digit_text` to its digit |
| SpelledDigits.CaptureParses | src/puzzle1/mod.rs:39-44 | a lookahead match exists at a position exactly when a digit is read there, and its capture parses to that digit, so the `unwrap` never panics |
| SpelledDigits.ParseNumericExamples | src/puzzle1/mod.rs:103-104 | "1" and "1234" are returned unchanged |
| SpelledDigits.ParseWordExamples | src/puzzle1/mod.rs:105-107 | "one" gives "1", "two" gives "2", "notanumber" gives None |
| SpelledDigits.NotADigitText | src/puzzle1/mod.rs:107 | "notanumber" is neither numeric nor a digit word |
| SpelledDigits.ReversedLetterNotDigitText | src/puzzle1/mod.rs:7-25 | the letter U+2184 is neither all numeric nor a digit word, so `parse_digit_text` gives `None` |
| SpelledDigits.WordFromFound | src/puzzle1/mod.rs:39 | the alternation picks a word the line continues with, and finds one whenever some word is there |
| SpelledDigits.WordDigitIsAscii | src/puzzle1/mod.rs:10-19 | every word maps to an ASCII digit |
| SpelledDigits.DigitsFromDecimal | src/puzzle1/mod.rs:39 | every digit read is a decimal digit |
| SpelledDigits.AsciiLineValue | src/puzzle1/mod.rs:60-77 | on an ASCII line the calibration never panics and is at most 99 |
| SpelledDigits.AsciiLineDigits | src/puzzle1/mod.rs:39-45 | on an ASCII line every digit read is an ASCII digit |
| SpelledDigits.AgreesWithoutWords | src/puzzle1/mod.rs:39-45 | on an ASCII line with no spelled word the digits read are those of puzzle-1's loop |
| SpelledDigits.WordsByPrefix | src/puzzle1/mod.rs:39 | every word has three or more letters, and its first two letters tell it from the words of other digits |
| SpelledDigits.DigitAtNone | src/puzzle1/mod.rs:39 | no match starts at a character that is neither a digit nor the beginning of a word |
| SpelledDigits.MatchesChars | src/puzzle1/mod.rs:39 | the line continues with a word where their characters agree |
| SpelledDigits.DigitAtWord | src/puzzle1/mod.rs:39-44 | where a word is spelled out, its digit is read at its first letter |
| SpelledExamples.Zoneight | src/puzzle1/mod.rs:117-127 | "zoneight234" reads 1, 8, 2, 3, 4 (the overlapping "one" and "eight" both count) and gives 14 |
| SpelledExamples.Fourfive | src/puzzle1/mod.rs:116 | "fourfive6seven" reads 4, 5, 6, 7 |
| SpelledExamples.Pqst | src/puzzle1/mod.rs:126 | "abc1pqsttwo33four" gives 14 |
| SpelledExamples.Sixteen | src/puzzle1/mod.rs:112-122 | "abc123def456" reads its six digits and gives 16 |
| SpelledExamples.NoDigits | src/puzzle1/mod.rs:113-123 | "no digits here" reads nothing and gives 0 |
| SpelledExamples.ShortLines | src/puzzle1/mod.rs:114-125 | "111" gives 11 and "2" gives 22 |
| CubeGame.Sub | day2/src/bin/game.rs:27 | `i32` subtraction succeeds exactly when the difference fits and then is the difference; otherwise it panics with the overflow message |
| CubeGame.PossibleMeaning | day2/src/bin/game.rs:23-31 | `Ok(true)` means every turn fits in the world, `Ok(false)` that some turn does not, and a panic that a difference overflowed before any verdict |
| CubeGame.PossibleIff | day2/src/bin/game.rs:23-31 | with non-negative counts nothing overflows, and a game is possible exactly when every turn fits in the world |
| CubeGame.MinWorldLeast | day2/src/bin/game.rs:33-49 | the minimum world is non-negative, holds every turn, and lies within every non-negative world that holds every turn |
| CubeGame.MinWorldAttained | day2/src/bin/game.rs:33-49 | each count of the minimum world is 0 or the count of some turn |
| CubeGame.MinWorldPossible | day2/src/bin/game.rs:23-49 | a game with non-negative counts is possible in its minimum world |
| CubeGame.NegativeTurnOverflows | day2/src/bin/game.rs:27 | after a turn of `i32::MAX` red, a negative red count, which only direct construction gives, overflows `is_possible` in the minimum world |
| CubeGame.Game.constructor | day2/src/bin/game.rs:12-17 | a new game has the given id and no turns |
| CubeGame.Game.AddTurn | day2/src/bin/game.rs:19-21 | the turn is appended and the id is kept |
| CubeGame.Game.IsPossible | day2/src/bin/game.rs:23-31 | the loop with its early `false` computes `Possible(turns, world)` |
| CubeGame.Game.CalcMinWorld | day2/src/bin/game.rs:33-49 | the mutable tuple ends as `MinWorld(turns)` |
| CubeGame.MatchFrom | day2/src/bin/game.rs:85-92 | the regex finds the leftmost position from `p` where `(\d+)\s(red|green|blue)` matches, or reports that none exists |
| CubeGame.ParseBelowLimit | day2/src/bin/game.rs:93 | a count that parses fits in an `i32` |
| CubeGame.ParseTurn | day2/src/bin/game.rs:83-104 | the loop over the comma-separated pieces computes `TurnOf(turn)`, panics included |
| CubeGame.PickFits | day2/src/bin/game.rs:96-99 | the count a colour ends with fits in an `i32` |
| CubeGame.PickLastWins | day2/src/bin/game.rs:96-99 | a colour not drawn keeps its count, and otherwise its last draw gives the count |
| CubeGame.ColourAtName | day2/src/bin/game.rs:85 | a colour name written at a position is recognised there |
| CubeGame.MatchOfText | day2/src/bin/game.rs:85 | in a written draw the regex matches at its first digit |
| CubeGame.LeftmostAt | day2/src/bin/game.rs:92 | a match at the start, or after one non-matching character, is the leftmost |
| CubeGame.CaptureOfDraw | day2/src/bin/game.rs:92-94 | the captures of a written draw are its digits and its colour |
| CubeGame.CaptureOfText | day2/src/bin/game.rs:92-94 | the captures of "N colour", after an empty or one-space prefix, are N's decimal and the colour |
| CubeGame.DrawOfText | day2/src/bin/game.rs:92-99 | a written draw is read back as its count and colour |
| CubeGame.ApplyFirst | day2/src/bin/game.rs:91-102 | applying the first draw and then the rest is applying them all |
| CubeGame.PiecesFirst | day2/src/bin/game.rs:91 | the first piece carries the lead text, the rest are joined after a space |
| CubeGame.TallyOfPieces | day2/src/bin/game.rs:91-102 | the pieces of a written turn are read back as its draws applied in order |
| CubeGame.DrawTextAvoids | day2/src/bin/game.rs:72-91 | a written draw holds no separator character |
| CubeGame.JoinAvoids | day2/src/bin/game.rs:72 | joining pieces that avoid a character, with a different separator, avoids it |
| CubeGame.PiecesAvoid | day2/src/bin/game.rs:72-91 | no piece of a written turn holds a separator character |
| CubeGame.TurnRoundTrip | day2/src/bin/game.rs:83-104 | `parse_turn` reads a written turn back: each colour gets the count of its last draw, and colours not drawn stay 0 |
| CubeGame.ParseGameLine | day2/src/bin/game.rs:51-81 | the method panics exactly as `GameOf(line)`, and otherwise returns a fresh game with that id and those turns |
| CubeGame.TurnsOfStep | day2/src/bin/game.rs:72-78 | a blank segment adds no turn, and any other segment adds its turn or stops at its panic |
| CubeGame.AfterAppend | day2/src/bin/game.rs:76-77 | appending one turn and then the rest is appending them all |
| CubeGame.HeaderOfText | day2/src/bin/game.rs:60-68 | "Game N: rest" captures N's decimal and the rest |
| CubeGame.TurnsOfEach | day2/src/bin/game.rs:72-78 | segments that are not blank give one turn each, in order |
| CubeGame.TurnTextNotBlank | day2/src/bin/game.rs:73 | a written turn is not skipped as blank |
| CubeGame.SegmentRoundTrip | day2/src/bin/game.rs:72-77 | each written segment reads back as its turn, and holds neither ';' nor a line break |
| CubeGame.TurnsRoundTrip | day2/src/bin/game.rs:72-78 | splitting written turns at ';' and parsing them gives the turns back |
| CubeGame.GameRoundTrip | day2/src/bin/game.rs:59-81 | `parse_game_line` reads a written game back: its id and each turn |
| CubeGame.TurnsOfBlank | day2/src/bin/game.rs:73-75 | blank segments give no turns |
| CubeGame.BlankSegments | day2/src/bin/game.rs:73-75 | a game whose segments are all blank has no turns |
| CubeGame.NotAGamePanics | day2/src/bin/game.rs:61 | a line not starting with "Game " panics in the captures `unwrap` |
| CubeGame.LargeIdPanics | day2/src/bin/game.rs:67 | an id too large for a `u32` panics in its `unwrap` |
| CubeGame.LargeCountPanics | day2/src/bin/game.rs:93 | a count too large for an `i32` panics in its `unwrap` |
| CubeGame.UnknownColourPanics | day2/src/bin/game.rs:92 | "18 purple" does not match and panics, so the "Invalid color" arm is never reached |
| CubeGame.ExamplePossible | day2/src/bin/game.rs:152-175 | the test's first game is possible in (15, 11, 10) and its second is not |
| CubeGame.ExampleMinWorld | day2/src/bin/game.rs:178-188 | the minimum world of the first test game is (15, 11, 9) |
| CubeGame.ApplyEachColour | day2/src/bin/game.rs:96-99 | three draws of different colours give their three counts |
| CubeGame.ExampleTurns | day2/src/bin/game.rs:141-149 | "18 red, 8 green, 7 blue" gives (18, 8, 7) and the all-zero turn gives (0, 0, 0) |
| CubeGame.TurnOfThree | day2/src/bin/game.rs:83-104 | a turn of one red, one green and one blue draw reads back as their three counts |
| CubeGame.ExampleEmptyTurn | day2/src/bin/game.rs:87-89 | the empty turn gives (0, 0, 0) |
| CubeGame.ExampleGame | day2/src/bin/game.rs:112-120 | the test's game line gives id 1 and its three turns |
| CubeGame.ExpectedGame | day2/src/bin/game.rs:112-120 | the test's three turns, as tuples |
| CubeGame.ExampleNoTurns | day2/src/bin/game.rs:123-138 | "Game 1: ; ; " and "Game 1: " have no turns |
| Scratchcards.ScratchCard.constructor | day4/src/bin/scratchcards.rs:12-18 | a new card has the given id and two empty sets |
| Scratchcards.Matches | day4/src/bin/scratchcards.rs:20-25 | the match count is at most the size of either set, and is the size of their intersection when that fits a `u32` |
| Scratchcards.CommonBelow | day4/src/bin/scratchcards.rs:21 | the intersection is no larger than either set |
| Scratchcards.Pow2Positive | day4/src/bin/scratchcards.rs:33 | every power of two is at least 1 |
| Scratchcards.Pow2Monotone | day4/src/bin/scratchcards.rs:33 | powers of two grow with the exponent |
| Scratchcards.Pow2Of32 | day4/src/bin/scratchcards.rs:33 | 2^32 is the first power that does not fit a `u32` |
| Scratchcards.PointsMeaning | day4/src/bin/scratchcards.rs:27-35 | no match scores 0, one scores 1, each further match doubles; more than 32 matches panic with the multiplication overflow |
| Scratchcards.LastBar | day4/src/bin/scratchcards.rs:46 | the greedy `(.*)` splits at a separator below `p` that leaves room for it |
| Scratchcards.NumbersStep | day4/src/bin/scratchcards.rs:54-62 | one token more either panics or adds its number to the set |
| Scratchcards.JoinedEmpty | day4/src/bin/scratchcards.rs:54-62 | an empty set joins nothing to the rest |
| Scratchcards.JoinedUnion | day4/src/bin/scratchcards.rs:56-61 | inserting a number and then the rest is inserting the union |
| Scratchcards.ParseScratchcardLine | day4/src/bin/scratchcards.rs:37-65 | the method panics exactly as `CardOf(line)`, and otherwise returns a fresh card with that id and those two sets |
| Scratchcards.NumbersMeaning | day4/src/bin/scratchcards.rs:54-62 | the tokens parse exactly when each is a `u32`, a failure is the `unwrap` panic, and the set holds exactly the numbers of the tokens |
| Scratchcards.JoinedDigits | day4/src/bin/scratchcards.rs:50-51 | decimals joined by spaces hold only digits and spaces |
| Scratchcards.NumbersTextDigits | day4/src/bin/scratchcards.rs:50-51 | written numbers hold only digits and spaces |
| Scratchcards.TokensOfText | day4/src/bin/scratchcards.rs:50-51 | `split_whitespace` of written numbers gives their decimals |
| Scratchcards.NumbersOfParsed | day4/src/bin/scratchcards.rs:54-62 | tokens that parse to given numbers give the set of those numbers |
| Scratchcards.NumbersOfDecimals | day4/src/bin/scratchcards.rs:54-62 | decimals parse back to the set of their numbers |
| Scratchcards.SeparatorOfText | day4/src/bin/scratchcards.rs:46 | the text after the id splits at the " \| " before the own numbers |
| Scratchcards.PrefixOfText | day4/src/bin/scratchcards.rs:46 | "Card", padding, the digits and ": " lead into the rest |
| Scratchcards.CardHeaderAt | day4/src/bin/scratchcards.rs:46-49 | once padding and id are found the header captures the id and both number texts |
| Scratchcards.PadRun | day4/src/bin/scratchcards.rs:46 | the `\s+` after "Card" is the whole padding |
| Scratchcards.DigitsRun | day4/src/bin/scratchcards.rs:46 | the `(\d+)` is the whole digit run of the id |
| Scratchcards.HeaderOfText | day4/src/bin/scratchcards.rs:46-51 | the header of a written card gives its id and both number texts back |
| Scratchcards.LastBarMeaning | day4/src/bin/scratchcards.rs:46 | the separator found is one, and no later separator lies below `p` |
| Scratchcards.LastBarFinds | day4/src/bin/scratchcards.rs:46 | the last separator is found when none follows it |
| Scratchcards.CardRoundTrip | day4/src/bin/scratchcards.rs:45-65 | a card written out reads back as its id and the sets of its numbers |
| Scratchcards.NotACardPanics | day4/src/bin/scratchcards.rs:48 | a line not starting with "Card" panics |
| Scratchcards.BadNumberPanics | day4/src/bin/scratchcards.rs:55 | a winning token that is not a `u32` panics in its `unwrap` |
| Scratchcards.ExampleCard | day4/src/bin/scratchcards.rs:45-65 | the first example card reads back, has 4 matches and scores 8 |
| Scratchcards.ExampleSets | day4/src/bin/scratchcards.rs:56-61 | the example's numbers form the expected sets |
| Scratchcards.ExampleCommon | day4/src/bin/scratchcards.rs:21-22 | the example's sets share 4 numbers |
| Scratchcards.ExampleDuplicate | day4/src/bin/scratchcards.rs:54-57 | a winning number written twice counts once |
| Scratchcards.DuplicateSets | day4/src/bin/scratchcards.rs:54-57 | [5, 5, 7] is the set {5, 7}, sharing one number with {5} |
| ScratchcardCopies.CardsStep | day4/src/bin/part2.rs:6-8 | one line more either panics or prepends its card to the rest |
| ScratchcardCopies.PrependedAppend | day4/src/bin/part2.rs:7 | pushing one card and then the rest is pushing them all |
| ScratchcardCopies.ParseCardsFile | day4/src/bin/part2.rs:3-10 | the first line that does not parse panics with its reason; otherwise one card per line, in order, holding that line's id and sets |
| ScratchcardCopies.ParseLineAt | day4/src/bin/part2.rs:6-8 | one iteration reads line `k`: its panic is the file's panic, or its fresh card holds the line's values and joins those read so far |
| ScratchcardCopies.CardsStepOk | day4/src/bin/part2.rs:6-8 | a line that parses adds its card after those parsed so far |
| ScratchcardCopies.CardsStepPanic | day4/src/bin/part2.rs:6-8 | a line that panics makes the whole file panic with its reason |
| ScratchcardCopies.AddCopies | day4/src/bin/part2.rs:19-20 | the inner loop adds `counts[i]` to the `m` counts after `i` and changes nothing else; it panics out of bounds when they run past the end, or with the add overflow |
| ScratchcardCopies.GainedMonotone | day4/src/bin/part2.rs:18-22 | a card gains no fewer copies when more earlier cards are counted |
| ScratchcardCopies.CountInstances | day4/src/bin/part2.rs:16-22 | the cascade ends with `WonAll(matches)`, each card's original plus the copies won from earlier cards; it panics out of bounds only when some card's copies run past the end, and with the overflow only when some count exceeds a `u32` |
| ScratchcardCopies.SumU32Meaning | day4/src/bin/part2.rs:24 | `sum::<u32>` is the sum when it fits, otherwise the add overflow panic |
| ScratchcardCopies.CardMatches | day4/src/bin/part2.rs:18-19 | calling `get_matches` on each card object gives the match counts of the cards they hold, in order |
| ScratchcardCopies.Part2 | day4/src/bin/part2.rs:12-25 | a parse panic passes on; a result means the copies fit and no count overflows, and it is the total of all instances; otherwise it panics, out of bounds when only a copy runs past the end and with the overflow when only a count exceeds a `u32` |
| ScratchcardCopies.WonBound | day4/src/bin/part2.rs:18-22 | card `k` ends with at most 2^k instances |
| ScratchcardCopies.GainedBound | day4/src/bin/part2.rs:18-22 | the copies card `k` gains from the first `j` cards are at most 2^k - 1 |
| ScratchcardCopies.SumBound | day4/src/bin/part2.rs:24 | the first `n` cards hold at most 2^n - 1 instances |
| ScratchcardCopies.FewCardsFit | day4/src/bin/part2.rs:16-24 | with 32 cards or fewer no count and no total overflows a `u32` |
| ScratchcardCopies.LastMatchDoesNotFit | day4/src/bin/part2.rs:20 | a last card with a match sends copies past the end |
| ScratchcardCopies.NoMatchesOnce | day4/src/bin/part2.rs:16-22 | without matches every card is held once |
| ScratchcardCopies.NoneGained | day4/src/bin/part2.rs:18-22 | without matches no card gains copies |
| ScratchcardCopies.SumPrefix | day4/src/bin/part2.rs:24 | the sum of one more element adds that element |
| ScratchcardCopies.ExampleCascade | day4/src/bin/part2.rs:16-24 | matches [4, 2, 2, 1, 0, 0] give instances [1, 2, 4, 8, 14, 1], 30 in all |
| Network.BlankFrom | day8/src/bin/part1.rs:9 | a blank line found from `i` on lies within the text |
| Network.BlankFromFirst | day8/src/bin/part1.rs:9 | the blank line found is the first from `i` on, and none exists when none is found |
| Network.ParseInstructionsPanics | day8/src/bin/part1.rs:8-14 | `parse_instructions` panics exactly when the text has no blank line, in an `unwrap` |
| Network.ParseInstructionsPieces | day8/src/bin/part1.rs:8-14 | otherwise the text is the instructions, the first blank line and the rules, and the instructions hold no blank line |
| Network.ParseInstructionsJoined | day8/src/bin/part1.rs:8-14 | instructions and rules joined by a blank line are read back |
| Network.AdjacencyLastWins | day8/src/bin/part1.rs:17-32 | the adjacency map holds exactly the nodes of the rules matched, each with the neighbours of its last rule |
| Network.RuleTextMatches | day8/src/bin/part1.rs:18 | a well-formed rule matches where it is written, and is captured |
| Network.RulesShift | day8/src/bin/part1.rs:19 | matching `a + b` past `a` is matching `b` |
| Network.RuleLinesLength | day8/src/bin/part1.rs:18 | each written rule line is 17 characters |
| Network.RulesOfLines | day8/src/bin/part1.rs:18-30 | rules written one per line are found again, in order |
| Network.RuleLinesNoBlank | day8/src/bin/part1.rs:9 | rule lines hold no blank line and do not start with a line break |
| Network.AdjacencyDistinct | day8/src/bin/part1.rs:17-32 | with distinct nodes the map has one entry per rule, with that rule's neighbours |
| Network.AdjacencyKeys | day8/src/bin/part1.rs:17-32 | the keys of an adjacency list are exactly the nodes of its rules |
| Network.AdjacencyValues | day8/src/bin/part1.rs:17-32 | with distinct nodes every node maps to the neighbours of its rule |
| Network.AdjacencyOfLines | day8/src/bin/part1.rs:17-32 | rules with distinct nodes, written one per line, give exactly their map |
| Network.DistinctRoots | day8/src/bin/part1.rs:17-32 | distinct nodes make as many keys as rules |
| Network.ByteLen | day8/src/bin/part1.rs:56 | `str::len` counts at least one byte per character |
| Network.FindPath | day8/src/bin/part1.rs:35-61 | the loop computes `Walked` within its fuel: an empty path when start is end, and the `unwrap` panic when there are no instructions or no rule for the start |
| Network.AsciiByteLen | day8/src/bin/part1.rs:56 | ASCII instructions take one byte per character |
| Network.StepAfter | day8/src/bin/part1.rs:42-58 | one iteration from the node reached after `k` steps moves to step `k + 1` |
| Network.NextIndex | day8/src/bin/part1.rs:56 | advancing the index modulo the length is taking the next step's instruction |
| Network.PathStep | day8/src/bin/part1.rs:47 | the path grows by the instruction of the step |
| Network.WalkAfter | day8/src/bin/part1.rs:42-58 | after `k` steps that reach neither the end nor a panic the loop is at the node reached, with the path taken |
| Network.WalkArrives | day8/src/bin/part1.rs:35-61 | when the end is first reached after `n` steps within the fuel, `find_path` returns the `n` directions taken |
| Network.ArrivalFrom | day8/src/bin/part1.rs:35-61 | an arrival from a state after `k` steps is at the first step that reaches the end |
| Network.ArrivalIsFirst | day8/src/bin/part1.rs:35-61 | a path returned is the directions of the first arrival at the end, and no earlier step reached it |
| Network.MoreFuel | day8/src/bin/part1.rs:42 | a walk that has ended stays ended with more iterations |
| Network.FuelMonotone | day8/src/bin/part1.rs:42 | `find_path` gives the same result however many more iterations it may take |
| Network.NeverArrives | day8/src/bin/part1.rs:42-58 | when the end is never reached and no step fails, `find_path` never returns |
| Network.BadDirectionPanics | day8/src/bin/part1.rs:48-53 | a direction other than 'L' or 'R' leaves no current node, and the next lookup panics |
| Network.StaysAt | day8/src/bin/part1.rs:48-53 | a node whose neighbours are itself is never left |
| Network.ExampleCycle | day8/src/bin/part1.rs:42 | "AAA = (AAA, AAA)" with end "ZZZ" never returns |
| Network.RulesRL | day8/src/bin/part1.rs:94-117 | the seven rules of the tests are well formed with distinct nodes |
| Network.AdjacencyRL | day8/src/bin/part1.rs:94-117 | their adjacency map has seven entries, each with its rule's neighbours |
| Network.WalkRL | day8/src/bin/part1.rs:120-139 | from AAA with "RL" the walk arrives at ZZZ along "RL" |
| Network.ExampleRL | day8/src/bin/part1.rs:80-139 | the test input is split into "RL" and the rules, and the walk returns "RL" |
| Network.RulesLLR | day8/src/bin/part1.rs:142-157 | the three rules of the repeated-steps test are well formed with distinct nodes |
| Network.WalkLLRFirst | day8/src/bin/part1.rs:142-157 | the first three steps go AAA, BBB, AAA, BBB |
| Network.WalkLLRSecond | day8/src/bin/part1.rs:142-157 | the next three reach ZZZ |
| Network.ExampleLLR | day8/src/bin/part1.rs:142-157 | the repeated-steps input returns "LLRLLR" |
| Ranking.StrengthInjective | day7/src/bin/camelcards.rs:134-151 | two hand types compare Equal exactly when they are the same type |
| Ranking.CountFive | day7/src/bin/camelcards.rs:95-100 | the count of a card in five cards, card by card |
| Ranking.CountPair | day7/src/bin/camelcards.rs:95-100 | two different cards together occur no more often than there are cards |
| Ranking.ZipCompareMeaning | day7/src/bin/camelcards.rs:140-150 | the zipped comparison is Equal exactly when the common-length prefixes agree, and otherwise decided by the first differing position |
| Ranking.ZipCompareEqualMeaning | day7/src/bin/camelcards.rs:140-150 | the zipped comparison is Equal exactly when the sequences agree on every position below the shorter length |
| Ranking.ZipCompareLessMeaning | day7/src/bin/camelcards.rs:140-150 | the zipped comparison is Less exactly when some position below the shorter length is the first difference and holds the smaller card on the left |
| Ranking.ZipCompareReverse | day7/src/bin/camelcards.rs:140-150 | swapping the arguments reverses the zipped comparison |
| Ranking.ZipCompareEqualLength | day7/src/bin/camelcards.rs:140-150 | on sequences of one length it is Equal only on equal sequences, and transitive |
| Ranking.ZipCompareNotTransitive | day7/src/bin/camelcards.rs:140-150 | across lengths it is not transitive: [3, 2] = [3] = [3, 4] but [3, 2] < [3, 4] |
| Ranking.CompareZipped | day7/src/bin/camelcards.rs:140-150 | the loop over `zip` with early return computes `ZipCompare` |
| Ranking.LexCompareReverse | day7/src/camelcards.rs:68-69 | `Vec::cmp` reverses when its arguments are swapped |
| Ranking.LexCompareEqual | day7/src/camelcards.rs:68-69 | `Vec::cmp` is Equal only on equal sequences |
| Ranking.LexCompareTransitive | day7/src/camelcards.rs:68-69 | `Vec::cmp` is transitive |
| Ranking.CompareIntTotal | day7/src/bin/camelcards.rs:85 | `Ord::cmp` on integers is a total order |
| Ranking.Insert | day7/src/bin/part1.rs:15 | inserting keeps every element and adds one |
| Ranking.SortBy | day7/src/bin/part1.rs:15 | the stable sort is a permutation of its input |
| Ranking.InsertSorted | day7/src/bin/part1.rs:15 | inserting into a sorted sequence keeps it sorted under a consistent comparator |
| Ranking.SortBySorted | day7/src/bin/part1.rs:15 | with a comparator consistent on its elements the sort returns a sorted permutation |
| Ranking.SameElements | day7/src/bin/part1.rs:15 | permutations have the same elements |
| Ranking.PreorderSubset | day7/src/camelcards.rs:62-72 | a comparator consistent on a set is consistent on its subsets |
| Ranking.OrderSubset | day7/src/camelcards.rs:62-72 | a total order on a set is one on its subsets |
| Ranking.SortedUnique | day7/src/bin/part1.rs:15 | under a total order only one sorted arrangement of given elements exists |
| Ranking.SortedTail | day7/src/bin/part1.rs:15 | a sorted sequence without its head is sorted and holds the other elements |
| Ranking.SortedHeadsEqual | day7/src/bin/part1.rs:15 | two sorted arrangements of the same elements start alike under a total order |
| Ranking.Reversed | day7/src/bin/part1.rs:19 | reversal keeps the length and mirrors the positions |
| Ranking.ReversedDescending | day7/src/bin/part1.rs:19 | reversing an ascending arrangement gives a descending permutation, and reversing twice gives it back |
| Ranking.SortedDescending | day7/src/bin/camelcards.rs:92-93 | `sort` then `reverse` lists integers from largest to smallest, keeping them all |
| Ranking.ReversedMultiset | day7/src/bin/part1.rs:19 | reversal is a permutation |
| Ranking.ProjectConcat | day7/src/camelcards.rs:74 | mapping distributes over concatenation |
| Ranking.ProjectMultiset | day7/src/camelcards.rs:74 | mapping two permutations of the same elements gives permutations |
| Ranking.ProjectHead | day7/src/camelcards.rs:74 | the mapped multiset is the head's image plus that of the tail |
| Ranking.ProjectMiddle | day7/src/camelcards.rs:74 | the mapped multiset splits off any element's image |
| Ranking.DistinctOnce | day7/src/bin/part1.rs:14 | in a sequence without repetitions every element occurs once |
| Ranking.EnumerationLength | day7/src/bin/part1.rs:14 | an enumeration of the keys is as long as the key set |
| Ranking.DistinctLast | day7/src/bin/part1.rs:14 | the last element of a repetition-free sequence is not earlier |
| Ranking.EnumerationsAgree | day7/src/bin/part1.rs:14 | two enumerations of the same keys are permutations of each other |
| Ranking.SumConcat | day7/src/bin/part1.rs:25-32 | the sum of a concatenation is the sum of the parts |
| Ranking.SumPermutation | day7/src/bin/part1.rs:25-32 | rearranging keeps the sum |
| Ranking.RemoveOne | day7/src/bin/part1.rs:15 | removing the same element from two permutations leaves permutations |
| Ranking.SumRemove | day7/src/bin/part1.rs:25-32 | an element's share of a sum |
| Ranking.WinningsBound | day7/src/bin/part1.rs:25-32 | the winnings are at most the largest wager times 1 + 2 + ... + n |
| Ranking.MulMonotone | day7/src/bin/part1.rs:29 | multiplying keeps order |
| Ranking.MulDistributes | day7/src/bin/part1.rs:29 | multiplication distributes over addition |
| Ranking.WinningsFive | day7/src/bin/part1.rs:25-32 | the winnings of five ranked hands written out |
| CamelCards.CardFrom | day7/src/bin/camelcards.rs:8-13 | `Card::from` accepts exactly 2 to 14 and keeps the value |
| CamelCards.CardFromStrSymbols | day7/src/bin/camelcards.rs:15-33 | the k-th symbol of "23456789TJQKA" is the card k + 2, and `from_str` accepts exactly one-symbol strings |
| CamelCards.TopTwoCorrect | day7/src/bin/camelcards.rs:102-108 | the first two counts after sorting descending are a largest count and a largest of the rest |
| CamelCards.TopTwoUnique | day7/src/bin/camelcards.rs:102-108 | those two counts are determined by the counts alone |
| CamelCards.Classify | day7/src/bin/camelcards.rs:90-131 | the counting loop and the match compute `ClassifySpec` |
| CamelCards.TopTwoBounds | day7/src/bin/camelcards.rs:102-108 | no card occurs more often than the largest count |
| CamelCards.LargestTwo | day7/src/bin/camelcards.rs:102-108 | the selection loop returns the first two counts of the descending sort |
| CamelCards.SlotsCover | day7/src/bin/camelcards.rs:95-100 | the largest count is the count of some card and no card exceeds it |
| CamelCards.ClassifyPanics | day7/src/bin/camelcards.rs:110-130 | `classify` panics exactly for no cards or a card occurring more than five times |
| CamelCards.ClassifyMeaning | day7/src/bin/camelcards.rs:90-131 | for one to five cards `classify` gives the hand type by the rules of the game |
| CamelCards.TopCards | day7/src/bin/camelcards.rs:102-108 | the two counts belong to a most frequent card and a most frequent other card |
| CamelCards.PatternOfTop | day7/src/bin/camelcards.rs:110-130 | the match on those two counts is the rule-book hand type |
| CamelCards.PatternOfPairs | day7/src/bin/camelcards.rs:121-123 | with a pair on top the second count decides between two pair and one pair |
| CamelCards.ClassifyIgnoresOrder | day7/src/bin/camelcards.rs:90-131 | reordering the cards does not change the type |
| CamelCards.NewHand | day7/src/bin/camelcards.rs:66-72 | the hand keeps its cards and the type `classify` gives, and panics when it does |
| CamelCards.ParseCards | day7/src/bin/camelcards.rs:74-81 | one card per character |
| CamelCards.ParseCardsMeaning | day7/src/bin/camelcards.rs:74-81 | the text parses exactly when every character is a rank symbol, each read as its card in order |
| CamelCards.ParseCardsOf | day7/src/bin/camelcards.rs:74-81 | a text of the cards' symbols reads back as those cards |
| CamelCards.ParseCardsPanicPersists | day7/src/bin/camelcards.rs:74-81 | once a prefix fails the whole text fails the same way |
| CamelCards.HandFromStr | day7/src/bin/camelcards.rs:74-81 | the loop pushing one card per character, then `Hand::new`, computes `ParseHand` |
| CamelCards.OrderedCardsDescending | day7/src/bin/camelcards.rs:83-88 | `get_ordered_cards` holds the hand's cards, strongest first |
| CamelCards.Cmp | day7/src/bin/camelcards.rs:134-151 | the method computes `HandCompare` |
| CamelCards.HandCompareTypeFirst | day7/src/bin/camelcards.rs:134-151 | the type decides when it differs, otherwise the cards in order |
| CamelCards.HandCompareTotal | day7/src/bin/camelcards.rs:134-151 | among hands of one length `cmp` is antisymmetric, Equal only on equal hands, and transitive |
| CamelCards.HandCompareOrdersSameLength | day7/src/bin/camelcards.rs:134-151 | on hands of one length `cmp` is a total order |
| CamelCards.HandCompareNotTransitive | day7/src/bin/camelcards.rs:134-151 | across lengths it is not |
| CamelCards.OrderingsDisagree | day7/src/bin/camelcards.rs:59-151 | the derived `PartialOrd` and `cmp` disagree on AAAAK against 22222 |
| CamelCards.CardsOfFive | day7/src/bin/camelcards.rs:74-81 | five symbols read as their five cards |
| CamelCards.ClassifyBySlots | day7/src/bin/camelcards.rs:90-131 | given where the two largest counts sit, the type is their match |
| CamelCards.HighCardExample | day7/src/bin/camelcards.rs:183-204 | "23456" is HighCard |
| CamelCards.FiveOfAKindExample | day7/src/bin/camelcards.rs:168-204 | "22222" is FiveOfAKind |
| CamelCards.FourOfAKindExample | day7/src/bin/camelcards.rs:183-204 | "22223" is FourOfAKind |
| CamelCards.FullHouseExample | day7/src/bin/camelcards.rs:183-204 | "22233" is FullHouse |
| CamelCards.ThreeOfAKindExample | day7/src/bin/camelcards.rs:183-204 | "22234" is ThreeOfAKind |
| CamelCards.TwoPairExample | day7/src/bin/camelcards.rs:183-204 | "22334" is TwoPair |
| CamelCards.OnePairExample | day7/src/bin/camelcards.rs:183-204 | "22345" is OnePair |
| CamelCards.SlotsOfFive | day7/src/bin/camelcards.rs:95-100 | the counters of five cards, card by card |
| CamelCards.OrderingExamples | day7/src/bin/camelcards.rs:207-227 | the test's comparisons hold both for the derived `<`/`>` the test uses and for `cmp` |
| RankCards.Discriminant | src/puzzle7/camelcards.rs:4-18 | `Two` is 2 and `A` is 14 |
| RankCards.RankFromDiscriminant | src/puzzle7/camelcards.rs:21-38 | `Rank::from` inverts the discriminant and accepts exactly 2 to 14 |
| RankCards.RankFromStrAgrees | src/puzzle7/camelcards.rs:40-57 | a rank symbol is accepted exactly when the later engine accepts it, with the same value |
| RankCards.DiscriminantInjective | src/puzzle7/camelcards.rs:4-18 | different ranks have different discriminants |
| RankCards.CountValues | src/puzzle7/camelcards.rs:106-116 | counting ranks and counting their values agree |
| RankCards.HasCountValues | src/puzzle7/camelcards.rs:106-116 | a multiplicity occurs among ranks exactly when among values |
| RankCards.HasTwoPairsValues | src/puzzle7/camelcards.rs:106-116 | two different pairs occur among ranks exactly when among values |
| RankCards.PatternTypeValues | src/puzzle7/camelcards.rs:102-141 | the rule-book type of ranks and of their values agree |
| RankCards.DescendingStartsHigh | src/puzzle7/camelcards.rs:104-105 | a descending list holding a K or A starts with one |
| RankCards.HighRankOrdered | src/puzzle7/camelcards.rs:104-105 | the sorted values hold a K or A exactly when the hand does |
| RankCards.RawSlotsOverflow | src/puzzle7/camelcards.rs:109 | more than 255 of one value shows in the largest counter |
| RankCards.ClassifyAsWritten | src/puzzle7/camelcards.rs:102-141 | the loop as written computes `ClassifyAsWrittenSpec` |
| RankCards.CountByDiscriminant | src/puzzle7/camelcards.rs:106-112 | a K or A panics out of bounds; otherwise the counters are `RawSlots` and any panic is a `u8` overflow |
| RankCards.CountGrows | src/puzzle7/camelcards.rs:108-110 | one more card adds one to its own count only |
| RankCards.CountPrefixAtMost | src/puzzle7/camelcards.rs:108-110 | a prefix holds no more copies than the whole |
| RankCards.DescendingBelow | src/puzzle7/camelcards.rs:104-105 | a descending list starting below 13 stays below 13 |
| RankCards.RawSlotsRotated | src/puzzle7/camelcards.rs:109 | without K or A the source's counters are the later engine's, rotated by two |
| RankCards.TopTwoRotated | src/puzzle7/camelcards.rs:117-118 | rotating the counters keeps the two largest counts |
| RankCards.ClassifyAsWrittenAgrees | src/puzzle7/camelcards.rs:102-141 | without K or A the source's `classify` agrees with the corrected one; with K or A it panics out of bounds |
| RankCards.AceHandPanics | src/puzzle7/camelcards.rs:233-253 | the hand "AAAAA" of `test_hands_ordering` makes the as-written `classify` panic, and is five of a kind when corrected |
| RankCards.Classify | src/puzzle7/camelcards.rs:102-141 | the corrected method computes the corrected `ClassifySpec` |
| RankCards.ClassifyMeaning | src/puzzle7/camelcards.rs:102-141 | the corrected `classify` gives one to five cards their rule-book type and panics on none |
| RankCards.NewHand | src/puzzle7/camelcards.rs:78-84 | with the corrected `classify`, one to five cards form the hand of their rule-book type |
| RankCards.ParseRanks | src/puzzle7/camelcards.rs:86-93 | one rank per character |
| RankCards.ParseRanksAgrees | src/puzzle7/camelcards.rs:86-93 | the ranks read are the later engine's cards, value for value, and fail together |
| RankCards.ParseHandAgrees | src/puzzle7/camelcards.rs:86-93 | parsing a hand here and in the later engine succeeds together, with the same values and type |
| RankCards.ParseRanksPanicPersists | src/puzzle7/camelcards.rs:86-93 | once a prefix fails the whole text fails the same way |
| RankCards.HandFromStr | src/puzzle7/camelcards.rs:86-93 | the loop and `Hand::new` compute `ParseHand` |
| RankCards.NewHandAsWritten | src/puzzle7/camelcards.rs:78-84 | the source's `Hand::new` panics out of bounds on every hand holding a K or an A, keeps the cards when it succeeds, and otherwise builds the hand the corrected one builds |
| RankCards.ParseHandAsWrittenAgrees | src/puzzle7/camelcards.rs:86-93 | the source's `Hand::from_str` agrees with the corrected reading on text without K or A, and panics out of bounds on readable text holding one |
| RankCards.ParseRanksAt | src/puzzle7/camelcards.rs:87-90 | each rank read is `Rank::from_str` of its own character |
| RankCards.ParseRanksSymbols | src/puzzle7/camelcards.rs:87-90 | the ranks read hold a K (an A) exactly when the text holds the symbol `K` (`A`) |
| RankCards.ParseRanksSymbol | src/puzzle7/camelcards.rs:87-90 | a rank that only one symbol reads as is among the ranks read exactly when that symbol is in the text |
| RankCards.RankOfSymbol | src/puzzle7/camelcards.rs:87-90 | only the symbols `K` and `A` read as a king and an ace |
| RankCards.ParseRanksSnoc | src/puzzle7/camelcards.rs:87-90 | one character more adds its rank at the end |
| RankCards.ParseRanksAces | src/puzzle7/camelcards.rs:87-90 | a run of `A` symbols reads as as many aces |
| RankCards.AceHandFromStrPanics | src/puzzle7/camelcards.rs:233-253 | `Hand::from_str("AAAAA")` of `test_hands_ordering` panics as written, and gives a five-of-a-kind hand when corrected |
| RankCards.OrderedCardsDescending | src/puzzle7/camelcards.rs:95-100 | `get_ordered_cards` holds the hand's values, strongest first |
| RankCards.Cmp | src/puzzle7/camelcards.rs:144-162 | the method computes `HandCompare` |
| RankCards.HandCompareAgrees | src/puzzle7/camelcards.rs:144-162 | it orders hands exactly as the later engine orders the same cards |
| RankCards.HandCompareTotal | src/puzzle7/camelcards.rs:144-162 | among hands of one length it is antisymmetric, Equal only on equal hands, and transitive |
| RankCards.OrderingExamples | src/puzzle7/camelcards.rs:233-253 | the test's comparisons hold under the corrected `classify` |
| ValueGame.CardValues | day7/src/camelcards.rs:14 | the values exist exactly when the map holds every character, one per character; otherwise the `unwrap` panics |
| ValueGame.HandFromStr | day7/src/camelcards.rs:13-19 | the hand keeps its text and those values |
| ValueGame.HandFromStrInjective | day7/src/camelcards.rs:13-19 | under a map that tells characters apart, equal values mean equal texts |
| ValueGame.GetWinningForHand | day7/src/camelcards.rs:51-54 | a wager is found exactly when the hand's text is a key |
| ValueGame.WinningOfParsedKey | day7/src/camelcards.rs:51-54 | a hand read from a key finds that key's wager |
| ValueGame.ParseAll | day7/src/camelcards.rs:58-60 | every key reads, in order, or the first failure panics |
| ValueGame.Classified | day7/src/camelcards.rs:61 | each hand gets the classifier's type, or the classifier's panic |
| ValueGame.RankOrderPreorder | day7/src/camelcards.rs:62-72 | the `sorted_by` comparator is consistent on any set of classified hands |
| ValueGame.RankOrderEqual | day7/src/camelcards.rs:62-72 | it is Equal exactly when type and values agree |
| ValueGame.ParseAllKeys | day7/src/camelcards.rs:56-60 | reading the keys succeeds exactly when every key reads, and keeps their order |
| ValueGame.ClassifiedKeys | day7/src/camelcards.rs:61 | classifying succeeds exactly when every key classifies |
| ValueGame.SortedHandsRanked | day7/src/camelcards.rs:62-74 | the sort keeps the hands and orders them by the comparator |
| ValueGame.GetSortedHandsPanics | day7/src/camelcards.rs:56-75 | `get_sorted_hands` panics exactly when some key does not read or, with two or more keys, some key does not classify (`sorted_by` never calls the comparator on fewer than two hands) |
| ValueGame.GetSortedHandsRanks | day7/src/camelcards.rs:56-75 | its result is one hand per key, read from that key, in the comparator's order |
| ValueGame.RereadPermutation | day7/src/camelcards.rs:56-75 | a permutation of read hands holds the same texts, each rereading to its hand |
| ValueGame.ClassifiedByKey | day7/src/camelcards.rs:56-75 | each classified hand is its key's hand with its type |
| ValueGame.KeysTotallyOrdered | day7/src/camelcards.rs:62-72 | under a map that tells characters apart the classified keys are totally ordered |
| ValueGame.SortedKeysAgree | day7/src/camelcards.rs:56-75 | two iteration orders of the keys sort to the same sequence |
| ValueGame.GetSortedHandsIndependentOfOrder | day7/src/camelcards.rs:56-75 | under a map that tells characters apart the result does not depend on the hash map's order |
| ValueGame.DerivedCompareIsNotRanking | day7/src/camelcards.rs:6-72 | the derived `Ord` on hands is not the ranking order |
| ValueGame.ParseAndWagerExample | day7/src/camelcards.rs:83-107 | "ABC" reads as values 1, 2, 3 and finds wager 1 |
| ValueGame.SortedHandsTestPanics | day7/src/camelcards.rs:110-130 | the sorting test's keys "DEF" and "GHI" are missing from its map, so `get_sorted_hands` panics whatever the key order |
| StandardWinnings.GetOrderedHands | day7/src/bin/part1.rs:13-23 | the keys sorted by `cmp`, reversed for Descending |
| StandardWinnings.SortHands | day7/src/bin/part1.rs:15 | the sort is the stable sort by `cmp` |
| StandardWinnings.ReverseInPlace | day7/src/bin/part1.rs:19 | the array afterwards holds its old contents reversed |
| StandardWinnings.OrderedHandsPermutation | day7/src/bin/part1.rs:13-23 | both directions hold every hand of the game exactly once |
| StandardWinnings.OrderedHandsSorted | day7/src/bin/part1.rs:13-23 | with hands of one length Ascending is sorted by `cmp`, Descending is its reverse |
| StandardWinnings.OrderedHandsIndependentOfOrder | day7/src/bin/part1.rs:13-23 | with hands of one length the order does not depend on the hash map's order |
| StandardWinnings.TotalWinningsBound | day7/src/bin/part1.rs:25-32 | an empty game wins nothing and no game wins more than its largest wager times 1 + 2 + ... + n |
| StandardWinnings.ParseGamePanics | day7/src/bin/part1.rs:40-51 | the input panics exactly when some kept line holds a hand that does not parse |
| StandardWinnings.ParseGameLastWins | day7/src/bin/part1.rs:40-51 | otherwise the game holds exactly the kept hands, each with its last line's wager |
| StandardWinnings.EntryOfLine | day7/src/bin/part1.rs:40-51 | a line of a hand and a `u32` wager is kept with its hand and wager, or panics as the hand does |
| StandardWinnings.ExampleAscendingSorted | day7/src/bin/part1.rs:62-78 | the example's ascending list is sorted by `cmp` |
| StandardWinnings.ExampleOrder | day7/src/bin/part1.rs:62-78 | whatever the key order, Ascending lists 32T3K, KTJJT, KK677, T55J5, QQQJA |
| StandardWinnings.ExampleDescending | day7/src/bin/part1.rs:81-97 | Descending lists them from QQQJA to 32T3K |
| StandardWinnings.ExampleWinnings | day7/src/bin/part1.rs:100-110 | the example wins 6440 |
| JokerWinnings.Entry | day7/src/bin/part2.rs:9-22 | a line is skipped or kept, never a panic |
| JokerWinnings.ParseGameDataLastWins | day7/src/bin/part2.rs:7-24 | the map holds exactly the kept hands, each with its last line's wager |
| JokerWinnings.EntryOfLine | day7/src/bin/part2.rs:9-22 | a line of a word and a `u32` wager is kept as that pair |
| JokerWinnings.MaxByKey | day7/src/bin/part2.rs:36-50 | `max_by_key` picks a position of largest key, the last such |
| JokerWinnings.NonJokers | day7/src/bin/part2.rs:36-41 | the filter keeps exactly the keys other than 'J' |
| JokerWinnings.NoJokersMerged | day7/src/bin/part2.rs:30-31 | without jokers the counts are unchanged |
| JokerWinnings.JokersMerged | day7/src/bin/part2.rs:36-50 | the jokers' count moves to the target |
| JokerWinnings.MergedCountsStep | day7/src/bin/part2.rs:52 | the merged counts grow key by key |
| JokerWinnings.GetHandType | day7/src/bin/part2.rs:26-64 | the method computes `JokerType` for the counts map's key order |
| JokerWinnings.MergeJokers | day7/src/bin/part2.rs:36-50 | it panics exactly when no non-joker key exists; otherwise it returns the target and the merged counts |
| JokerWinnings.MergedValues | day7/src/bin/part2.rs:52 | `values()` of the merged map are the merged counts in key order |
| JokerWinnings.JokerTargetHighest | day7/src/bin/part2.rs:36-50 | a target exists exactly when a non-joker card exists, and it is one of greatest value |
| JokerWinnings.MaxByKeyAgrees | day7/src/bin/part2.rs:36-50 | maps with the same keys pick the same position |
| JokerWinnings.JokerValueIgnored | day7/src/bin/part2.rs:26-64 | the map's entry for 'J' does not matter |
| JokerWinnings.NonJokerKeysAgree | day7/src/bin/part2.rs:36-50 | maps agreeing off the joker pick the same target |
| JokerWinnings.JokerTypeByTarget | day7/src/bin/part2.rs:26-64 | the values matter only through the target |
| JokerWinnings.CountAll | day7/src/bin/part2.rs:27-28 | a hand of one character counts it at its length |
| JokerWinnings.JokersOnly | day7/src/bin/part2.rs:32-50 | five jokers are five of a kind; no cards panic in the match; another number of jokers alone panics in the `unwrap` |
| JokerWinnings.SumProjectLast | day7/src/bin/part2.rs:52 | a sum over keys splits off the last key |
| JokerWinnings.CountsAppended | day7/src/bin/part2.rs:27-28 | one character more adds one to the total counted |
| JokerWinnings.CountsTotal | day7/src/bin/part2.rs:27-28 | the counts add up to the number of cards |
| JokerWinnings.ZeroSum | day7/src/bin/part2.rs:52 | zero counts sum to zero |
| JokerWinnings.MergedTotal | day7/src/bin/part2.rs:36-52 | the merged counts plus the removed jokers add up to the cards |
| JokerWinnings.SumProjectOptional | day7/src/bin/part2.rs:36-41 | a key's share of the non-joker sum |
| JokerWinnings.MergePreservesTotal | day7/src/bin/part2.rs:36-52 | moving the jokers' count keeps the number of cards |
| JokerWinnings.SumAtLeastLength | day7/src/bin/part2.rs:52 | positive counts sum to at least their number |
| JokerWinnings.SumOfFew | day7/src/bin/part2.rs:52 | sums of up to five counts written out |
| JokerWinnings.PartitionsOfFive | day7/src/bin/part2.rs:54-61 | the ascending positive counts adding up to five are the seven partitions of five |
| JokerWinnings.JoinedStep | day7/src/bin/part2.rs:52 | `join("")` appends each count's decimal |
| JokerWinnings.JoinedDigits | day7/src/bin/part2.rs:52 | the join of single-digit counts is their digits |
| JokerWinnings.SortedCounts | day7/src/bin/part2.rs:52 | sorting counts keeps them positive, keeps their sum and orders them |
| JokerWinnings.SortedFingerprint | day7/src/bin/part2.rs:52-63 | each partition of five has the fingerprint of its type |
| JokerWinnings.FingerprintRule | day7/src/bin/part2.rs:52-63 | for positive counts adding up to five the fingerprint match gives the type of the count multiset |
| JokerWinnings.JokerTypeOfFive | day7/src/bin/part2.rs:26-64 | a five-card hand with fewer than five jokers gets the type of its counts after the jokers join the target |
| JokerWinnings.NotAllJokers | day7/src/bin/part2.rs:36-50 | fewer jokers than cards leave another card |
| JokerWinnings.MergedCountsPositive | day7/src/bin/part2.rs:52 | every merged count is positive |
| JokerWinnings.NonJokersEnumerate | day7/src/bin/part2.rs:36-41 | dropping the joker from an enumeration enumerates the other keys |
| JokerWinnings.MergedCountsAre | day7/src/bin/part2.rs:52 | the merged counts do not depend on the key order, as a multiset |
| JokerWinnings.JokerTypeByCounts | day7/src/bin/part2.rs:26-64 | given the target and the merged counts, the type is that of their multiset |
| JokerWinnings.HandOfMultiset | day7/src/bin/part2.rs:27-28 | a hand's characters and counts are read off its multiset |
| JokerWinnings.JokerTargetIs | day7/src/bin/part2.rs:36-50 | a non-joker card worth more than every other is the target |
| JokerWinnings.HighestNotMostFrequent | day7/src/bin/part2.rs:36-50 | in "22J3K" the joker joins K, not the pair of 2s, so the hand is two pair rather than three of a kind |
| JokerWinnings.Distinct | day7/src/bin/part2.rs:27-28 | an enumeration of a hand's characters |
| JokerWinnings.SortIntsUnique | day7/src/bin/part2.rs:52 | sorting two permutations of integers gives one result |
| JokerWinnings.JokerTypeIndependentOfOrder | day7/src/bin/part2.rs:26-64 | when the map tells the cards apart the type does not depend on the counts map's order |
| JokerWinnings.SortedHandsFindWagers | day7/src/bin/part2.rs:66-87 | every sorted hand finds its wager, so the `unwrap` never panics |
| JokerWinnings.TotalWinnings | day7/src/bin/part2.rs:66-87 | the winnings exist exactly when `get_sorted_hands` does not panic |
| JokerWinnings.TotalWinningsBound | day7/src/bin/part2.rs:66-87 | an empty game wins 0, and no game wins more than its largest wager times 1 + 2 + ... + n |
| JokerWinnings.TotalWinningsIndependentOfOrder | day7/src/bin/part2.rs:66-87 | when the map tells the cards apart, whether the winnings exist and their amount do not depend on the hash map's order |
| JokerWinnings.JokerCardMapInjective | day7/src/bin/part2.rs:92-106 | the part-two map gives different characters different values |
| JokerWinnings.ReadsTo | day7/src/camelcards.rs:13-19 | a hand whose characters the map holds reads to their values |
| JokerWinnings.JokerExampleSorted | day7/src/bin/part2.rs:121-148 | whatever the key order, the example sorts to 32T3K, KK677, T55J5, QQQJA, KTJJT |
| JokerWinnings.JokerExampleWinnings | day7/src/bin/part2.rs:121-148 | with 'J' worth 1 and played as a joker, the example wins 5905 |
| JokerWinnings.JokerRankedWinnings | day7/src/bin/part2.rs:82-86 | the fold over the ranked example gives 5905 |

## Left out

- Regular expressions are modelled only for the patterns the puzzles use: a
  hand-written matcher per pattern. The Unicode classes `\d` and `\s`, and
  `char::is_numeric`, are modelled on ASCII plus a fixed set of other
  characters, not on the full Unicode tables.
- fancy_regex can fail at run time (backtrack limit). The `expect("Error
  running regex")` of `src/puzzle1/mod.rs` is therefore treated as one that never fires.
- Reading files, `include_str!`, `println!` and the `main` drivers' sums
  (day 1, day 2 and day 4 part one) are not modelled. The day 7, day 8 and
  day 4 part-two drivers are, up to what they print.
- Hash-map and hash-set iteration order is a parameter listing each key
  once. The model proves which results do not depend on it. Hashing itself
  (`Hash for Hand`, day7/src/bin/camelcards.rs:154-161) is not modelled.
- Network.FindPath: the loop can run forever (see `NeverArrives`). The model
  therefore takes a `fuel` bound on its iterations and reports `Walking`
  when the bound runs out.
- StandardWinnings.TotalWinnings: it does not model the `u32` overflow of
  `acc + wager * (i + 1)`. The sum is an unbounded `nat`.
  `StandardWinnings.TotalWinningsBound` bounds it instead.
- JokerWinnings.TotalWinnings: it does not model the `u32` overflow of the
  fold either. It is an unbounded `nat` when `get_sorted_hands` succeeds.
- JokerWinnings.TotalWinningsIndependentOfOrder: on a panic it says only
  that both orders panic. It does not say that the panic reasons agree,
  because the first key to fail depends on the order.
- Scratchcards.Matches: the size of the intersection is stated only for
  winning sets with fewer than 2^32 elements, where `count() as u32` does not
  truncate.
- ScratchcardCopies.CountInstances: it does not say which panic comes first
  when both an out-of-range copy and an overflow lie ahead. It says only
  that each panic has its cause.
- ScratchcardCopies.Part2: for the same reason, when both an out-of-range
  copy and an overflow lie ahead it states only that it panics, not with
  which reason.
- ValueGame.GetSortedHands: when several keys fail to classify, the model
  reports the panic of the first of them in key order. The source classifies
  inside the `sorted_by` comparator, whose order of comparisons belongs to
  the standard library and has changed between Rust versions, so it may
  report another key's panic. No contract depends on which reason it is.
- RankCards.NewHand: it builds the hand with the corrected `classify`. On a
  hand holding a K or an A it therefore gives a hand where the source's
  `Hand::new` panics. `RankCards.NewHandAsWritten` is the constructor as
  written. `Cmp` and the ordering examples work on the corrected hands.
- RankCards.HandFromStr: it goes through `NewHand`, so "AAAAA" reads as a
  hand where the source's `Hand::from_str` panics. `ParseHandAsWritten` is
  the reading as written (`ParseHandAsWrittenAgrees`, `AceHandFromStrPanics`).
- Ranking.SortBy: a comparator that is not a total order on its input, such
  as `cmp` across hands of different lengths (`HandCompareNotTransitive`),
  leaves Rust's `sort_by` free to return any order, and may make it panic
  since Rust 1.81. The model commits to one insertion order. Every ordering
  lemma holds only for hands of one length.
- CubeGame: the "Invalid color" panic (day2/src/bin/game.rs:100) cannot be
  reached, because the regex only matches the three colours. Negative
  counts arise only when a `Game` is built directly, never from parsing.
- `main` of `src/puzzle7` is not part of this model, and neither is any
  other file outside the puzzles listed above.

## Findings

| source | as written | input that shows it | evidently intended | confidence | as-written member | corrected member |
|---|---|---|---|---|---|---|
| src/puzzle7/camelcards.rs:109 | the count of a card goes to `indexes[discriminant]` of a 13-slot vector, so a K (13) or an A (14) indexes out of bounds and panics | "AAAAA", built by `Hand::from_str` in `test_hands_ordering` | count into `indexes[discriminant - 2]`, as the later engine in day7/src/bin/camelcards.rs does | not executed | RankCards.ClassifyAsWritten, RankCards.AceHandPanics, RankCards.NewHandAsWritten, RankCards.AceHandFromStrPanics | RankCards.Classify, RankCards.ClassifyMeaning |
