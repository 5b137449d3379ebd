/** The calibration of src/puzzle1/mod.rs: `find_digits` runs the regex
    `(?=(\d|one|two|three|four|five|six|seven|eight|nine|zero))`, a
    lookahead, so it reports a match at every position where the line
    continues with a decimal digit or with one of the spelled-out words,
    and words that overlap ("oneight") are all read. Each match goes
    through `parse_digit_text`, which keeps a numeric text and maps a word
    to its digit. */
module SpelledDigits {
  import opened Outcomes
  import opened Text
  import Calibration
  import AsciiDigits

  /** The words of the alternation, in its order, and the digit that each
      spells. */
  const DigitWords: seq<string> :=
    ["one", "two", "three", "four", "five", "six", "seven", "eight", "nine", "zero"]
  const WordDigits: string := "1234567890"

  /** The `HashMap` that `parse_digit_text` fills. */
  const DigitMap: map<string, string> :=
    map["one" := "1", "two" := "2", "three" := "3", "four" := "4", "five" := "5",
        "six" := "6", "seven" := "7", "eight" := "8", "nine" := "9", "zero" := "0"]

  predicate AllNumeric(text: string) {
    forall c | c in text :: IsNumeric(c)
  }

  /** `parse_digit_text`: a text made of numeric characters is its own
      digit (the empty text included), a word of the map is replaced by
      its digit, and anything else is `None`. */
  function ParseDigitText(text: string): Option<string> {
    if AllNumeric(text) then Some(text)
    else if text in DigitMap then Some(DigitMap[text])
    else None
  }

  /** `line[i..]` continues with `word[j..]` after its first `j`
      characters. */
  predicate MatchesFrom(line: string, i: nat, word: string, j: nat)
    requires j <= |word|
    decreases |word| - j
  {
    j == |word| || (i + j < |line| && line[i + j] == word[j] && MatchesFrom(line, i, word, j + 1))
  }

  /** The line continues with `word` at position `i`. */
  predicate StartsWith(line: string, i: nat, word: string) {
    MatchesFrom(line, i, word, 0)
  }

  /** The first word of the alternation, from the `k`-th on, that the line
      continues with at `i`. */
  function WordFrom(line: string, i: nat, k: nat): (r: Option<nat>)
    requires k <= |DigitWords|
    decreases |DigitWords| - k
  {
    if k == |DigitWords| then None
    else if StartsWith(line, i, DigitWords[k]) then Some(k)
    else WordFrom(line, i, k + 1)
  }

  /** Group 1 of the lookahead at position `i`: `\d` is tried first and
      matches one character, then the words in order. */
  function CaptureAt(line: string, i: nat): Option<string>
    requires i < |line|
  {
    if IsDecimalDigit(line[i]) then Some([line[i]])
    else match WordFrom(line, i, 0)
      case Some(k) => Some(DigitWords[k])
      case None => None
  }

  /** The digit read at position `i`, if any: the decimal digit there, or
      the digit of the word that starts there. */
  function DigitAt(line: string, i: nat): Option<char>
    requires i < |line|
  {
    if IsDecimalDigit(line[i]) then Some(line[i])
    else match WordFrom(line, i, 0)
      case Some(k) => Some(WordDigits[k])
      case None => None
  }

  /** The digits read at the positions `i` on, in order. */
  function DigitsFrom(line: string, i: nat): string
    requires i <= |line|
    decreases |line| - i
  {
    if i == |line| then ""
    else (match DigitAt(line, i) case Some(d) => [d] case None => "") + DigitsFrom(line, i + 1)
  }

  /** What `find_digits` returns, one character per digit found. */
  function Digits(line: string): string {
    DigitsFrom(line, 0)
  }

  /** `find_digits`: one regex match per position where the lookahead
      succeeds; the capture goes through `parse_digit_text`, whose
      `unwrap` never fails, and its result is pushed. */
  method FindDigits(line: string) returns (digits: string)
    ensures digits == Digits(line)
  {
    digits := "";
    for i := 0 to |line|
      invariant digits + DigitsFrom(line, i) == Digits(line)
    {
      var capture := CaptureAt(line, i);
      CaptureParses(line, i);
      if capture.Some? {
        var parsed := ParseDigitText(capture.value);
        assert DigitsFrom(line, i) == parsed.value + DigitsFrom(line, i + 1);
        digits := digits + parsed.value;
      } else {
        assert DigitsFrom(line, i) == DigitsFrom(line, i + 1);
      }
    }
  }

  /** `calc_calibration_value`. */
  method CalcCalibrationValue(line: string) returns (r: Result<U8>)
    ensures r == Calibration.ValueOf(Digits(line))
  {
    var digits := FindDigits(line);
    r := Calibration.CalibrationValue(digits);
  }

  /** Every word of the alternation is mapped to its digit by
      `parse_digit_text`. */
  lemma WordParses(k: nat)
    requires k < |DigitWords|
    ensures ParseDigitText(DigitWords[k]) == Some([WordDigits[k]])
  {
    var word := DigitWords[k];
    assert word[0] in word && !IsNumeric(word[0]);
  }

  /** A match exists exactly where a digit is read, and its capture parses
      to that digit: the `unwrap` in `find_digits` never panics. */
  lemma CaptureParses(line: string, i: nat)
    requires i < |line|
    ensures CaptureAt(line, i).Some? <==> DigitAt(line, i).Some?
    ensures CaptureAt(line, i).Some? ==> ParseDigitText(CaptureAt(line, i).value) == Some([DigitAt(line, i).value])
  {
    if !IsDecimalDigit(line[i]) && WordFrom(line, i, 0).Some? {
      WordParses(WordFrom(line, i, 0).value);
    }
  }

  /** The test cases of `parse_digit_text` on numeric texts. */
  lemma ParseNumericExamples()
    ensures ParseDigitText("1") == Some("1")
    ensures ParseDigitText("1234") == Some("1234")
  {
  }

  /** The test cases of `parse_digit_text` on words. */
  lemma ParseWordExamples()
    ensures ParseDigitText("one") == Some("1")
    ensures ParseDigitText("two") == Some("2")
    ensures ParseDigitText("notanumber") == None
  {
    WordParses(0);
    WordParses(1);
    NotADigitText();
  }

  /** "notanumber" is neither numeric nor a digit word. */
  lemma NotADigitText()
    ensures ParseDigitText("notanumber") == None
  {
    var s := "notanumber";
    assert s[0] in s && !IsNumeric(s[0]);
    assert |s| == 10;
    assert forall w | w in DigitMap :: |w| <= 5;
  }

  /** The small reversed c is a letter, so it is no digit text. */
  lemma ReversedLetterNotDigitText()
    ensures ParseDigitText("\U{2184}") == None
  {
    var s := "\U{2184}";
    assert s[0] in s && !IsNumeric(s[0]);
    assert |s| == 1;
    assert forall w | w in DigitMap :: |w| >= 3;
  }

  /** The index of the word found lies in the alternation and the line
      continues with it; none of the earlier words matches. */
  lemma {:induction false} WordFromFound(line: string, i: nat, k: nat)
    requires k <= |DigitWords|
    ensures WordFrom(line, i, k).Some? ==>
      var w := WordFrom(line, i, k).value;
      k <= w < |DigitWords| && StartsWith(line, i, DigitWords[w])
    ensures forall j | k <= j < |DigitWords| && StartsWith(line, i, DigitWords[j]) :: WordFrom(line, i, k).Some?
    decreases |DigitWords| - k
  {
    if k < |DigitWords| {
      WordFromFound(line, i, k + 1);
    }
  }

  lemma WordDigitIsAscii(k: nat)
    requires k < |WordDigits|
    ensures IsAsciiDigit(WordDigits[k])
  {
  }

  /** Every digit read is a decimal digit: the spelled ones are ASCII. */
  lemma {:induction false} DigitsFromDecimal(line: string, i: nat)
    requires i <= |line|
    ensures forall c | c in DigitsFrom(line, i) :: IsDecimalDigit(c)
    decreases |line| - i
  {
    if i < |line| {
      DigitsFromDecimal(line, i + 1);
      WordFromFound(line, i, 0);
      if !IsDecimalDigit(line[i]) && WordFrom(line, i, 0).Some? {
        WordDigitIsAscii(WordFrom(line, i, 0).value);
      }
    }
  }

  /** On a line of ASCII characters every digit read is an ASCII digit,
      so the calibration value never panics and is at most 99. */
  lemma AsciiLineValue(line: string)
    requires forall k | 0 <= k < |line| :: line[k] < '\U{80}'
    ensures Calibration.ValueOf(Digits(line)).Ok?
    ensures Calibration.ValueOf(Digits(line)).value <= 99
  {
    AsciiLineDigits(line, 0);
    Calibration.AsciiValue(Digits(line));
  }

  lemma {:induction false} AsciiLineDigits(line: string, i: nat)
    requires i <= |line|
    requires forall k | i <= k < |line| :: line[k] < '\U{80}'
    ensures forall c | c in DigitsFrom(line, i) :: IsAsciiDigit(c)
    decreases |line| - i
  {
    if i < |line| {
      AsciiLineDigits(line, i + 1);
      WordFromFound(line, i, 0);
      if !IsDecimalDigit(line[i]) && WordFrom(line, i, 0).Some? {
        WordDigitIsAscii(WordFrom(line, i, 0).value);
      }
    }
  }

  /** On an ASCII line in which no word is spelled out the digits read
      are those of puzzle-1/main.rs, which keeps the ASCII digits. */
  lemma {:induction false} AgreesWithoutWords(line: string, i: nat)
    requires i <= |line|
    requires forall k | i <= k < |line| :: line[k] < '\U{80}' && WordFrom(line, k, 0).None?
    ensures DigitsFrom(line, i) == AsciiDigits.DigitsFrom(line, i)
    decreases |line| - i
  {
    if i < |line| {
      AgreesWithoutWords(line, i + 1);
    }
  }

  /** The first two letters of a word of the alternation. */
  predicate WordPrefix(a: char, b: char) {
    || (a == 'o' && b == 'n') || (a == 't' && (b == 'w' || b == 'h'))
    || (a == 'f' && (b == 'o' || b == 'i')) || (a == 's' && (b == 'i' || b == 'e'))
    || (a == 'e' && b == 'i') || (a == 'n' && b == 'i') || (a == 'z' && b == 'e')
  }

  /** Every word has at least three letters, and its first two letters
      tell it apart from the others: no word is a prefix of another, so
      at most one word starts at any position. */
  lemma WordsByPrefix()
    ensures forall k | 0 <= k < |DigitWords| :: |DigitWords[k]| >= 3 && WordPrefix(DigitWords[k][0], DigitWords[k][1])
    ensures forall j, k | 0 <= j < |DigitWords| && 0 <= k < |DigitWords| ::
      DigitWords[j][0] == DigitWords[k][0] && DigitWords[j][1] == DigitWords[k][1] ==> j == k
  {
  }

  /** No digit is read where neither a decimal digit nor the beginning of
      a word stands. */
  lemma DigitAtNone(line: string, i: nat)
    requires i < |line| && !IsDecimalDigit(line[i])
    requires i + 2 < |line| ==> !WordPrefix(line[i], line[i + 1])
    ensures DigitAt(line, i) == None
  {
    WordsByPrefix();
    WordFromFound(line, i, 0);
  }

  /** The line continues with `word` at `i` when their characters agree
      one by one. */
  lemma {:induction false} MatchesChars(line: string, i: nat, word: string, j: nat)
    requires j <= |word| && i + |word| <= |line|
    requires forall t | j <= t < |word| :: line[i + t] == word[t]
    ensures MatchesFrom(line, i, word, j)
    decreases |word| - j
  {
    if j < |word| {
      MatchesChars(line, i, word, j + 1);
    }
  }

  /** The digit of a word is read where the word starts. */
  lemma DigitAtWord(line: string, i: nat, k: nat)
    requires i < |line| && !IsDecimalDigit(line[i])
    requires k < |DigitWords| && i + |DigitWords[k]| <= |line|
    requires forall t | 0 <= t < |DigitWords[k]| :: line[i + t] == DigitWords[k][t]
    ensures DigitAt(line, i) == Some(WordDigits[k])
  {
    MatchesChars(line, i, DigitWords[k], 0);
    WordsByPrefix();
    WordFromFound(line, i, 0);
    var j := WordFrom(line, i, 0).value;
    assert MatchesFrom(line, i, DigitWords[j], 1);
  }
}
