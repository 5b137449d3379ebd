/** The calibration of day1/src/bin/part1.rs: `find_digits` keeps the
    characters for which `char::is_numeric` holds, so a spelled-out digit
    is ignored and a numeric character that is not an ASCII digit is kept,
    only for the parse into a `u8` to fail on it. */
module NumericDigits {
  import opened Outcomes
  import opened Text
  import Calibration
  import AsciiDigits

  /** The numeric characters of `line[i..]`, in order. */
  function DigitsFrom(line: string, i: nat): string
    requires i <= |line|
    decreases |line| - i
  {
    if i == |line| then ""
    else (if IsNumeric(line[i]) then [line[i]] else "") + DigitsFrom(line, i + 1)
  }

  /** `find_digits`: `filter(is_numeric)`, one `String` per character. */
  function Digits(line: string): string {
    DigitsFrom(line, 0)
  }

  /** A character is kept exactly when it occurs in the line and is
      one of the numeric characters. */
  lemma {:induction false} DigitsFromMembers(line: string, i: nat)
    requires i <= |line|
    ensures forall c :: c in DigitsFrom(line, i) <==> c in line[i..] && IsNumeric(c)
    decreases |line| - i
  {
    if i < |line| {
      DigitsFromMembers(line, i + 1);
      assert line[i..] == [line[i]] + line[i + 1..];
    }
  }

  /** `calc_calibration_value`. */
  method CalcCalibrationValue(line: string) returns (r: Result<U8>)
    ensures r == Calibration.ValueOf(Digits(line))
  {
    r := Calibration.CalibrationValue(Digits(line));
  }

  lemma {:induction false} DigitsFromShift(a: string, b: string, j: nat)
    requires j <= |b|
    ensures DigitsFrom(a + b, |a| + j) == DigitsFrom(b, j)
    decreases |b| - j
  {
    if j < |b| {
      assert (a + b)[|a| + j] == b[j];
      DigitsFromShift(a, b, j + 1);
    }
  }

  lemma {:induction false} DigitsFromConcat(a: string, b: string, i: nat)
    requires i <= |a|
    ensures DigitsFrom(a + b, i) == DigitsFrom(a, i) + Digits(b)
    decreases |a| - i
  {
    if i == |a| {
      DigitsFromShift(a, b, 0);
    } else {
      assert (a + b)[i] == a[i];
      DigitsFromConcat(a, b, i + 1);
      var kept := if IsNumeric(a[i]) then [a[i]] else "";
      assert DigitsFrom(a + b, i) == kept + DigitsFrom(a + b, i + 1);
      assert DigitsFrom(a, i) == kept + DigitsFrom(a, i + 1);
    }
  }

  /** `find_digits` keeps exactly the numeric characters: one character
      contributes itself when it is numeric and nothing otherwise, and the
      digits of a concatenation are concatenated in order. */
  lemma DigitsConcat(a: string, b: string)
    ensures Digits(a + b) == Digits(a) + Digits(b)
  {
    DigitsFromConcat(a, b, 0);
  }

  lemma DigitsOfChar(c: char)
    ensures Digits([c]) == if IsNumeric(c) then [c] else ""
  {
    assert DigitsFrom([c], 1) == "";
  }

  /** On a line whose numeric characters are all ASCII digits this
      `find_digits` and the one of puzzle-1/main.rs agree. */
  lemma {:induction false} AgreesWithAscii(line: string, i: nat)
    requires i <= |line|
    requires forall k | i <= k < |line| :: IsNumeric(line[k]) ==> IsAsciiDigit(line[k])
    ensures DigitsFrom(line, i) == AsciiDigits.DigitsFrom(line, i)
    decreases |line| - i
  {
    if i < |line| {
      AgreesWithAscii(line, i + 1);
    }
  }

  /** A numeric character that is not an ASCII digit, found first or last,
      makes the calibration panic. */
  lemma NonAsciiPanics(line: string)
    requires |Digits(line)| > 0
    requires !IsAsciiDigit(Digits(line)[0]) || !IsAsciiDigit(Digits(line)[|Digits(line)| - 1])
    ensures Calibration.ValueOf(Digits(line)) == Panic(UnwrapErr)
  {
    DigitsFromMembers(line, 0);
    Calibration.NonAsciiPanics(Digits(line));
  }

  /** "7½" keeps both characters, and "7½" does not parse as a `u8`. */
  lemma FractionPanics()
    ensures Digits("7\U{BD}") == "7\U{BD}"
    ensures Calibration.ValueOf(Digits("7\U{BD}")) == Panic(UnwrapErr)
  {
    assert Digits("7\U{BD}") == "7\U{BD}";
    NonAsciiPanics("7\U{BD}");
  }

  /** The reversed Roman one hundred and the small reversed c are letters,
      not numerals, so "1\U{2184}" and "\U{2183}1" both keep only the 1 and
      give 11. */
  lemma ReversedLettersIgnored()
    ensures !IsNumeric('\U{2183}') && !IsNumeric('\U{2184}')
    ensures Digits("1\U{2184}") == "1" && Digits("\U{2183}1") == "1"
    ensures Calibration.ValueOf(Digits("1\U{2184}")) == Ok(11)
    ensures Calibration.ValueOf(Digits("\U{2183}1")) == Ok(11)
  {
    assert DigitsFrom("1\U{2184}", 1) == "";
    assert DigitsFrom("\U{2183}1", 1) == "1";
    Calibration.AsciiValue("1");
  }

  /** On a line of ASCII characters only the ASCII digits are numeric. */
  lemma AsciiLine(line: string)
    requires forall k | 0 <= k < |line| :: line[k] < '\U{80}'
    ensures Digits(line) == AsciiDigits.Digits(line)
  {
    AgreesWithAscii(line, 0);
  }

  /** Test case: spelled-out digits are ignored, "fourfive6seven" gives
      the single digit 6. */
  lemma ExampleSpelledIgnored()
    ensures Digits("fourfive6seven") == "6"
  {
    var s := "fourfive6seven";
    assert DigitsFrom(s, 13) == "";
    assert DigitsFrom(s, 12) == "";
    assert DigitsFrom(s, 11) == "";
    assert DigitsFrom(s, 10) == "";
    assert DigitsFrom(s, 9) == "";
    assert DigitsFrom(s, 8) == "6";
    assert DigitsFrom(s, 7) == "6";
    assert DigitsFrom(s, 6) == "6";
    assert DigitsFrom(s, 5) == "6";
    assert DigitsFrom(s, 4) == "6";
    assert DigitsFrom(s, 3) == "6";
    assert DigitsFrom(s, 2) == "6";
    assert DigitsFrom(s, 1) == "6";
  }

  /** Test case: "abc1pqsttwo33four" gives 13. */
  lemma Example13()
    ensures Calibration.ValueOf(Digits("abc1pqsttwo33four")) == Ok(13)
  {
    DigitsOf13();
    Calibration.AsciiValue("133");
  }

  lemma DigitsOf13()
    ensures Digits("abc1pqsttwo33four") == "133"
  {
    var s := "abc1pqsttwo33four";
    assert DigitsFrom(s, 16) == "";
    assert DigitsFrom(s, 15) == "";
    assert DigitsFrom(s, 14) == "";
    assert DigitsFrom(s, 13) == "";
    assert DigitsFrom(s, 12) == "3";
    assert DigitsFrom(s, 11) == "33";
    assert DigitsFrom(s, 10) == "33";
    assert DigitsFrom(s, 9) == "33";
    assert DigitsFrom(s, 8) == "33";
    assert DigitsFrom(s, 7) == "33";
    assert DigitsFrom(s, 6) == "33";
    assert DigitsFrom(s, 5) == "33";
    assert DigitsFrom(s, 4) == "33";
    assert DigitsFrom(s, 3) == "133";
    assert DigitsFrom(s, 2) == "133";
    assert DigitsFrom(s, 1) == "133";
  }

  /** Test cases: "zoneight234" keeps 2, 3 and 4 and gives 24. */
  lemma Example24()
    ensures Digits("zoneight234") == "234"
    ensures Calibration.ValueOf(Digits("zoneight234")) == Ok(24)
  {
    DigitsOf24();
    Calibration.AsciiValue("234");
  }

  lemma DigitsOf24()
    ensures Digits("zoneight234") == "234"
  {
    var s := "zoneight234";
    assert DigitsFrom(s, 10) == "4";
    assert DigitsFrom(s, 9) == "34";
    assert DigitsFrom(s, 8) == "234";
    assert DigitsFrom(s, 7) == "234";
    assert DigitsFrom(s, 6) == "234";
    assert DigitsFrom(s, 5) == "234";
    assert DigitsFrom(s, 4) == "234";
    assert DigitsFrom(s, 3) == "234";
    assert DigitsFrom(s, 2) == "234";
    assert DigitsFrom(s, 1) == "234";
  }
}
