/** The calibration value of a line, computed by the same
    `calc_calibration_value` in the three day-1 solutions
    (puzzle-1/main.rs, src/puzzle1/mod.rs and day1/src/bin/part1.rs) from
    the digits their `find_digits` finds. Every digit found is a
    one-character `String`; the model keeps the character, so the digits
    found form a string. */
module Calibration {
  import opened Outcomes
  import opened Text

  /** The text that is parsed as a `u8`: the only digit twice
      (`repeat(2)`), or the first digit and then the last (`format!`). */
  function CalibrationText(digits: string): (r: string)
    requires |digits| > 0
    ensures |r| == 2 && r[0] == digits[0] && r[1] == digits[|digits| - 1]
  {
    if |digits| == 1 then [digits[0], digits[0]] else [digits[0], digits[|digits| - 1]]
  }

  /** What `calc_calibration_value` returns: 0 without digits, otherwise
      the `u8` the calibration text parses to; `unwrap` panics when it
      does not parse. */
  function ValueOf(digits: string): Result<U8> {
    if |digits| == 0 then Ok(0)
    else
      match ParseUnsigned(CalibrationText(digits), U8Limit)
      case Some(v) => Ok(v)
      case None => Panic(UnwrapErr)
  }

  /** `calc_calibration_value` once `find_digits` has run: a mutable
      value, set in one of two branches. */
  method CalibrationValue(digits: string) returns (r: Result<U8>)
    ensures r == ValueOf(digits)
  {
    var value: U8 := 0;
    if |digits| == 0 {
      return Ok(value);
    }
    var text: string;
    if |digits| == 1 {
      text := [digits[0], digits[0]];
    } else {
      text := [digits[0], digits[|digits| - 1]];
    }
    var parsed := ParseUnsigned(text, U8Limit);
    if parsed.None? {
      return Panic(UnwrapErr);
    }
    value := parsed.value;
    r := Ok(value);
  }

  /** Two ASCII digits parse to the number they write. */
  lemma ParseTwoDigits(a: char, b: char)
    requires IsAsciiDigit(a) && IsAsciiDigit(b)
    ensures ParseUnsigned([a, b], U8Limit) == Some(10 * DigitValue(a) + DigitValue(b))
  {
    var s := [a, b];
    assert s[..1] == [a] && [a][..0] == [];
    assert a in s && b in s;
    assert DigitsValue([a]) == DigitValue(a);
    assert DigitsValue(s) == DigitsValue([a]) * 10 + DigitValue(b);
  }

  /** With ASCII digits the value is 0 without digits, 11·d for a single
      digit d, and 10·first + last otherwise; it is at most 99, so the
      parse into a `u8` never fails. */
  lemma AsciiValue(digits: string)
    requires forall c | c in digits :: IsAsciiDigit(c)
    ensures |digits| == 0 ==> ValueOf(digits) == Ok(0)
    ensures |digits| == 1 ==> ValueOf(digits) == Ok(11 * DigitValue(digits[0]))
    ensures |digits| >= 2 ==> ValueOf(digits) == Ok(10 * DigitValue(digits[0]) + DigitValue(digits[|digits| - 1]))
    ensures ValueOf(digits).Ok? && ValueOf(digits).value <= 99
  {
    if |digits| > 0 {
      var first, last := digits[0], digits[|digits| - 1];
      assert first in digits && last in digits;
      ParseTwoDigits(first, last);
    }
  }

  /** A first or last digit that is numeric but not ASCII makes the parse
      fail, and `unwrap` panics. */
  lemma NonAsciiPanics(digits: string)
    requires |digits| > 0 && '+' !in digits
    requires !IsAsciiDigit(digits[0]) || !IsAsciiDigit(digits[|digits| - 1])
    ensures ValueOf(digits) == Panic(UnwrapErr)
  {
    var text := CalibrationText(digits);
    assert digits[0] != '+' by {
      assert digits[0] in digits;
    }
    assert !IsAsciiDigit(text[0]) || !IsAsciiDigit(text[1]);
  }
}
