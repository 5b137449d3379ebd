/** The calibration of puzzle-1/main.rs: `find_digits` keeps the characters
    that are decimal digits (`is_digit(10)`, the ASCII digits only). */
module AsciiDigits {
  import opened Outcomes
  import opened Text
  import Calibration

  /** The ASCII digits of `line[i..]`, in order. */
  function DigitsFrom(line: string, i: nat): string
    requires i <= |line|
    decreases |line| - i
  {
    if i == |line| then ""
    else (if IsAsciiDigit(line[i]) then [line[i]] else "") + DigitsFrom(line, i + 1)
  }

  /** What `find_digits` returns. */
  function Digits(line: string): string {
    DigitsFrom(line, 0)
  }

  /** `find_digits`: walk the characters and push each digit. */
  method FindDigits(line: string) returns (digits: string)
    ensures digits == Digits(line)
  {
    digits := "";
    for i := 0 to |line|
      invariant digits + DigitsFrom(line, i) == Digits(line)
    {
      if IsAsciiDigit(line[i]) {
        digits := digits + [line[i]];
      }
    }
  }

  /** A character is kept exactly when it occurs in the line and is
      one of the ASCII digits. */
  lemma {:induction false} DigitsFromMembers(line: string, i: nat)
    requires i <= |line|
    ensures forall c :: c in DigitsFrom(line, i) <==> c in line[i..] && IsAsciiDigit(c)
    decreases |line| - i
  {
    if i < |line| {
      DigitsFromMembers(line, i + 1);
      assert line[i..] == [line[i]] + line[i + 1..];
    }
  }

  /** `calc_calibration_value`. */
  method CalcCalibrationValue(line: string) returns (r: Result<U8>)
    ensures r == Calibration.ValueOf(Digits(line))
  {
    var digits := FindDigits(line);
    r := Calibration.CalibrationValue(digits);
  }

  /** The digits of two joined texts are the digits of the first, then
      those of the second. */
  lemma {:induction false} DigitsFromConcat(a: string, b: string, i: nat)
    requires i <= |a|
    ensures DigitsFrom(a + b, i) == DigitsFrom(a, i) + Digits(b)
    decreases |a| - i
  {
    if i == |a| {
      DigitsFromShift(a, b, 0);
    } else {
      assert (a + b)[i] == a[i];
      DigitsFromConcat(a, b, i + 1);
      var kept := if IsAsciiDigit(a[i]) then [a[i]] else "";
      assert DigitsFrom(a + b, i) == kept + DigitsFrom(a + b, i + 1);
      assert DigitsFrom(a, i) == kept + DigitsFrom(a, i + 1);
    }
  }

  /** Reading `a + b` past `a` is reading `b`. */
  lemma {:induction false} DigitsFromShift(a: string, b: string, j: nat)
    requires j <= |b|
    ensures DigitsFrom(a + b, |a| + j) == DigitsFrom(b, j)
    decreases |b| - j
  {
    if j < |b| {
      assert (a + b)[|a| + j] == b[j];
      DigitsFromShift(a, b, j + 1);
    }
  }

  /** `find_digits` keeps exactly the digits: a character contributes
      itself when it is an ASCII digit and nothing otherwise, and the
      digits of a concatenation are concatenated in order. */
  lemma DigitsConcat(a: string, b: string)
    ensures Digits(a + b) == Digits(a) + Digits(b)
  {
    DigitsFromConcat(a, b, 0);
  }

  lemma DigitsOfChar(c: char)
    ensures Digits([c]) == if IsAsciiDigit(c) then [c] else ""
  {
    assert DigitsFrom([c], 1) == "";
  }

  /** The calibration value of any line: 0 without digits, 11·d for a
      single digit d, 10·first + last otherwise, never above 99 and never
      a panic. */
  lemma LineValue(line: string)
    ensures forall c | c in Digits(line) :: IsAsciiDigit(c)
    ensures var d := Digits(line);
      && (|d| == 0 ==> Calibration.ValueOf(d) == Ok(0))
      && (|d| == 1 ==> Calibration.ValueOf(d) == Ok(11 * DigitValue(d[0])))
      && (|d| >= 2 ==> Calibration.ValueOf(d) == Ok(10 * DigitValue(d[0]) + DigitValue(d[|d| - 1])))
      && Calibration.ValueOf(d).Ok? && Calibration.ValueOf(d).value <= 99
  {
    DigitsFromMembers(line, 0);
    Calibration.AsciiValue(Digits(line));
  }

  /** Test case: "abc123def456" gives 16. */
  lemma Example16()
    ensures Calibration.ValueOf(Digits("abc123def456")) == Ok(16)
  {
    DigitsOf16();
    Calibration.AsciiValue("123456");
  }

  lemma DigitsOf16()
    ensures Digits("abc123def456") == "123456"
  {
    var s := "abc123def456";
    assert DigitsFrom(s, 11) == "6";
    assert DigitsFrom(s, 10) == "56";
    assert DigitsFrom(s, 9) == "456";
    assert DigitsFrom(s, 8) == "456";
    assert DigitsFrom(s, 7) == "456";
    assert DigitsFrom(s, 6) == "456";
    assert DigitsFrom(s, 5) == "3456";
    assert DigitsFrom(s, 4) == "23456";
    assert DigitsFrom(s, 3) == "123456";
    assert DigitsFrom(s, 2) == "123456";
    assert DigitsFrom(s, 1) == "123456";
  }

  /** Test case: "no digits here" gives 0. */
  lemma ExampleNoDigits()
    ensures Calibration.ValueOf(Digits("no digits here")) == Ok(0)
  {
    var s := "no digits here";
    assert DigitsFrom(s, 13) == "";
    assert DigitsFrom(s, 12) == "";
    assert DigitsFrom(s, 11) == "";
    assert DigitsFrom(s, 10) == "";
    assert DigitsFrom(s, 9) == "";
    assert DigitsFrom(s, 8) == "";
    assert DigitsFrom(s, 7) == "";
    assert DigitsFrom(s, 6) == "";
    assert DigitsFrom(s, 5) == "";
    assert DigitsFrom(s, 4) == "";
    assert DigitsFrom(s, 3) == "";
    assert DigitsFrom(s, 2) == "";
    assert DigitsFrom(s, 1) == "";
  }

  /** Test cases: "111" gives 11 and "2" gives 22. */
  lemma ExampleShort()
    ensures Calibration.ValueOf(Digits("111")) == Ok(11)
    ensures Calibration.ValueOf(Digits("2")) == Ok(22)
  {
    assert Digits("111") == "111";
    assert Digits("2") == "2";
    Calibration.AsciiValue("111");
    Calibration.AsciiValue("2");
  }
}
