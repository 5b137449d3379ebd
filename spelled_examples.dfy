/** The test cases of `find_digits` and `calc_calibration_value` in
    src/puzzle1/mod.rs that spell digits out. Each line is read position by
    position, from the end, a few positions per lemma. */
module SpelledExamples {
  import opened Outcomes
  import opened Text
  import Calibration
  import opened SpelledDigits

  /** "zoneight234" reads 1, 8, 2, 3 and 4: the overlapping "one" and
      "eight" both count, and the value is 14. */
  lemma Zoneight(line: string)
    requires line == "zoneight234"
    ensures Digits(line) == "18234"
    ensures Calibration.ValueOf(Digits(line)) == Ok(14)
  {
    ZoneightFrom0(line);
    Calibration.AsciiValue("18234");
  }

  /** "fourfive6seven" reads 4, 5, 6 and 7. */
  lemma Fourfive(line: string)
    requires line == "fourfive6seven"
    ensures Digits(line) == "4567"
  {
    FourfiveFrom0(line);
  }

  /** "abc1pqsttwo33four" reads 1, 2, 3, 3 and 4, and the value is 14. */
  lemma Pqst(line: string)
    requires line == "abc1pqsttwo33four"
    ensures Calibration.ValueOf(Digits(line)) == Ok(14)
  {
    PqstFrom0(line);
    Calibration.AsciiValue("12334");
  }

  lemma ZoneightFrom0(s: string)
    requires s == "zoneight234"
    ensures DigitsFrom(s, 0) == "18234"
  {
    ZoneightFrom3(s);
    assert DigitsFrom(s, 2) == "8234" by {
      DigitAtNone(s, 2);
    }
    assert DigitsFrom(s, 1) == "18234" by {
      DigitAtWord(s, 1, 0);
    }
    DigitAtNone(s, 0);
  }

  lemma ZoneightFrom3(s: string)
    requires s == "zoneight234"
    ensures DigitsFrom(s, 3) == "8234"
  {
    ZoneightFrom6(s);
    assert DigitsFrom(s, 5) == "234" by {
      DigitAtNone(s, 5);
    }
    assert DigitsFrom(s, 4) == "234" by {
      DigitAtNone(s, 4);
    }
    DigitAtWord(s, 3, 7);
  }

  lemma ZoneightFrom6(s: string)
    requires s == "zoneight234"
    ensures DigitsFrom(s, 6) == "234"
  {
    ZoneightFrom9(s);
    assert DigitsFrom(s, 8) == "234";
    assert DigitsFrom(s, 7) == "234" by {
      DigitAtNone(s, 7);
    }
    DigitAtNone(s, 6);
  }

  lemma ZoneightFrom9(s: string)
    requires s == "zoneight234"
    ensures DigitsFrom(s, 9) == "34"
  {
    assert DigitsFrom(s, 10) == "4";
  }

  lemma FourfiveFrom0(s: string)
    requires s == "fourfive6seven"
    ensures DigitsFrom(s, 0) == "4567"
  {
    FourfiveFrom3(s);
    assert DigitsFrom(s, 2) == "567" by {
      DigitAtNone(s, 2);
    }
    assert DigitsFrom(s, 1) == "567" by {
      DigitAtNone(s, 1);
    }
    DigitAtWord(s, 0, 3);
  }

  lemma FourfiveFrom3(s: string)
    requires s == "fourfive6seven"
    ensures DigitsFrom(s, 3) == "567"
  {
    FourfiveFrom6(s);
    assert DigitsFrom(s, 5) == "67" by {
      DigitAtNone(s, 5);
    }
    assert DigitsFrom(s, 4) == "567" by {
      DigitAtWord(s, 4, 4);
    }
    DigitAtNone(s, 3);
  }

  lemma FourfiveFrom6(s: string)
    requires s == "fourfive6seven"
    ensures DigitsFrom(s, 6) == "67"
  {
    FourfiveFrom9(s);
    assert DigitsFrom(s, 8) == "67";
    assert DigitsFrom(s, 7) == "67" by {
      DigitAtNone(s, 7);
    }
    DigitAtNone(s, 6);
  }

  lemma FourfiveFrom9(s: string)
    requires s == "fourfive6seven"
    ensures DigitsFrom(s, 9) == "7"
  {
    FourfiveFrom12(s);
    assert DigitsFrom(s, 11) == "" by {
      DigitAtNone(s, 11);
    }
    assert DigitsFrom(s, 10) == "" by {
      DigitAtNone(s, 10);
    }
    DigitAtWord(s, 9, 6);
  }

  lemma FourfiveFrom12(s: string)
    requires s == "fourfive6seven"
    ensures DigitsFrom(s, 12) == ""
  {
    assert DigitsFrom(s, 13) == "" by {
      DigitAtNone(s, 13);
    }
    DigitAtNone(s, 12);
  }

  lemma PqstFrom0(s: string)
    requires s == "abc1pqsttwo33four"
    ensures DigitsFrom(s, 0) == "12334"
  {
    PqstFrom3(s);
    assert DigitsFrom(s, 2) == "12334" by {
      DigitAtNone(s, 2);
    }
    assert DigitsFrom(s, 1) == "12334" by {
      DigitAtNone(s, 1);
    }
    DigitAtNone(s, 0);
  }

  lemma PqstFrom3(s: string)
    requires s == "abc1pqsttwo33four"
    ensures DigitsFrom(s, 3) == "12334"
  {
    PqstFrom6(s);
    assert DigitsFrom(s, 5) == "2334" by {
      DigitAtNone(s, 5);
    }
    assert DigitsFrom(s, 4) == "2334" by {
      DigitAtNone(s, 4);
    }
  }

  lemma PqstFrom6(s: string)
    requires s == "abc1pqsttwo33four"
    ensures DigitsFrom(s, 6) == "2334"
  {
    PqstFrom9(s);
    assert DigitsFrom(s, 8) == "2334" by {
      DigitAtWord(s, 8, 1);
    }
    assert DigitsFrom(s, 7) == "2334" by {
      DigitAtNone(s, 7);
    }
    DigitAtNone(s, 6);
  }

  lemma PqstFrom9(s: string)
    requires s == "abc1pqsttwo33four"
    ensures DigitsFrom(s, 9) == "334"
  {
    PqstFrom12(s);
    assert DigitsFrom(s, 11) == "334";
    assert DigitsFrom(s, 10) == "334" by {
      DigitAtNone(s, 10);
    }
    DigitAtNone(s, 9);
  }

  lemma PqstFrom12(s: string)
    requires s == "abc1pqsttwo33four"
    ensures DigitsFrom(s, 12) == "34"
  {
    PqstFrom15(s);
    assert DigitsFrom(s, 14) == "" by {
      DigitAtNone(s, 14);
    }
    assert DigitsFrom(s, 13) == "4" by {
      DigitAtWord(s, 13, 3);
    }
  }

  lemma PqstFrom15(s: string)
    requires s == "abc1pqsttwo33four"
    ensures DigitsFrom(s, 15) == ""
  {
    assert DigitsFrom(s, 16) == "" by {
      DigitAtNone(s, 16);
    }
    DigitAtNone(s, 15);
  }

  /** "abc123def456" reads its six digits and gives 16. */
  lemma Sixteen(line: string)
    requires line == "abc123def456"
    ensures Digits(line) == "123456"
    ensures Calibration.ValueOf(Digits(line)) == Ok(16)
  {
    SixteenFrom0(line);
    Calibration.AsciiValue("123456");
  }

  /** "no digits here" reads no digit and gives 0. */
  lemma NoDigits(line: string)
    requires line == "no digits here"
    ensures Digits(line) == ""
    ensures Calibration.ValueOf(Digits(line)) == Ok(0)
  {
    NoDigitsFrom0(line);
  }

  /** "111" gives 11 and "2" gives 22. */
  lemma ShortLines()
    ensures Digits("111") == "111" && Calibration.ValueOf(Digits("111")) == Ok(11)
    ensures Digits("2") == "2" && Calibration.ValueOf(Digits("2")) == Ok(22)
  {
    OnesFrom0("111");
    Calibration.AsciiValue("111");
    TwoFrom0("2");
    Calibration.AsciiValue("2");
  }

  lemma SixteenFrom0(s: string)
    requires s == "abc123def456"
    ensures DigitsFrom(s, 0) == "123456"
  {
    SixteenFrom3(s);
    assert DigitsFrom(s, 2) == "123456" by {
      DigitAtNone(s, 2);
    }
    assert DigitsFrom(s, 1) == "123456" by {
      DigitAtNone(s, 1);
    }
    DigitAtNone(s, 0);
  }

  lemma SixteenFrom3(s: string)
    requires s == "abc123def456"
    ensures DigitsFrom(s, 3) == "123456"
  {
    SixteenFrom6(s);
    assert DigitsFrom(s, 5) == "3456";
    assert DigitsFrom(s, 4) == "23456";
  }

  lemma SixteenFrom6(s: string)
    requires s == "abc123def456"
    ensures DigitsFrom(s, 6) == "456"
  {
    SixteenFrom9(s);
    assert DigitsFrom(s, 8) == "456" by {
      DigitAtNone(s, 8);
    }
    assert DigitsFrom(s, 7) == "456" by {
      DigitAtNone(s, 7);
    }
    DigitAtNone(s, 6);
  }

  lemma SixteenFrom9(s: string)
    requires s == "abc123def456"
    ensures DigitsFrom(s, 9) == "456"
  {
    assert DigitsFrom(s, 11) == "6";
    assert DigitsFrom(s, 10) == "56";
  }

  lemma NoDigitsFrom0(s: string)
    requires s == "no digits here"
    ensures DigitsFrom(s, 0) == ""
  {
    NoDigitsFrom3(s);
    assert DigitsFrom(s, 2) == "" by {
      DigitAtNone(s, 2);
    }
    assert DigitsFrom(s, 1) == "" by {
      DigitAtNone(s, 1);
    }
    DigitAtNone(s, 0);
  }

  lemma NoDigitsFrom3(s: string)
    requires s == "no digits here"
    ensures DigitsFrom(s, 3) == ""
  {
    NoDigitsFrom6(s);
    assert DigitsFrom(s, 5) == "" by {
      DigitAtNone(s, 5);
    }
    assert DigitsFrom(s, 4) == "" by {
      DigitAtNone(s, 4);
    }
    DigitAtNone(s, 3);
  }

  lemma NoDigitsFrom6(s: string)
    requires s == "no digits here"
    ensures DigitsFrom(s, 6) == ""
  {
    NoDigitsFrom9(s);
    assert DigitsFrom(s, 8) == "" by {
      DigitAtNone(s, 8);
    }
    assert DigitsFrom(s, 7) == "" by {
      DigitAtNone(s, 7);
    }
    DigitAtNone(s, 6);
  }

  lemma NoDigitsFrom9(s: string)
    requires s == "no digits here"
    ensures DigitsFrom(s, 9) == ""
  {
    NoDigitsFrom12(s);
    assert DigitsFrom(s, 11) == "" by {
      DigitAtNone(s, 11);
    }
    assert DigitsFrom(s, 10) == "" by {
      DigitAtNone(s, 10);
    }
    DigitAtNone(s, 9);
  }

  lemma NoDigitsFrom12(s: string)
    requires s == "no digits here"
    ensures DigitsFrom(s, 12) == ""
  {
    assert DigitsFrom(s, 13) == "" by {
      DigitAtNone(s, 13);
    }
    DigitAtNone(s, 12);
  }

  lemma OnesFrom0(s: string)
    requires s == "111"
    ensures DigitsFrom(s, 0) == "111"
  {
    assert DigitsFrom(s, 2) == "1";
    assert DigitsFrom(s, 1) == "11";
  }

  lemma TwoFrom0(s: string)
    requires s == "2"
    ensures DigitsFrom(s, 0) == "2"
  {

  }
}
