/** The pieces of Rust's `str` that the puzzles read their input with:
    `lines`, `split_whitespace` and `parse` into an unsigned integer. */
module Text {
  import opened Outcomes

  /** `char::is_whitespace`: the Unicode White_Space characters. */
  predicate IsWhitespace(c: char) {
    || c == ' ' || '\t' <= c <= '\r'
    || c == '\U{85}' || c == '\U{A0}' || c == '\U{1680}'
    || '\U{2000}' <= c <= '\U{200A}'
    || c == '\U{2028}' || c == '\U{2029}' || c == '\U{202F}' || c == '\U{205F}' || c == '\U{3000}'
  }

  predicate IsAsciiDigit(c: char) {
    '0' <= c <= '9'
  }

  /** `char::is_numeric` on the ASCII digits and on the other numeric
      characters listed here: superscripts, vulgar fractions, Arabic-Indic,
      Devanagari and full-width digits, Roman numerals and circled
      numbers. The reversed Roman letters U+2183 and U+2184 are letters,
      not numbers, and fall outside. */
  predicate IsNumeric(c: char) {
    || IsAsciiDigit(c)
    || c == '\U{B2}' || c == '\U{B3}' || c == '\U{B9}' || '\U{BC}' <= c <= '\U{BE}'
    || '\U{660}' <= c <= '\U{669}' || '\U{6F0}' <= c <= '\U{6F9}' || '\U{966}' <= c <= '\U{96F}'
    || '\U{2160}' <= c <= '\U{2182}' || '\U{2185}' <= c <= '\U{2188}'
    || '\U{2460}' <= c <= '\U{249B}' || '\U{FF10}' <= c <= '\U{FF19}'
  }

  /** The regex class `\d`, the Unicode decimal digits, on the ASCII
      digits and the Arabic-Indic, Devanagari and full-width digits. */
  predicate IsDecimalDigit(c: char) {
    || IsAsciiDigit(c)
    || '\U{660}' <= c <= '\U{669}' || '\U{6F0}' <= c <= '\U{6F9}' || '\U{966}' <= c <= '\U{96F}'
    || '\U{FF10}' <= c <= '\U{FF19}'
  }

  predicate NoWhitespace(t: string) {
    forall c | c in t :: !IsWhitespace(c)
  }

  // ---------------------------------------------------------------------
  // `split_whitespace`

  /** The words of `s`, `word` being the part of a word already read. */
  function Words(s: string, word: string): seq<string>
    requires NoWhitespace(word)
  {
    if |s| == 0 then (if word == "" then [] else [word])
    else if IsWhitespace(s[0]) then
      (if word == "" then Words(s[1..], "") else [word] + Words(s[1..], ""))
    else Words(s[1..], word + [s[0]])
  }

  /** `split_whitespace`: the maximal runs of non-whitespace characters, in
      order. */
  function SplitWhitespace(s: string): seq<string> {
    Words(s, "")
  }

  /** Every word is a nonempty run of characters that are not
      whitespace. */
  lemma {:induction false} WordsShape(s: string, word: string)
    requires NoWhitespace(word)
    ensures forall t | t in Words(s, word) :: |t| > 0 && NoWhitespace(t)
    decreases |s|
  {
    if |s| > 0 {
      if IsWhitespace(s[0]) {
        WordsShape(s[1..], "");
      } else {
        WordsShape(s[1..], word + [s[0]]);
      }
    }
  }

  /** The words joined with one space between them. */
  function JoinSpaced(words: seq<string>): string {
    if |words| == 0 then ""
    else if |words| == 1 then words[0]
    else words[0] + " " + JoinSpaced(words[1..])
  }

  lemma {:induction false} WordsOfWord(t: string, rest: string, word: string)
    requires NoWhitespace(word) && NoWhitespace(t)
    ensures Words(t + rest, word) == Words(rest, word + t)
    decreases |t|
  {
    if |t| != 0 {
      assert (t + rest)[1..] == t[1..] + rest;
      assert (word + [t[0]]) + t[1..] == word + t;
      WordsOfWord(t[1..], rest, word + [t[0]]);
    } else {
      assert t + rest == rest && word + t == word;
    }
  }

  /** Splitting words joined by spaces gives the words back. */
  lemma {:induction false} SplitJoinSpaced(words: seq<string>)
    requires forall t | t in words :: |t| > 0 && NoWhitespace(t)
    ensures SplitWhitespace(JoinSpaced(words)) == words
    decreases |words|
  {
    if |words| == 1 {
      WordsOfWord(words[0], "", "");
      assert words[0] + "" == words[0];
    } else if |words| > 1 {
      var rest := JoinSpaced(words[1..]);
      assert words[0] + " " + rest == words[0] + (" " + rest);
      WordsOfWord(words[0], " " + rest, "");
      assert "" + words[0] == words[0];
      assert (" " + rest)[0] == ' ' && (" " + rest)[1..] == rest;
      assert Words(" " + rest, words[0]) == [words[0]] + Words(rest, "");
      SplitJoinSpaced(words[1..]);
      assert words == [words[0]] + words[1..];
    }
  }

  // ---------------------------------------------------------------------
  // `lines`

  /** The first position of `c` in `s`, or `|s|` when it does not occur. */
  function IndexOf(s: string, c: char): (i: nat)
    ensures i <= |s|
    ensures forall k | 0 <= k < i :: s[k] != c
    ensures i < |s| ==> s[i] == c
  {
    if |s| == 0 then 0
    else if s[0] == c then 0
    else 1 + IndexOf(s[1..], c)
  }

  /** A line without its `\r` terminator, if it has one. */
  function StripCarriageReturn(line: string): (r: string)
    ensures r == line || (r + "\r" == line)
  {
    if |line| > 0 && line[|line| - 1] == '\r' then line[..|line| - 1] else line
  }

  /** `lines`: the text split at each `\n`, a line ended by `\r\n` without
      its `\r`, and no empty line after a final `\n`. A final line with no
      `\n` is kept whole, a trailing `\r` included. */
  function Lines(s: string): (r: seq<string>)
    ensures forall l | l in r :: '\n' !in l
    decreases |s|
  {
    if |s| == 0 then []
    else
      var i := IndexOf(s, '\n');
      if i == |s| then [s]
      else [StripCarriageReturn(s[..i])] + Lines(s[i + 1..])
  }

  /** Text with no line break is one line, whatever it ends with. */
  lemma LinesUnterminated(s: string)
    requires |s| > 0 && '\n' !in s
    ensures Lines(s) == [s]
  {
    forall k | 0 <= k < |s| ensures s[k] != '\n' {
      assert s[k] in s;
    }
  }

  /** `\r\n` ends a line, but a bare `\r` at the end of the text stays. */
  lemma CarriageReturnLines()
    ensures Lines("a\r\nb\r") == ["a", "b\r"]
  {
    var s := "a\r\nb\r";
    IndexOfFirst(s, '\n', 2);
    LinesUnterminated("b\r");
    assert s[..2] == "a\r" && s[3..] == "b\r";
    assert StripCarriageReturn("a\r") == "a";
    assert Lines(s) == [StripCarriageReturn(s[..2])] + Lines(s[3..]);
  }

  /** Each line followed by `\n`. */
  function Terminated(lines: seq<string>): string {
    if |lines| == 0 then "" else lines[0] + "\n" + Terminated(lines[1..])
  }

  /** Reading back lines that each end in `\n` gives the lines, provided
      none holds a `\n` or ends in `\r`. */
  lemma {:induction false} LinesTerminated(lines: seq<string>)
    requires forall l | l in lines :: '\n' !in l && (|l| > 0 ==> l[|l| - 1] != '\r')
    ensures Lines(Terminated(lines)) == lines
    decreases |lines|
  {
    if |lines| != 0 {
      var l, s := lines[0], Terminated(lines);
      var rest := Terminated(lines[1..]);
      assert s == l + "\n" + rest;
      assert IndexOf(s, '\n') == |l| by {
        forall k | 0 <= k < |l| ensures s[k] != '\n' {
          assert s[k] == l[k] && l[k] in l;
        }
        IndexOfFirst(s, '\n', |l|);
      }
      assert s[..|l|] == l;
      assert s[|l| + 1..] == rest;
      LinesTerminated(lines[1..]);
      assert lines == [l] + lines[1..];
    }
  }

  lemma IndexOfFirst(s: string, c: char, i: nat)
    requires i < |s| && s[i] == c
    requires forall k | 0 <= k < i :: s[k] != c
    ensures IndexOf(s, c) == i
  {
  }

  // ---------------------------------------------------------------------
  // `parse::<u8>()` and `parse::<u32>()`

  function DigitValue(c: char): (d: nat)
    requires IsAsciiDigit(c)
    ensures d < 10
  {
    c as int - '0' as int
  }

  /** The value of a string of decimal digits. */
  function DigitsValue(s: string): nat
    requires forall c | c in s :: IsAsciiDigit(c)
  {
    if |s| == 0 then 0
    else
      assert s[|s| - 1] in s;
      DigitsValue(s[..|s| - 1]) * 10 + DigitValue(s[|s| - 1])
  }

  /** `parse` into an unsigned integer type whose values are below
      `limit`, with the error turned into None by `ok()`: an optional `+`,
      then one or more ASCII digits, of a value that fits. */
  function ParseUnsigned(s: string, limit: nat): (r: Option<nat>)
    ensures r.Some? ==> r.value < limit
  {
    var digits := if |s| > 0 && s[0] == '+' then s[1..] else s;
    if |digits| == 0 then None
    else if exists c | c in digits :: !IsAsciiDigit(c) then None
    else if DigitsValue(digits) >= limit then None
    else Some(DigitsValue(digits))
  }

  const U8Limit: nat := 0x100
  const U32Limit: nat := 0x1_0000_0000

  /** The decimal digits of `n`, without leading zeros. */
  function Decimal(n: nat): (r: string)
    ensures |r| > 0 && forall c | c in r :: IsAsciiDigit(c)
  {
    if n < 10 then [('0' as int + n) as char]
    else Decimal(n / 10) + [('0' as int + n % 10) as char]
  }

  lemma {:induction false} DecimalValue(n: nat)
    ensures DigitsValue(Decimal(n)) == n
  {
    if n >= 10 {
      DecimalValue(n / 10);
      var d := Decimal(n);
      assert d[..|d| - 1] == Decimal(n / 10);
    }
  }

  /** Parsing the decimal form of a number below the limit gives it back. */
  lemma ParseDecimal(n: nat, limit: nat)
    requires n < limit
    ensures ParseUnsigned(Decimal(n), limit) == Some(n)
  {
    DecimalValue(n);
    assert Decimal(n)[0] in Decimal(n);
  }

  /** A number too large for the type is refused. */
  lemma ParseTooLarge(n: nat, limit: nat)
    requires n >= limit
    ensures ParseUnsigned(Decimal(n), limit) == None
  {
    DecimalValue(n);
    assert Decimal(n)[0] in Decimal(n);
  }

  // ---------------------------------------------------------------------
  // `split` on a character and `trim().is_empty()`

  /** `split(sep)`: the pieces between the separators, in order; a text
      without the separator is one piece, the empty text included. */
  function Split(s: string, sep: char): (r: seq<string>)
    ensures |r| > 0 && forall p | p in r :: sep !in p
    decreases |s|
  {
    var i := IndexOf(s, sep);
    if i == |s| then [s]
    else [s[..i]] + Split(s[i + 1..], sep)
  }

  /** The pieces joined with the separator between them. */
  function JoinWith(pieces: seq<string>, sep: char): string
    requires |pieces| > 0
  {
    if |pieces| == 1 then pieces[0] else pieces[0] + [sep] + JoinWith(pieces[1..], sep)
  }

  /** Splitting pieces joined by a separator none of them holds gives the
      pieces back. */
  lemma {:induction false} SplitJoin(pieces: seq<string>, sep: char)
    requires |pieces| > 0 && forall k | 0 <= k < |pieces| :: sep !in pieces[k]
    ensures Split(JoinWith(pieces, sep), sep) == pieces
    decreases |pieces|
  {
    var p := pieces[0];
    var s := JoinWith(pieces, sep);
    if |pieces| == 1 {
      assert IndexOf(s, sep) == |s|;
    } else {
      var rest := JoinWith(pieces[1..], sep);
      assert s == p + [sep] + rest;
      IndexOfJoined(p, sep, rest);
      assert s[..|p|] == p && s[|p| + 1..] == rest;
      SplitJoin(pieces[1..], sep);
      assert pieces == [p] + pieces[1..];
    }
  }

  /** The first separator of `p + [sep] + rest` follows `p` when `p`
      holds none. */
  lemma IndexOfJoined(p: string, sep: char, rest: string)
    requires sep !in p
    ensures IndexOf(p + [sep] + rest, sep) == |p|
  {
    var s := p + [sep] + rest;
    forall k | 0 <= k < |p| ensures s[k] != sep {
      assert s[k] == p[k] && p[k] in p;
    }
    IndexOfFirst(s, sep, |p|);
  }

  /** `trim().is_empty()`: nothing but whitespace. */
  predicate Blank(t: string) {
    forall k | 0 <= k < |t| :: IsWhitespace(t[k])
  }

  /** The end of the run of `\d` characters that starts at `p`. */
  function DigitRunEnd(s: string, p: nat): (q: nat)
    requires p <= |s|
    ensures p <= q <= |s| && (q < |s| ==> !IsDecimalDigit(s[q]))
    ensures forall k | p <= k < q :: IsDecimalDigit(s[k])
    decreases |s| - p
  {
    if p < |s| && IsDecimalDigit(s[p]) then DigitRunEnd(s, p + 1) else p
  }

  /** A digit run that stops at a character that is not a digit ends
      there. */
  lemma {:induction false} RunEndsAt(s: string, p: nat, q: nat)
    requires p <= q < |s| && !IsDecimalDigit(s[q])
    requires forall k | p <= k < q :: IsDecimalDigit(s[k])
    ensures DigitRunEnd(s, p) == q
    decreases q - p
  {
    if p < q {
      RunEndsAt(s, p + 1, q);
    }
  }

  /** The end of the run of whitespace that starts at `p`. */
  function WhitespaceRunEnd(s: string, p: nat): (q: nat)
    requires p <= |s|
    ensures p <= q <= |s| && (q < |s| ==> !IsWhitespace(s[q]))
    ensures forall k | p <= k < q :: IsWhitespace(s[k])
    decreases |s| - p
  {
    if p < |s| && IsWhitespace(s[p]) then WhitespaceRunEnd(s, p + 1) else p
  }

  /** A whitespace run that stops at a character that is not whitespace
      ends there. */
  lemma {:induction false} WhitespaceRunEndsAt(s: string, p: nat, q: nat)
    requires p <= q < |s| && !IsWhitespace(s[q])
    requires forall k | p <= k < q :: IsWhitespace(s[k])
    ensures WhitespaceRunEnd(s, p) == q
    decreases q - p
  {
    if p < q {
      WhitespaceRunEndsAt(s, p + 1, q);
    }
  }
}
