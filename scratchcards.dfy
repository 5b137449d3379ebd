/** The scratch cards of day4/src/bin/scratchcards.rs: a card holds the
    winning numbers and the numbers it shows, each as a set; its matches
    are the numbers in both sets, and its points are 1 for the first match,
    doubled for every further one. */
module Scratchcards {
  import opened Outcomes
  import opened Text
  import Ranking

  const MulOverflow: string := "attempt to multiply with overflow"

  /** `ScratchCard`: the parser fills the two sets of a new card in
      place. */
  class ScratchCard {
    var id: U32
    var winningNumbers: set<U32>
    var ownNumbers: set<U32>

    /** `ScratchCard::new`: the id and two empty sets. */
    constructor (id: U32)
      ensures this.id == id && winningNumbers == {} && ownNumbers == {}
    {
      this.id := id;
      winningNumbers := {};
      ownNumbers := {};
    }

    /** `get_matches`. */
    function GetMatches(): U32
      reads this
    {
      Matches(winningNumbers, ownNumbers)
    }

    /** `get_points`. */
    function GetPoints(): Result<U32>
      reads this
    {
      Points(GetMatches())
    }
  }

  // ---------------------------------------------------------------------
  // `get_matches` and `get_points`

  /** The number of winning numbers the card shows: the `usize` count of
      the intersection, cast to `u32`. */
  function Matches(winning: set<U32>, own: set<U32>): (m: U32)
    ensures m <= |winning| && m <= |own|
    ensures |winning| < U32Limit ==> m == |winning * own|
  {
    CommonBelow(winning, own);
    |winning * own| % U32Limit
  }

  lemma CommonBelow(winning: set<U32>, own: set<U32>)
    ensures |winning * own| <= |winning| && |winning * own| <= |own|
  {
    assert |winning - own| >= 0 && |own - winning| >= 0;
  }

  function Pow2(k: nat): nat {
    if k == 0 then 1 else 2 * Pow2(k - 1)
  }

  /** `get_points`: nothing without a match, else `2u32.pow(matches - 1)`,
      whose multiplication panics once the power no longer fits a
      `u32`. */
  function Points(matches: U32): Result<U32> {
    if matches == 0 then Ok(0)
    else if Pow2(matches - 1) < U32Limit then Ok(Pow2(matches - 1))
    else Panic(MulOverflow)
  }

  lemma {:induction false} Pow2Positive(k: nat)
    ensures Pow2(k) >= 1
  {
    if k > 0 {
      Pow2Positive(k - 1);
    }
  }

  lemma {:induction false} Pow2Monotone(a: nat, b: nat)
    requires a < b
    ensures Pow2(a) < Pow2(b)
    decreases b
  {
    if a < b - 1 {
      Pow2Monotone(a, b - 1);
    } else {
      Pow2Positive(a);
    }
  }

  lemma Pow2Of32()
    ensures Pow2(32) == U32Limit
  {
    assert Pow2(8) == 0x100;
    assert Pow2(16) == 0x1_0000;
    assert Pow2(24) == 0x100_0000;
  }

  /** The points of a card: none without a match, one for the first
      match, twice as many for every further match, and a panic exactly
      when there are more than 32 matches. */
  lemma PointsMeaning(matches: U32)
    ensures matches == 0 ==> Points(matches) == Ok(0)
    ensures matches == 1 ==> Points(matches) == Ok(1)
    ensures 1 <= matches < 32 ==>
      Points(matches + 1).Ok? && Points(matches).Ok? && Points(matches + 1).value == 2 * Points(matches).value
    ensures Points(matches).Panic? <==> matches > 32
    ensures Points(matches).Panic? ==> Points(matches).reason == MulOverflow
  {
    Pow2Of32();
    if 1 <= matches < 32 {
      Pow2Monotone(matches, 32);
    }
    if 1 <= matches <= 32 && matches - 1 < 32 {
      Pow2Monotone(matches - 1, 32);
    }
    if matches > 33 {
      Pow2Monotone(32, matches - 1);
    }
  }

  // ---------------------------------------------------------------------
  // `parse_scratchcard_line`

  /** The separator `\s\|\s` at position `p` of the text after the card
      number, with no line break before or after it for the two `(.*)` to
      match. */
  predicate BarAt(rest: string, p: nat) {
    && p + 3 <= |rest|
    && IsWhitespace(rest[p]) && rest[p + 1] == '|' && IsWhitespace(rest[p + 2])
    && '\n' !in rest[..p] && '\n' !in rest[p + 3..]
  }

  /** The last separator below `p`: the first `(.*)` is greedy, so the
      match splits at the last separator that works. */
  function LastBar(rest: string, p: nat): (r: Option<nat>)
    ensures r.Some? ==> r.value < p && r.value + 3 <= |rest|
  {
    if p == 0 then None
    else if BarAt(rest, p - 1) then Some(p - 1)
    else LastBar(rest, p - 1)
  }

  /** The regex `^Card\s+(\d+):\s(.*)\s\|\s(.*)$`: "Card", a run of
      whitespace, a run of digits, ":", one whitespace character, then
      the winning numbers and the card's own numbers around the last
      separator. Gives the three captures. */
  function CardHeader(line: string): Option<(string, string, string)> {
    if |line| >= 4 && line[..4] == "Card" then
      var w := WhitespaceRunEnd(line, 4);
      var q := DigitRunEnd(line, w);
      if w > 4 && q > w && q + 2 <= |line| && line[q] == ':' && IsWhitespace(line[q + 1]) then
        var rest := line[q + 2..];
        match LastBar(rest, |rest|)
        case Some(p) => Some((line[w..q], rest[..p], rest[p + 3..]))
        case None => None
      else None
    else None
  }

  /** The numbers of the whitespace-separated tokens, each parsed as a
      `u32` with `unwrap` and inserted into a set. */
  function NumbersOf(tokens: seq<string>): Result<set<U32>> {
    if |tokens| == 0 then Ok({})
    else match ParseUnsigned(tokens[0], U32Limit)
      case None => Panic(UnwrapErr)
      case Some(n) =>
        var rest :- NumbersOf(tokens[1..]);
        Ok({n as U32} + rest)
  }

  /** `parse_scratchcard_line`: a line not of the shape panics at
      `captures(..).unwrap()`; otherwise the id and every number are
      parsed with `unwrap`. Gives the id, the winning numbers and the
      card's own numbers. */
  function CardOf(line: string): Result<(U32, set<U32>, set<U32>)> {
    match CardHeader(line)
    case None => Panic(UnwrapNone)
    case Some(captures) => CardOfCaptures(captures)
  }

  /** The card of the three captures: the id, the winning numbers and
      the card's own numbers. */
  function CardOfCaptures(captures: (string, string, string)): Result<(U32, set<U32>, set<U32>)> {
    var (digits, winning, own) := captures;
    match ParseUnsigned(digits, U32Limit)
    case None => Panic(UnwrapErr)
    case Some(id) =>
      var winningNumbers :- NumbersOf(SplitWhitespace(winning));
      var ownNumbers :- NumbersOf(SplitWhitespace(own));
      Ok((id as U32, winningNumbers, ownNumbers))
  }

  /** The numbers inserted so far, together with those still to come. */
  function Joined(numbers: set<U32>, rest: Result<set<U32>>): Result<set<U32>> {
    match rest
    case Ok(more) => Ok(numbers + more)
    case Panic(reason) => Panic(reason)
  }

  /** One token more: it panics, or its number joins the rest. */
  lemma NumbersStep(tokens: seq<string>, k: nat)
    requires k < |tokens|
    ensures NumbersOf(tokens[k..]) ==
      match ParseUnsigned(tokens[k], U32Limit)
      case None => Panic(UnwrapErr)
      case Some(n) => Joined({n as U32}, NumbersOf(tokens[k + 1..]))
  {
    assert tokens[k..][1..] == tokens[k + 1..];
  }

  lemma JoinedEmpty(rest: Result<set<U32>>)
    ensures Joined({}, rest) == rest
  {
    if rest.Ok? {
      assert {} + rest.value == rest.value;
    }
  }

  lemma JoinedUnion(numbers: set<U32>, n: U32, rest: Result<set<U32>>)
    ensures Joined(numbers, Joined({n}, rest)) == Joined(numbers + {n}, rest)
  {
    if rest.Ok? {
      assert numbers + ({n} + rest.value) == numbers + {n} + rest.value;
    }
  }

  /** `parse_scratchcard_line` and `ScratchCard::from_card_line`: a new
      card gets the id, then every winning number and every own number
      is inserted into its set. */
  method ParseScratchcardLine(line: string) returns (r: Result<ScratchCard>)
    ensures r.Panic? <==> CardOf(line).Panic?
    ensures r.Panic? ==> r.reason == CardOf(line).reason
    ensures r.Ok? ==> fresh(r.value) && r.value.id == CardOf(line).value.0
    ensures r.Ok? ==> r.value.winningNumbers == CardOf(line).value.1 && r.value.ownNumbers == CardOf(line).value.2
  {
    var header := CardHeader(line);
    if header.None? {
      return Panic(UnwrapNone);
    }
    var (digits, winning, own) := header.value;
    var id := ParseUnsigned(digits, U32Limit);
    if id.None? {
      return Panic(UnwrapErr);
    }
    var card := new ScratchCard(id.value);
    var winningTokens := SplitWhitespace(winning);
    assert winningTokens[0..] == winningTokens;
    JoinedEmpty(NumbersOf(winningTokens));
    for k := 0 to |winningTokens|
      invariant fresh(card) && card.id == id.value && card.ownNumbers == {}
      invariant NumbersOf(winningTokens) == Joined(card.winningNumbers, NumbersOf(winningTokens[k..]))
    {
      NumbersStep(winningTokens, k);
      var number := ParseUnsigned(winningTokens[k], U32Limit);
      if number.None? {
        return Panic(UnwrapErr);
      }
      var n: U32 := number.value;
      JoinedUnion(card.winningNumbers, n, NumbersOf(winningTokens[k + 1..]));
      card.winningNumbers := card.winningNumbers + {n};
    }
    assert winningTokens[|winningTokens|..] == [];
    var ownTokens := SplitWhitespace(own);
    assert ownTokens[0..] == ownTokens;
    JoinedEmpty(NumbersOf(ownTokens));
    for k := 0 to |ownTokens|
      invariant fresh(card) && card.id == id.value && Ok(card.winningNumbers) == NumbersOf(winningTokens)
      invariant NumbersOf(ownTokens) == Joined(card.ownNumbers, NumbersOf(ownTokens[k..]))
    {
      NumbersStep(ownTokens, k);
      var number := ParseUnsigned(ownTokens[k], U32Limit);
      if number.None? {
        return Panic(UnwrapErr);
      }
      var n: U32 := number.value;
      JoinedUnion(card.ownNumbers, n, NumbersOf(ownTokens[k + 1..]));
      card.ownNumbers := card.ownNumbers + {n};
    }
    assert ownTokens[|ownTokens|..] == [];
    return Ok(card);
  }

  // ---------------------------------------------------------------------
  // What the parser reads

  /** The tokens parse exactly when each of them is a `u32`, and then
      the set holds the number of every token and nothing else: a number
      written twice is held once. */
  lemma {:induction false} NumbersMeaning(tokens: seq<string>)
    ensures NumbersOf(tokens).Ok? <==> forall t | t in tokens :: ParseUnsigned(t, U32Limit).Some?
    ensures NumbersOf(tokens).Panic? ==> NumbersOf(tokens).reason == UnwrapErr
    ensures NumbersOf(tokens).Ok? ==> forall n: U32 :: n in NumbersOf(tokens).value <==>
      exists t | t in tokens :: ParseUnsigned(t, U32Limit) == Some(n as nat)
    decreases |tokens|
  {
    if |tokens| > 0 {
      NumbersMeaning(tokens[1..]);
      assert tokens == [tokens[0]] + tokens[1..];
    }
  }

  /** The numbers written in decimal. */
  function Decimals(numbers: seq<U32>): (r: seq<string>)
    ensures |r| == |numbers|
  {
    seq(|numbers|, i requires 0 <= i < |numbers| => Decimal(numbers[i]))
  }

  /** The numbers written in decimal with one space between them. */
  function NumbersText(numbers: seq<U32>): string {
    JoinSpaced(Decimals(numbers))
  }

  /** A card written out: "Card", padding, the id, ": ", the winning
      numbers, " | " and the card's own numbers. */
  function CardText(id: U32, pad: string, winning: seq<U32>, own: seq<U32>): string {
    "Card" + pad + Decimal(id) + ": " + (NumbersText(winning) + " | " + NumbersText(own))
  }

  /** Joined decimals hold only digits and spaces. */
  lemma {:induction false} JoinedDigits(words: seq<string>)
    requires forall k | 0 <= k < |words| :: forall c | c in words[k] :: IsAsciiDigit(c)
    ensures forall c | c in JoinSpaced(words) :: c == ' ' || IsAsciiDigit(c)
    decreases |words|
  {
    if |words| > 1 {
      JoinedDigits(words[1..]);
    }
  }

  lemma NumbersTextDigits(numbers: seq<U32>)
    ensures forall c | c in NumbersText(numbers) :: c == ' ' || IsAsciiDigit(c)
  {
    JoinedDigits(Decimals(numbers));
  }

  /** The tokens of written numbers are their decimals. */
  lemma TokensOfText(numbers: seq<U32>)
    ensures SplitWhitespace(NumbersText(numbers)) == Decimals(numbers)
  {
    var words := Decimals(numbers);
    forall t | t in words ensures |t| > 0 && NoWhitespace(t) {
      var i :| 0 <= i < |words| && words[i] == t;
      assert forall c | c in t :: IsAsciiDigit(c);
    }
    SplitJoinSpaced(words);
  }

  /** Tokens that parse to the given numbers give the set of those
      numbers. */
  lemma {:induction false} NumbersOfParsed(tokens: seq<string>, numbers: seq<U32>)
    requires |tokens| == |numbers|
    requires forall i | 0 <= i < |tokens| :: ParseUnsigned(tokens[i], U32Limit) == Some(numbers[i] as nat)
    ensures NumbersOf(tokens) == Ok(Ranking.Elements(numbers))
    decreases |tokens|
  {
    if |tokens| > 0 {
      NumbersOfParsed(tokens[1..], numbers[1..]);
      var rest := Ranking.Elements(numbers[1..]);
      assert ParseUnsigned(tokens[0], U32Limit) == Some(numbers[0] as nat);
      assert NumbersOf(tokens[1..]) == Ok(rest);
      assert NumbersOf(tokens) == Ok({numbers[0]} + rest);
      assert Ranking.Elements(numbers) == {numbers[0]} + rest;
    } else {
      assert Ranking.Elements(numbers) == {};
    }
  }

  /** Decimals parse back to their numbers. */
  lemma NumbersOfDecimals(numbers: seq<U32>)
    ensures NumbersOf(Decimals(numbers)) == Ok(Ranking.Elements(numbers))
  {
    var words := Decimals(numbers);
    forall i | 0 <= i < |words| ensures ParseUnsigned(words[i], U32Limit) == Some(numbers[i] as nat) {
      ParseDecimal(numbers[i], U32Limit);
    }
    NumbersOfParsed(words, numbers);
  }

  /** The text after the card number splits at the separator before
      the card's own numbers when they hold no `|`. */
  lemma SeparatorOfText(winning: string, own: string)
    requires '\n' !in winning && '\n' !in own && '|' !in own
    ensures var rest := winning + " | " + own;
      LastBar(rest, |rest|) == Some(|winning|) && rest[..|winning|] == winning && rest[|winning| + 3..] == own
  {
    var rest := winning + " | " + own;
    var p := |winning|;
    assert rest[..p] == winning && rest[p + 3..] == own;
    assert BarAt(rest, p);
    forall b | p < b < |rest| ensures !BarAt(rest, b) {
      if b + 3 <= |rest| {
        if b == p + 1 {
          assert rest[b + 1] == ' ';
        } else {
          assert rest[b + 1] == own[b + 1 - (p + 3)] && own[b + 1 - (p + 3)] in own;
        }
      }
    }
    LastBarFinds(rest, p, |rest|);
  }

  /** "Card", padding, a number and ": " lead into the rest of the
      header. */
  lemma PrefixOfText(pad: string, digits: string, rest: string)
    requires |pad| > 0 && Blank(pad)
    requires |digits| > 0 && forall c | c in digits :: IsAsciiDigit(c)
    ensures CardHeader("Card" + pad + digits + ": " + rest) ==
      match LastBar(rest, |rest|)
      case Some(p) => Some((digits, rest[..p], rest[p + 3..]))
      case None => None
  {
    HeaderSlices(pad, digits, rest);
    HeaderOfSlices("Card" + pad + digits + ": " + rest, pad, digits, rest);
  }

  /** The header of a line known only by where its pieces sit. */
  lemma HeaderOfSlices(line: string, pad: string, digits: string, rest: string)
    requires |pad| > 0 && Blank(pad)
    requires |digits| > 0 && forall c | c in digits :: IsAsciiDigit(c)
    requires var w, q := 4 + |pad|, 4 + |pad| + |digits|;
      && q + 2 <= |line| && line[..4] == "Card" && line[4..w] == pad && line[w..q] == digits
      && line[q] == ':' && line[q + 1] == ' ' && line[q + 2..] == rest
    ensures CardHeader(line) ==
      match LastBar(rest, |rest|)
      case Some(p) => Some((digits, rest[..p], rest[p + 3..]))
      case None => None
  {
    var w, q := 4 + |pad|, 4 + |pad| + |digits|;
    HeaderRuns(line, pad, digits);
    assert IsWhitespace(line[q + 1]);
    CardHeaderAt(line, w, q);
    assert line[w..q] == digits && line[q + 2..] == rest;
  }

  /** The padding and the id of such a line are the runs the regex
      takes. */
  lemma HeaderRuns(line: string, pad: string, digits: string)
    requires |pad| > 0 && Blank(pad)
    requires |digits| > 0 && forall c | c in digits :: IsAsciiDigit(c)
    requires var w, q := 4 + |pad|, 4 + |pad| + |digits|;
      && q < |line| && line[4..w] == pad && line[w..q] == digits && line[q] == ':'
    ensures WhitespaceRunEnd(line, 4) == 4 + |pad|
    ensures DigitRunEnd(line, 4 + |pad|) == 4 + |pad| + |digits|
  {
    var w, q := 4 + |pad|, 4 + |pad| + |digits|;
    assert line[w] == digits[0] && digits[0] in digits;
    PadRun(line, w);
    DigitsRun(line, w, q);
  }

  /** Where "Card", the padding, the number, ": " and the rest sit in
      the line they make up. */
  lemma HeaderSlices(pad: string, digits: string, rest: string)
    ensures var line, w, q := "Card" + pad + digits + ": " + rest, 4 + |pad|, 4 + |pad| + |digits|;
      && line[..4] == "Card" && line[4..w] == pad && line[w..q] == digits
      && line[q] == ':' && line[q + 1] == ' ' && line[q + 2..] == rest
  {
    var head := "Card" + pad + digits;
    var line := head + ": " + rest;
    var w, q := 4 + |pad|, 4 + |pad| + |digits|;
    assert line[..q] == head;
    assert head[..4] == "Card";
    assert head[4..w] == pad;
    assert head[w..q] == digits;
    assert line[q..] == ": " + rest;
  }

  /** The header once the padding and the id are found: the rest splits
      at its last separator. */
  lemma CardHeaderAt(line: string, w: nat, q: nat)
    requires 4 < w < q && q + 2 <= |line| && line[..4] == "Card"
    requires WhitespaceRunEnd(line, 4) == w && DigitRunEnd(line, w) == q
    requires line[q] == ':' && IsWhitespace(line[q + 1])
    ensures var rest := line[q + 2..];
      CardHeader(line) ==
        match LastBar(rest, |rest|)
        case Some(p) => Some((line[w..q], rest[..p], rest[p + 3..]))
        case None => None
  {
  }

  /** The padding after "Card" is the whole run of whitespace there. */
  lemma PadRun(line: string, w: nat)
    requires 4 < w < |line| && Blank(line[4..w]) && !IsWhitespace(line[w])
    ensures WhitespaceRunEnd(line, 4) == w
  {
    forall k | 4 <= k < w ensures IsWhitespace(line[k]) {
      assert line[k] == line[4..w][k - 4];
    }
    WhitespaceRunEndsAt(line, 4, w);
  }

  /** The digits of the id are the whole run of digits after the
      padding. */
  lemma DigitsRun(line: string, w: nat, q: nat)
    requires w < q < |line| && !IsDecimalDigit(line[q])
    requires forall c | c in line[w..q] :: IsAsciiDigit(c)
    ensures DigitRunEnd(line, w) == q
  {
    forall k | w <= k < q ensures IsDecimalDigit(line[k]) {
      assert line[k] == line[w..q][k - w] && line[w..q][k - w] in line[w..q];
    }
    RunEndsAt(line, w, q);
  }

  /** The header of a written card gives its three parts back. */
  lemma HeaderOfText(id: U32, pad: string, winning: string, own: string)
    requires |pad| > 0 && Blank(pad)
    requires '\n' !in winning && '\n' !in own && '|' !in own
    ensures CardHeader("Card" + pad + Decimal(id) + ": " + (winning + " | " + own)) == Some((Decimal(id), winning, own))
  {
    SeparatorOfText(winning, own);
    PrefixOfText(pad, Decimal(id), winning + " | " + own);
  }

  /** The separator found is one, and no later one below `p` exists;
      without a result there is none below `p`. */
  lemma {:induction false} LastBarMeaning(rest: string, p: nat)
    ensures LastBar(rest, p).Some? ==> var b := LastBar(rest, p).value;
      b < p && BarAt(rest, b) && forall q | b < q < p :: !BarAt(rest, q)
    ensures LastBar(rest, p).None? ==> forall q | 0 <= q < p :: !BarAt(rest, q)
  {
    if p > 0 && !BarAt(rest, p - 1) {
      LastBarMeaning(rest, p - 1);
    }
  }

  /** The last separator is found when none follows it. */
  lemma {:induction false} LastBarFinds(rest: string, p: nat, top: nat)
    requires p < top && BarAt(rest, p) && forall b | p < b < top :: !BarAt(rest, b)
    ensures LastBar(rest, top) == Some(p)
    decreases top
  {
    if top - 1 != p {
      LastBarFinds(rest, p, top - 1);
    }
  }

  /** A card written out reads back as its id and the sets of its
      numbers. */
  lemma CardRoundTrip(id: U32, pad: string, winning: seq<U32>, own: seq<U32>)
    requires |pad| > 0 && Blank(pad)
    ensures CardOf(CardText(id, pad, winning, own)) == Ok((id, Ranking.Elements(winning), Ranking.Elements(own)))
  {
    NumbersTextDigits(winning);
    NumbersTextDigits(own);
    HeaderOfText(id, pad, NumbersText(winning), NumbersText(own));
    ParseDecimal(id, U32Limit);
    TokensOfText(winning);
    TokensOfText(own);
    NumbersOfDecimals(winning);
    NumbersOfDecimals(own);
  }

  /** A line that does not start with "Card" panics. */
  lemma NotACardPanics(line: string)
    requires |line| < 4 || line[..4] != "Card"
    ensures CardOf(line) == Panic(UnwrapNone)
  {
  }

  /** A winning token that is not a `u32` panics. */
  lemma BadNumberPanics(id: U32, pad: string, winning: string, own: seq<U32>, t: string)
    requires |pad| > 0 && Blank(pad) && '\n' !in winning
    requires t in SplitWhitespace(winning) && ParseUnsigned(t, U32Limit).None?
    ensures CardOf("Card" + pad + Decimal(id) + ": " + (winning + " | " + NumbersText(own))) == Panic(UnwrapErr)
  {
    NumbersTextDigits(own);
    HeaderOfText(id, pad, winning, NumbersText(own));
    ParseDecimal(id, U32Limit);
    NumbersMeaning(SplitWhitespace(winning));
  }

  /** The first card of the puzzle's example, written with single spaces:
      four of its numbers win, for 8 points. */
  lemma ExampleCard(winning: seq<U32>, own: seq<U32>)
    requires winning == [41, 48, 83, 86, 17] && own == [83, 86, 6, 31, 17, 9, 48, 53]
    ensures CardOf(CardText(1, " ", winning, own)) == Ok((1, Ranking.Elements(winning), Ranking.Elements(own)))
    ensures Matches(Ranking.Elements(winning), Ranking.Elements(own)) == 4 && Points(4) == Ok(8)
  {
    CardRoundTrip(1, " ", winning, own);
    ExampleSets(winning, own);
    ExampleCommon(Ranking.Elements(winning), Ranking.Elements(own));
  }

  lemma ExampleSets(winning: seq<U32>, own: seq<U32>)
    requires winning == [41, 48, 83, 86, 17] && own == [83, 86, 6, 31, 17, 9, 48, 53]
    ensures Ranking.Elements(winning) == {41, 48, 83, 86, 17}
    ensures Ranking.Elements(own) == {83, 86, 6, 31, 17, 9, 48, 53}
  {
  }

  lemma ExampleCommon(winning: set<U32>, own: set<U32>)
    requires winning == {41, 48, 83, 86, 17} && own == {83, 86, 6, 31, 17, 9, 48, 53}
    ensures |winning * own| == 4
  {
    assert winning * own == {48, 83, 86, 17};
  }

  /** A winning number written twice counts once. */
  lemma ExampleDuplicate(winning: seq<U32>, own: seq<U32>)
    requires winning == [5, 5, 7] && own == [5]
    ensures CardOf(CardText(2, "  ", winning, own)) == Ok((2, Ranking.Elements(winning), Ranking.Elements(own)))
    ensures Ranking.Elements(winning) == {5, 7} && Matches(Ranking.Elements(winning), Ranking.Elements(own)) == 1 && Points(1) == Ok(1)
  {
    CardRoundTrip(2, "  ", winning, own);
    DuplicateSets(winning, own);
  }

  lemma DuplicateSets(winning: seq<U32>, own: seq<U32>)
    requires winning == [5, 5, 7] && own == [5]
    ensures Ranking.Elements(winning) == {5, 7} && |Ranking.Elements(winning) * Ranking.Elements(own)| == 1
  {
    assert Ranking.Elements(own) == {5};
    assert Ranking.Elements(winning) * Ranking.Elements(own) == {5};
  }
}
