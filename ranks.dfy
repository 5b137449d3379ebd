/** The earlier Camel Cards engine of src/puzzle7/camelcards.rs. A card is
    a `Rank` enum whose discriminants run from 2 (`Two`) to 14 (`A`); the
    hand keeps its cards in input order and the type `classify` gives
    them. Its `classify` indexes its 13 counters by the raw discriminant,
    which is out of bounds for `K` and `A`; `ClassifyAsWritten` models that,
    `Classify` the evidently intended counter `discriminant - 2`, which is
    the counting of day7/src/bin/camelcards.rs. */
module RankCards {
  import opened Outcomes
  import opened Ranking
  import CamelCards

  datatype Rank = Two | Three | Four | Five | Six | Seven | Eight | Nine | T | J | Q | K | A

  /** The explicit discriminants: `Two = 2`, the rest counting up. */
  function Discriminant(r: Rank): (v: CamelCards.Card)
    ensures r == Two <==> v == 2
    ensures r == A <==> v == 14
  {
    match r
    case Two => 2
    case Three => 3
    case Four => 4
    case Five => 5
    case Six => 6
    case Seven => 7
    case Eight => 8
    case Nine => 9
    case T => 10
    case J => 11
    case Q => 12
    case K => 13
    case A => 14
  }

  /** `Rank::from`. */
  function RankFrom(value: nat): Result<Rank> {
    match value
    case 2 => Ok(Two)
    case 3 => Ok(Three)
    case 4 => Ok(Four)
    case 5 => Ok(Five)
    case 6 => Ok(Six)
    case 7 => Ok(Seven)
    case 8 => Ok(Eight)
    case 9 => Ok(Nine)
    case 10 => Ok(T)
    case 11 => Ok(J)
    case 12 => Ok(Q)
    case 13 => Ok(K)
    case 14 => Ok(A)
    case _ => Panic("Invalid rank value")
  }

  /** `Rank::from` inverts the discriminant and accepts nothing else. */
  lemma RankFromDiscriminant(r: Rank, value: nat)
    ensures RankFrom(Discriminant(r)) == Ok(r)
    ensures RankFrom(value).Ok? <==> 2 <= value <= 14
    ensures RankFrom(value).Ok? ==> Discriminant(RankFrom(value).value) == value
  {
  }

  /** `Rank::from_str`. */
  function RankFromStr(value: string): Result<Rank> {
    match value
    case "2" => Ok(Two)
    case "3" => Ok(Three)
    case "4" => Ok(Four)
    case "5" => Ok(Five)
    case "6" => Ok(Six)
    case "7" => Ok(Seven)
    case "8" => Ok(Eight)
    case "9" => Ok(Nine)
    case "T" => Ok(T)
    case "J" => Ok(J)
    case "Q" => Ok(Q)
    case "K" => Ok(K)
    case "A" => Ok(A)
    case _ => Panic("Invalid rank value")
  }

  /** A rank symbol means the same rank as in the later engine: the two
      parsers accept the same strings and agree on the value. */
  lemma RankFromStrAgrees(value: string)
    ensures RankFromStr(value).Ok? <==> CamelCards.CardFromStr(value).Ok?
    ensures RankFromStr(value).Ok? ==>
      Ok(Discriminant(RankFromStr(value).value)) == CamelCards.CardFromStr(value)
  {
  }

  /** The card values the later engine works on. */
  function Values(cards: seq<Rank>): (r: seq<CamelCards.Card>)
    ensures |r| == |cards|
    ensures forall k | 0 <= k < |cards| :: r[k] == Discriminant(cards[k])
  {
    seq(|cards|, k requires 0 <= k < |cards| => Discriminant(cards[k]))
  }

  lemma DiscriminantInjective(r: Rank, s: Rank)
    ensures Discriminant(r) == Discriminant(s) <==> r == s
  {
  }

  /** Counting ranks and counting their values is the same. */
  lemma {:induction false} CountValues(cards: seq<Rank>, r: Rank)
    ensures Count(Values(cards), Discriminant(r)) == Count(cards, r)
    decreases |cards|
  {
    if |cards| != 0 {
      var init := cards[..|cards| - 1];
      var last := cards[|cards| - 1];
      CountValues(init, r);
      assert cards == init + [last];
      assert Values(cards) == Values(init) + [Discriminant(last)];
      DiscriminantInjective(last, r);
    }
  }

  /** A multiplicity occurs among the ranks exactly when it occurs among
      their values. */
  lemma HasCountValues(cards: seq<Rank>, k: nat)
    ensures HasCount(Values(cards), k) <==> HasCount(cards, k)
  {
    var values := Values(cards);
    if HasCount(values, k) {
      var v :| v in values && Count(values, v) == k;
      var i :| 0 <= i < |values| && values[i] == v;
      CountValues(cards, cards[i]);
    }
    if HasCount(cards, k) {
      var r :| r in cards && Count(cards, r) == k;
      CountValues(cards, r);
      var i :| 0 <= i < |cards| && cards[i] == r;
      assert Discriminant(r) in values;
    }
  }

  /** So do two different pairs. */
  lemma HasTwoPairsValues(cards: seq<Rank>)
    ensures HasTwoPairs(Values(cards)) <==> HasTwoPairs(cards)
  {
    var values := Values(cards);
    if HasTwoPairs(values) {
      var v, w :| v in values && w in values && v != w && Count(values, v) == 2 && Count(values, w) == 2;
      var i :| 0 <= i < |values| && values[i] == v;
      var j :| 0 <= j < |values| && values[j] == w;
      CountValues(cards, cards[i]);
      CountValues(cards, cards[j]);
      assert cards[i] in cards && cards[j] in cards;
    }
    if HasTwoPairs(cards) {
      var r, s :| r in cards && s in cards && r != s && Count(cards, r) == 2 && Count(cards, s) == 2;
      CountValues(cards, r);
      CountValues(cards, s);
      DiscriminantInjective(r, s);
      var i :| 0 <= i < |cards| && cards[i] == r;
      var j :| 0 <= j < |cards| && cards[j] == s;
      assert Discriminant(r) in values && Discriminant(s) in values;
    }
  }

  /** Hence the hand type by the rules of the game is the same for the
      ranks and for their values. */
  lemma PatternTypeValues(cards: seq<Rank>)
    ensures PatternType(Values(cards)) == PatternType(cards)
  {
    HasCountValues(cards, 5);
    HasCountValues(cards, 4);
    HasCountValues(cards, 3);
    HasCountValues(cards, 2);
    HasTwoPairsValues(cards);
  }

  // ---------------------------------------------------------------------
  // `classify` as written: counters indexed by the discriminant

  /** The 13 counters as the source fills them: counter `d` counts the
      cards of discriminant `d`, so counters 0 and 1 stay empty and ranks
      `K` and `A` have no counter. */
  function RawSlots(values: seq<int>): (r: seq<nat>)
    ensures |r| == 13
  {
    seq(13, d requires 0 <= d < 13 => Count(values, d))
  }

  /** What the source's `classify` returns. It counts the cards strongest
      first, so a `K` or an `A` is the first card it counts and indexing
      its counter panics before any counter can overflow. */
  function ClassifyAsWrittenSpec(cards: seq<Rank>): Result<HandType> {
    if K in cards || A in cards then Panic(OutOfBounds)
    else
      var (first, second) := CamelCards.TopTwo(RawSlots(Values(cards)));
      if first > 255 then Panic("attempt to add with overflow")
      else CamelCards.TypeOfCounts(first, second)
  }

  /** A descending list of values holding a `K` or an `A` starts with one. */
  lemma DescendingStartsHigh(ordered: seq<int>, n: nat)
    requires n < |ordered| && ordered[n] >= 13
    requires forall i, j | 0 <= i < j < |ordered| :: ordered[i] >= ordered[j]
    ensures ordered[0] >= 13
  {
    if n != 0 {
      assert ordered[0] >= ordered[n];
    }
  }

  /** The sorted values hold a `K` or an `A` exactly when the hand does. */
  lemma HighRankOrdered(cards: seq<Rank>, ordered: seq<int>)
    requires multiset(ordered) == multiset(Values(cards))
    ensures K in cards || A in cards <==> exists i | 0 <= i < |ordered| :: ordered[i] >= 13
    ensures forall i | 0 <= i < |ordered| :: 2 <= ordered[i] <= 14
  {
    var values := Values(cards);
    forall i | 0 <= i < |ordered| ensures 2 <= ordered[i] <= 14 {
      assert ordered[i] in multiset(values);
    }
    if K in cards || A in cards {
      var i :| 0 <= i < |cards| && cards[i] in {K, A};
      assert values[i] in multiset(ordered);
    }
    if i :| 0 <= i < |ordered| && ordered[i] >= 13 {
      assert ordered[i] in multiset(values);
      var k :| 0 <= k < |values| && values[k] == ordered[i];
      assert cards[k] == K || cards[k] == A;
    }
  }

  /** A counter that already holds 255 when one more card arrives means
      the largest count is above 255. */
  lemma RawSlotsOverflow(values: seq<int>, ordered: seq<int>, d: int)
    requires multiset(ordered) == multiset(values)
    requires 0 <= d < 13 && Count(ordered, d) > 255
    ensures CamelCards.TopTwo(RawSlots(values)).0 > 255
  {
    CamelCards.TopTwoCorrect(RawSlots(values));
    assert RawSlots(values)[d] == Count(values, d);
  }

  /** `Hand::classify` as written: sort the cards, reverse them, count each
      into `indexes[discriminant]`, then match on the two largest counts. */
  method ClassifyAsWritten(cards: seq<Rank>) returns (r: Result<HandType>)
    ensures r == ClassifyAsWrittenSpec(cards)
  {
    var values: seq<int> := Values(cards);
    var ordered := Reversed(SortBy<int>(values, CompareInt));
    SortedDescending(values);
    HighRankOrdered(cards, ordered);
    var counted := CountByDiscriminant(ordered);
    if counted.Panic? {
      assert Panic(counted.reason) == ClassifyAsWrittenSpec(cards) by {
        if !(K in cards || A in cards) {
          var d :| 0 <= d < 13 && Count(ordered, d) > 255;
          RawSlotsOverflow(values, ordered, d);
        }
      }
      return Panic(counted.reason);
    }
    var indexes := counted.value;
    assert indexes == RawSlots(values) by {
      assert forall d | 0 <= d < 13 :: Count(ordered, d) == Count(values, d);
    }
    var first, second := CamelCards.LargestTwo(indexes);
    r := CamelCards.TypeOfCounts(first, second);
  }

  /** The counting loop of the as-written `classify` over the values
      sorted strongest first: `indexes[value] += 1` on a `Vec<u8>` of 13
      counters. */
  method CountByDiscriminant(ordered: seq<int>) returns (r: Result<seq<nat>>)
    requires forall i, j | 0 <= i < j < |ordered| :: ordered[i] >= ordered[j]
    requires forall i | 0 <= i < |ordered| :: ordered[i] >= 0
    ensures (exists i | 0 <= i < |ordered| :: ordered[i] >= 13) ==> r == Panic(OutOfBounds)
    ensures r.Panic? && !(exists i | 0 <= i < |ordered| :: ordered[i] >= 13) ==>
      && r == Panic("attempt to add with overflow")
      && exists d | 0 <= d < 13 :: Count(ordered, d) > 255
    ensures r.Ok? ==> r.value == RawSlots(ordered) && forall d | 0 <= d < 13 :: r.value[d] <= 255
  {
    var indexes := new nat[13](_ => 0);
    for n := 0 to |ordered|
      invariant forall d | 0 <= d < 13 :: indexes[d] == Count(ordered[..n], d) <= 255
      invariant n > 0 ==> ordered[0] < 13
    {
      var slot := ordered[n];
      if slot >= 13 {
        assert n == 0;
        return Panic(OutOfBounds);
      }
      CountGrows(ordered, n);
      if indexes[slot] == 255 {
        CountPrefixAtMost(ordered, n + 1, slot);
        DescendingBelow(ordered);
        return Panic("attempt to add with overflow");
      }
      indexes[slot] := indexes[slot] + 1;
      assert forall d | 0 <= d < 13 :: indexes[d] == Count(ordered[..n], d) + OneIf(d == slot);
    }
    assert ordered[..|ordered|] == ordered;
    DescendingBelow(ordered);
    r := Ok(indexes[..]);
  }

  /** One more element adds one to its own count and nothing to the others. */
  lemma CountGrows(s: seq<int>, n: nat)
    requires n < |s|
    ensures forall d :: Count(s[..n + 1], d) == Count(s[..n], d) + OneIf(d == s[n])
  {
    assert s[..n + 1] == s[..n] + [s[n]];
  }

  /** A prefix holds no more copies of a value than the whole sequence. */
  lemma CountPrefixAtMost(s: seq<int>, n: nat, d: int)
    requires n <= |s|
    ensures Count(s[..n], d) <= Count(s, d)
  {
    assert s == s[..n] + s[n..];
  }

  /** Every value of a descending sequence is at most its first. */
  lemma DescendingBelow(ordered: seq<int>)
    requires forall i, j | 0 <= i < j < |ordered| :: ordered[i] >= ordered[j]
    requires |ordered| > 0 ==> ordered[0] < 13
    ensures forall i | 0 <= i < |ordered| :: ordered[i] < 13
  {
    forall i | 0 <= i < |ordered| ensures ordered[i] < 13 {
      assert ordered[i] <= ordered[0];
    }
  }

  /** Without a `K` or an `A` the raw counters are the later engine's
      counters moved two places along (counter `d` holds value `d`, not
      `d + 2`), and the top two counts do not depend on where the counts
      sit. */
  lemma RawSlotsRotated(cards: seq<Rank>)
    requires K !in cards && A !in cards
    ensures forall d | 0 <= d < 13 :: RawSlots(Values(cards))[d] == CamelCards.Slots(Values(cards))[Behind(d)]
  {
    var values: seq<int> := Values(cards);
    forall d | 0 <= d < 13
      ensures RawSlots(values)[d] == CamelCards.Slots(values)[Behind(d)]
    {
      if d < 2 {
        assert 13 + d !in values by {
          forall i | 0 <= i < |values| ensures values[i] != 13 + d {
            assert cards[i] in cards;
          }
        }
        assert Count(values, d) == 0;
      }
    }
  }

  /** The counter two places behind `d`, going round the 13. */
  function Behind(d: nat): nat
    requires d < 13
  {
    if d >= 2 then d - 2 else d + 11
  }

  /** The top two of a sequence of counts are those of its rotation. */
  lemma TopTwoRotated(xs: seq<nat>, ys: seq<nat>, first: nat, second: nat)
    requires |xs| == |ys| == 13
    requires forall d | 0 <= d < 13 :: xs[d] == ys[Behind(d)]
    requires CamelCards.IsTopTwo(ys, first, second)
    ensures CamelCards.IsTopTwo(xs, first, second)
  {
    var i, j :| CamelCards.TopAt(ys, i, j) && ys[i] == first && ys[j] == second;
    var i' := if i < 11 then i + 2 else i - 11;
    var j' := if j < 11 then j + 2 else j - 11;
    assert Behind(i') == i && Behind(j') == j;
    assert xs[i'] == first && xs[j'] == second;
    forall k | 0 <= k < 13 ensures xs[k] <= first && (k != i' ==> xs[k] <= second) {
      assert xs[k] == ys[Behind(k)];
    }
    assert CamelCards.TopAt(xs, i', j');
  }

  /** For hands without a `K` or an `A` the source's `classify` agrees with
      the corrected one; with one it panics, whatever the hand. */
  lemma ClassifyAsWrittenAgrees(cards: seq<Rank>)
    ensures K !in cards && A !in cards ==> ClassifyAsWrittenSpec(cards) == ClassifySpec(cards)
    ensures K in cards || A in cards ==> ClassifyAsWrittenSpec(cards) == Panic(OutOfBounds)
  {
    if K !in cards && A !in cards {
      var values := Values(cards);
      var ys := CamelCards.Slots(values);
      var (first, second) := CamelCards.TopTwo(ys);
      CamelCards.TopTwoCorrect(ys);
      RawSlotsRotated(cards);
      TopTwoRotated(RawSlots(values), ys, first, second);
      CamelCards.TopTwoUnique(RawSlots(values), first, second);
    }
  }

  /** The source's own test hand "AAAAA" makes the as-written `classify`
      panic, where the corrected one finds five of a kind. */
  lemma AceHandPanics()
    ensures ClassifyAsWrittenSpec([A, A, A, A, A]) == Panic(OutOfBounds)
    ensures ClassifySpec([A, A, A, A, A]) == Ok(FiveOfAKind)
  {
    ClassifyMeaning([A, A, A, A, A]);
    assert Count([A, A, A, A, A], A) == 5;
  }

  // ---------------------------------------------------------------------
  // `classify` corrected: counter `discriminant - 2`

  /** The corrected `classify`: the counting of the later engine on the
      card values. */
  function ClassifySpec(cards: seq<Rank>): Result<HandType> {
    CamelCards.ClassifySpec(Values(cards))
  }

  /** The corrected `Hand::classify`, counting into `indexes[discriminant - 2]`. */
  method Classify(cards: seq<Rank>) returns (r: Result<HandType>)
    ensures r == ClassifySpec(cards)
  {
    r := CamelCards.Classify(Values(cards));
  }

  /** The corrected `classify` gives one to five cards their hand type by
      the rules of the game, and panics on an empty hand. */
  lemma ClassifyMeaning(cards: seq<Rank>)
    ensures 1 <= |cards| <= 5 ==> ClassifySpec(cards) == Ok(PatternType(cards))
    ensures |cards| == 0 ==> ClassifySpec(cards).Panic?
  {
    CamelCards.ClassifyPanics(Values(cards));
    if 1 <= |cards| <= 5 {
      CamelCards.ClassifyMeaning(Values(cards));
      PatternTypeValues(cards);
    }
  }

  // ---------------------------------------------------------------------
  // Hands

  datatype Hand = Hand(cards: seq<Rank>, handType: HandType)

  /** `Hand::new`, with the corrected `classify`. */
  function HandOf(cards: seq<Rank>): Result<Hand> {
    var t :- ClassifySpec(cards);
    Ok(Hand(cards, t))
  }

  method NewHand(cards: seq<Rank>) returns (r: Result<Hand>)
    ensures r == HandOf(cards)
    ensures 1 <= |cards| <= 5 ==> r == Ok(Hand(cards, PatternType(cards)))
  {
    ClassifyMeaning(cards);
    var handType := Classify(cards);
    if handType.Panic? {
      return Panic(handType.reason);
    }
    r := Ok(Hand(cards, handType.value));
  }

  /** `Hand::new` as written, with the source's `classify`. */
  function HandOfAsWritten(cards: seq<Rank>): Result<Hand> {
    var t :- ClassifyAsWrittenSpec(cards);
    Ok(Hand(cards, t))
  }

  /** The source's `Hand::new` panics on every hand holding a `K` or an
      `A`, and otherwise builds the hand the corrected one builds. */
  method NewHandAsWritten(cards: seq<Rank>) returns (r: Result<Hand>)
    ensures r.Panic? <==> ClassifyAsWrittenSpec(cards).Panic?
    ensures K in cards || A in cards ==> r == Panic(OutOfBounds)
    ensures K !in cards && A !in cards ==> r == HandOf(cards)
    ensures r.Ok? ==> r.value.cards == cards
  {
    ClassifyAsWrittenAgrees(cards);
    var handType := ClassifyAsWritten(cards);
    if handType.Panic? {
      return Panic(handType.reason);
    }
    r := Ok(Hand(cards, handType.value));
  }

  /** The ranks of `Hand::from_str`, one per character. */
  function ParseRanks(hand: string): (r: Result<seq<Rank>>)
    ensures r.Ok? ==> |r.value| == |hand|
  {
    if |hand| == 0 then Ok([])
    else
      var init :- ParseRanks(hand[..|hand| - 1]);
      var rank :- RankFromStr([hand[|hand| - 1]]);
      Ok(init + [rank])
  }

  /** The ranks read are the later engine's cards, value for value. */
  lemma {:induction false} ParseRanksAgrees(hand: string)
    ensures ParseRanks(hand).Ok? <==> CamelCards.ParseCards(hand).Ok?
    ensures ParseRanks(hand).Ok? ==> Values(ParseRanks(hand).value) == CamelCards.ParseCards(hand).value
    decreases |hand|
  {
    if |hand| != 0 {
      ParseRanksAgrees(hand[..|hand| - 1]);
      RankFromStrAgrees([hand[|hand| - 1]]);
      if ParseRanks(hand).Ok? {
        var init := ParseRanks(hand[..|hand| - 1]).value;
        var rank := RankFromStr([hand[|hand| - 1]]).value;
        assert Values(init + [rank]) == Values(init) + [Discriminant(rank)];
      }
    }
  }

  function ParseHand(hand: string): Result<Hand> {
    var cards :- ParseRanks(hand);
    HandOf(cards)
  }

  /** Parsing here and in the later engine gives the same cards and the
      same hand type. */
  lemma ParseHandAgrees(hand: string)
    ensures ParseHand(hand).Ok? <==> CamelCards.ParseHand(hand).Ok?
    ensures ParseHand(hand).Ok? ==>
      && Values(ParseHand(hand).value.cards) == CamelCards.ParseHand(hand).value.cards
      && ParseHand(hand).value.handType == CamelCards.ParseHand(hand).value.handType
  {
    ParseRanksAgrees(hand);
  }

  lemma {:induction false} ParseRanksPanicPersists(hand: string, n: nat)
    requires n <= |hand| && ParseRanks(hand[..n]).Panic?
    ensures ParseRanks(hand) == ParseRanks(hand[..n])
    decreases |hand| - n
  {
    if n < |hand| {
      assert hand[..n + 1][..n] == hand[..n];
      ParseRanksPanicPersists(hand, n + 1);
    } else {
      assert hand[..n] == hand;
    }
  }

  /** `Hand::from_str` as written: the ranks, then the source's `Hand::new`. */
  function ParseHandAsWritten(hand: string): Result<Hand> {
    var cards :- ParseRanks(hand);
    HandOfAsWritten(cards)
  }

  /** Reading a hand as written agrees with the corrected reading on text
      without `K` or `A`, and panics out of bounds on text with one that
      otherwise reads. */
  lemma ParseHandAsWrittenAgrees(hand: string)
    ensures 'K' !in hand && 'A' !in hand ==> ParseHandAsWritten(hand) == ParseHand(hand)
    ensures ParseRanks(hand).Ok? && ('K' in hand || 'A' in hand) ==>
      ParseHandAsWritten(hand) == Panic(OutOfBounds)
  {
    if ParseRanks(hand).Ok? {
      var cards := ParseRanks(hand).value;
      ParseRanksSymbols(hand);
      ClassifyAsWrittenAgrees(cards);
    }
  }

  /** Each rank read is the rank of its own character. */
  lemma {:induction false} ParseRanksAt(hand: string)
    requires ParseRanks(hand).Ok?
    ensures forall i | 0 <= i < |hand| :: RankFromStr([hand[i]]) == Ok(ParseRanks(hand).value[i])
    decreases |hand|
  {
    if |hand| != 0 {
      var init := hand[..|hand| - 1];
      ParseRanksAt(init);
      forall i | 0 <= i < |hand| - 1 ensures init[i] == hand[i] {}
    }
  }

  /** A character of the text is `K` or `A` exactly when the rank read
      there is. */
  lemma ParseRanksSymbols(hand: string)
    requires ParseRanks(hand).Ok?
    ensures K in ParseRanks(hand).value <==> 'K' in hand
    ensures A in ParseRanks(hand).value <==> 'A' in hand
  {
    ParseRanksAt(hand);
    forall x: char ensures RankFromStr([x]) == Ok(K) ==> x == 'K' {
      RankOfSymbol(x);
    }
    ParseRanksSymbol(hand, K, 'K');
    forall x: char ensures RankFromStr([x]) == Ok(A) ==> x == 'A' {
      RankOfSymbol(x);
    }
    ParseRanksSymbol(hand, A, 'A');
  }

  /** Only the symbols `K` and `A` read as a king and an ace. */
  lemma RankOfSymbol(x: char)
    ensures RankFromStr([x]) == Ok(K) <==> x == 'K'
    ensures RankFromStr([x]) == Ok(A) <==> x == 'A'
  {
  }

  /** A rank that only one symbol reads as is among the ranks read exactly
      when that symbol is in the text. */
  lemma ParseRanksSymbol(hand: string, r: Rank, c: char)
    requires ParseRanks(hand).Ok?
    requires forall i | 0 <= i < |hand| :: RankFromStr([hand[i]]) == Ok(ParseRanks(hand).value[i])
    requires RankFromStr([c]) == Ok(r)
    requires forall x: char :: RankFromStr([x]) == Ok(r) ==> x == c
    ensures r in ParseRanks(hand).value <==> c in hand
  {
    var cards := ParseRanks(hand).value;
    if r in cards {
      var i :| 0 <= i < |cards| && cards[i] == r;
      assert hand[i] in hand;
    }
    if c in hand {
      var i :| 0 <= i < |hand| && hand[i] == c;
      assert cards[i] in cards;
    }
  }

  /** One character more adds its rank at the end. */
  lemma ParseRanksSnoc(hand: string, c: char)
    requires ParseRanks(hand).Ok? && RankFromStr([c]).Ok?
    ensures ParseRanks(hand + [c]) == Ok(ParseRanks(hand).value + [RankFromStr([c]).value])
  {
    var h := hand + [c];
    assert h[..|h| - 1] == hand && [h[|h| - 1]] == [c];
    var rank := RankFromStr([h[|h| - 1]]);
    assert ParseRanks(h).Ok?;
  }

  /** The test hand "AAAAA" panics through the source's `Hand::from_str`
      and reads as five of a kind once `classify` is corrected. */
  lemma AceHandFromStrPanics()
    ensures ParseHandAsWritten("AAAAA") == Panic(OutOfBounds)
    ensures ParseHand("AAAAA") == Ok(Hand([A, A, A, A, A], FiveOfAKind))
  {
    ParseRanksAces(5);
    assert seq(5, _ => 'A') == "AAAAA" && seq(5, _ => A) == [A, A, A, A, A];
    AceHandPanics();
  }

  /** A run of `A` symbols reads as as many aces. */
  lemma {:induction false} ParseRanksAces(n: nat)
    ensures ParseRanks(seq(n, _ => 'A')) == Ok(seq(n, _ => A))
  {
    if n > 0 {
      ParseRanksAces(n - 1);
      RankOfSymbol('A');
      ParseRanksSnoc(seq(n - 1, _ => 'A'), 'A');
      assert seq(n - 1, _ => 'A') + ['A'] == seq(n, _ => 'A');
      assert seq(n - 1, _ => A) + [A] == seq(n, _ => A);
    } else {
      assert seq(n, _ => 'A') == "" && seq(n, _ => A) == [];
    }
  }


  /** `Hand::from_str`: push one rank per character, then `Hand::new`. */
  method HandFromStr(hand: string) returns (r: Result<Hand>)
    ensures r == ParseHand(hand)
  {
    var cards: seq<Rank> := [];
    for n := 0 to |hand|
      invariant ParseRanks(hand[..n]) == Ok(cards)
    {
      assert hand[..n + 1][..n] == hand[..n];
      var rank := RankFromStr([hand[n]]);
      if rank.Panic? {
        assert ParseRanks(hand[..n + 1]) == Panic(rank.reason);
        ParseRanksPanicPersists(hand, n + 1);
        return Panic(rank.reason);
      }
      cards := cards + [rank.value];
    }
    assert hand[..|hand|] == hand;
    r := NewHand(cards);
  }

  /** `get_ordered_cards`, on the discriminants. */
  function OrderedCards(h: Hand): seq<int> {
    Reversed(SortBy<int>(Values(h.cards), CompareInt))
  }

  lemma OrderedCardsDescending(h: Hand)
    ensures multiset(OrderedCards(h)) == multiset(Values(h.cards))
    ensures forall i, j | 0 <= i < j < |OrderedCards(h)| :: OrderedCards(h)[i] >= OrderedCards(h)[j]
  {
    SortedDescending(Values(h.cards));
  }

  /** `Ord::cmp`: the hand type, then the first differing rank. */
  function HandCompare(a: Hand, b: Hand): Ordering {
    var typeOrder := CompareTypes(a.handType, b.handType);
    if typeOrder != Equal then typeOrder else ZipCompare(Values(a.cards), Values(b.cards))
  }

  method Cmp(a: Hand, b: Hand) returns (o: Ordering)
    ensures o == HandCompare(a, b)
  {
    var typeOrder := CompareTypes(a.handType, b.handType);
    if typeOrder != Equal {
      return typeOrder;
    }
    o := CompareZipped(Values(a.cards), Values(b.cards));
  }

  /** It orders hands exactly as the later engine orders the same cards. */
  lemma HandCompareAgrees(a: Hand, b: Hand)
    ensures HandCompare(a, b) ==
      CamelCards.HandCompare(CamelCards.Hand(Values(a.cards), a.handType), CamelCards.Hand(Values(b.cards), b.handType))
  {
  }

  /** Among hands with the same number of cards it is a total order. */
  lemma HandCompareTotal(a: Hand, b: Hand, c: Hand)
    requires |a.cards| == |b.cards| == |c.cards|
    ensures HandCompare(b, a) == HandCompare(a, b).Reverse()
    ensures HandCompare(a, b) == Equal <==> a == b
    ensures HandCompare(a, b) != Greater && HandCompare(b, c) != Greater ==> HandCompare(a, c) != Greater
  {
    ZipCompareReverse(Values(a.cards), Values(b.cards));
    ZipCompareEqualLength(Values(a.cards), Values(b.cards), Values(c.cards));
    if Values(a.cards) == Values(b.cards) {
      forall k | 0 <= k < |a.cards| ensures a.cards[k] == b.cards[k] {
        DiscriminantInjective(a.cards[k], b.cards[k]);
      }
    }
  }

  /** The derived `PartialOrd`, behind `<` and `>`: ranks first. */
  function DerivedCompare(a: Hand, b: Hand): Ordering {
    var cardOrder := LexCompare(Values(a.cards), Values(b.cards));
    if cardOrder != Equal then cardOrder else CompareTypes(a.handType, b.handType)
  }

  /** The source's ordering test, under the corrected `classify`: every
      comparison holds for `>` and `<` as the test writes them. */
  lemma OrderingExamples()
    ensures DerivedCompare(Hand([A, A, A, A, A], FiveOfAKind), Hand([T, T, T, Nine, Eight], ThreeOfAKind)) == Greater
    ensures DerivedCompare(Hand([A, A, A, A, A], FiveOfAKind), Hand([T, T, T, T, T], FiveOfAKind)) == Greater
    ensures DerivedCompare(Hand([Three, Three, Three, Three, Two], FourOfAKind), Hand([Two, A, A, A, A], FourOfAKind)) == Greater
    ensures DerivedCompare(Hand([Seven, Seven, Seven, Eight, Eight], FullHouse), Hand([Seven, Seven, Eight, Eight, Eight], FullHouse)) == Less
  {
  }
}
