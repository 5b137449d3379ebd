/** The Camel Cards hand of day7/src/bin/camelcards.rs: a `Card` is a rank
    value 2..14, a `Hand` keeps its cards in input order and the hand type
    computed once, at construction, from the multiplicities of the ranks. */
module CamelCards {
  import opened Outcomes
  import opened Ranking

  /** `Card(u8)`. Its field is private, so every card is made by `Card::from`
      or `Card::from_str` and holds a rank value 2..14. */
  type Card = v: int | 2 <= v <= 14 witness 2

  /** The rank symbols, weakest first. */
  const Symbols: string := "23456789TJQKA"

  /** `Card::from`. */
  function CardFrom(value: U8): (r: Result<Card>)
    ensures r.Ok? <==> 2 <= value <= 14
    ensures r.Ok? ==> r.value == value
  {
    if value < 2 || value > 14 then Panic("Invalid rank value") else Ok(value)
  }

  /** `Card::from_str`. */
  function CardFromStr(value: string): Result<Card> {
    match value
    case "2" => Ok(2)
    case "3" => Ok(3)
    case "4" => Ok(4)
    case "5" => Ok(5)
    case "6" => Ok(6)
    case "7" => Ok(7)
    case "8" => Ok(8)
    case "9" => Ok(9)
    case "T" => Ok(10)
    case "J" => Ok(11)
    case "Q" => Ok(12)
    case "K" => Ok(13)
    case "A" => Ok(14)
    case _ => Panic("Invalid rank value")
  }

  /** The k-th symbol is the card of value k + 2, so the values rise
      strictly along the symbols, and every other string panics. */
  lemma CardFromStrSymbols(value: string)
    ensures forall k | 0 <= k < |Symbols| :: CardFromStr([Symbols[k]]) == Ok(k + 2)
    ensures CardFromStr(value).Ok? <==> |value| == 1 && value[0] in Symbols
  {
    if |value| == 1 && value[0] in Symbols {
      var k :| 0 <= k < |Symbols| && Symbols[k] == value[0];
      assert value == [Symbols[k]];
    }
  }

  // ---------------------------------------------------------------------
  // Hands

  datatype Hand = Hand(cards: seq<Card>, handType: HandType)

  /** The 13 counters `indexes[value - 2]` that `classify` fills. */
  function Slots(cards: seq<Card>): (r: seq<nat>)
    ensures |r| == 13
  {
    seq(13, k requires 0 <= k < 13 => Count(cards, k + 2))
  }

  /** `first` and `second` are the first two counts once the counts are
      sorted in descending order: the largest, and the largest of the
      others. */
  ghost predicate IsTopTwo(xs: seq<nat>, first: nat, second: nat) {
    exists i, j | TopAt(xs, i, j) :: xs[i] == first && xs[j] == second
  }

  /** Entry `i` is a largest count and entry `j` a largest of the others. */
  ghost predicate TopAt(xs: seq<nat>, i: int, j: int) {
    && 0 <= i < |xs| && 0 <= j < |xs| && i != j
    && (forall k | 0 <= k < |xs| :: xs[k] <= xs[i])
    && (forall k | 0 <= k < |xs| && k != i :: xs[k] <= xs[j])
  }

  /** The first two entries of the counts sorted in descending order. */
  function TopTwo(xs: seq<nat>): (nat, nat)
    requires |xs| >= 2
  {
    if |xs| == 2 then
      (if xs[0] >= xs[1] then (xs[0], xs[1]) else (xs[1], xs[0]))
    else
      var (first, second) := TopTwo(xs[..|xs| - 1]);
      var x := xs[|xs| - 1];
      if x > first then (x, first)
      else if x > second then (first, x)
      else (first, second)
  }

  lemma {:induction false} TopTwoCorrect(xs: seq<nat>)
    requires |xs| >= 2
    ensures IsTopTwo(xs, TopTwo(xs).0, TopTwo(xs).1)
    decreases |xs|
  {
    var (first, second) := TopTwo(xs);
    if |xs| == 2 {
      if xs[0] >= xs[1] {
        assert TopAt(xs, 0, 1);
      } else {
        assert TopAt(xs, 1, 0);
      }
    } else {
      var init := xs[..|xs| - 1];
      var n := |xs| - 1;
      TopTwoCorrect(init);
      var i, j :| TopAt(init, i, j) && init[i] == TopTwo(init).0 && init[j] == TopTwo(init).1;
      assert forall k | 0 <= k < n :: xs[k] == init[k];
      if xs[n] > init[i] {
        assert TopAt(xs, n, i);
      } else if xs[n] > init[j] {
        assert TopAt(xs, i, n);
      } else {
        assert TopAt(xs, i, j);
      }
    }
  }

  /** The top two counts are determined by the counts alone: any pair
      meeting `IsTopTwo` is the one the selection finds. */
  lemma TopTwoUnique(xs: seq<nat>, first: nat, second: nat)
    requires |xs| >= 2 && IsTopTwo(xs, first, second)
    ensures TopTwo(xs) == (first, second)
  {
    TopTwoCorrect(xs);
    var i, j :| TopAt(xs, i, j) && xs[i] == first && xs[j] == second;
    var i', j' :| TopAt(xs, i', j') && xs[i'] == TopTwo(xs).0 && xs[j'] == TopTwo(xs).1;
    assert xs[i] <= xs[i'] && xs[i'] <= xs[i];
    if i == i' {
      assert xs[j] <= xs[j'] && xs[j'] <= xs[j];
    } else {
      assert xs[i] <= xs[j'] && xs[i'] <= xs[j];
    }
  }

  /** The match on the largest count, with the second count deciding
      between the full house and three of a kind, and between two pairs
      and one pair. */
  function TypeOfCounts(first: nat, second: nat): Result<HandType> {
    match first
    case 5 => Ok(FiveOfAKind)
    case 4 => Ok(FourOfAKind)
    case 3 => if second == 2 then Ok(FullHouse) else Ok(ThreeOfAKind)
    case 2 => if second == 2 then Ok(TwoPair) else Ok(OnePair)
    case 1 => Ok(HighCard)
    case _ => Panic("Invalid card count")
  }

  /** What `Hand::classify` returns. The counters are `u8`, so a rank
      seen more than 255 times overflows (a panic in a debug build) before
      the match is reached. */
  function ClassifySpec(cards: seq<Card>): Result<HandType> {
    var (first, second) := TopTwo(Slots(cards));
    if first > 255 then Panic("attempt to add with overflow")
    else TypeOfCounts(first, second)
  }

  /** `Hand::classify`: count each rank into 13 slots, then match on the
      first two counts of the descending order. The source counts the
      cards after sorting them, which leaves the counts unchanged
      (`ClassifyIgnoresOrder`), so the loop here takes them as given. */
  method Classify(cards: seq<Card>) returns (r: Result<HandType>)
    ensures r == ClassifySpec(cards)
  {
    var indexes := new nat[13](_ => 0);
    assert multiset(cards[..0]) == multiset{};
    for n := 0 to |cards|
      invariant forall k | 0 <= k < 13 :: indexes[k] == Count(cards[..n], k + 2) <= 255
    {
      assert cards[..n + 1] == cards[..n] + [cards[n]];
      var slot := cards[n] as int - 2;
      if indexes[slot] == 255 {
        assert TopTwo(Slots(cards)).0 > 255 by {
          assert cards == cards[..n + 1] + cards[n + 1..];
          assert Count(cards, cards[n]) >= 256;
          TopTwoBounds(cards, cards[n]);
        }
        return Panic("attempt to add with overflow");
      }
      indexes[slot] := indexes[slot] + 1;
    }
    assert cards[..|cards|] == cards;
    assert indexes[..] == Slots(cards);
    var first, second := LargestTwo(indexes[..]);
    r := TypeOfCounts(first, second);
  }

  /** No card occurs more often than the largest count the selection finds. */
  lemma TopTwoBounds(cards: seq<Card>, v: Card)
    ensures Count(cards, v) <= TopTwo(Slots(cards)).0
  {
    TopTwoCorrect(Slots(cards));
    SlotsCover(cards, TopTwo(Slots(cards)).0, TopTwo(Slots(cards)).1);
  }

  /** The first two entries of the counts sorted in descending order,
      found in one pass that keeps the two largest seen so far. */
  method LargestTwo(counts: seq<nat>) returns (first: nat, second: nat)
    requires |counts| >= 2
    ensures (first, second) == TopTwo(counts)
    ensures IsTopTwo(counts, first, second)
  {
    TopTwoCorrect(counts);
    first, second := counts[0], counts[1];
    if first < second {
      first, second := second, first;
    }
    for k := 2 to |counts|
      invariant (first, second) == TopTwo(counts[..k])
    {
      assert counts[..k + 1][..k] == counts[..k];
      var count := counts[k];
      if count > first {
        first, second := count, first;
      } else if count > second {
        second := count;
      }
    }
    assert counts[..|counts|] == counts;
  }

  /** The counters see every card: a card of value v sits in slot v - 2,
      and the slots hold the largest count. */
  lemma SlotsCover(cards: seq<Card>, first: nat, second: nat)
    requires IsTopTwo(Slots(cards), first, second)
    ensures forall v: Card :: Count(cards, v) <= first
    ensures exists v: Card :: Count(cards, v) == first
  {
    var xs := Slots(cards);
    var i, j :| TopAt(xs, i, j) && xs[i] == first && xs[j] == second;
    forall v: Card ensures Count(cards, v) <= first {
      assert xs[v - 2] == Count(cards, v);
    }
    assert Count(cards, i + 2) == first;
  }

  /** `classify` panics exactly when the largest count is 0 (no cards) or
      above 5. */
  lemma ClassifyPanics(cards: seq<Card>)
    ensures ClassifySpec(cards).Panic? <==> |cards| == 0 || exists v: Card :: Count(cards, v) > 5
  {
    var (first, second) := TopTwo(Slots(cards));
    TopTwoCorrect(Slots(cards));
    SlotsCover(cards, first, second);
    if |cards| != 0 {
      assert Count(cards, cards[0]) >= 1;
    } else {
      forall v: Card ensures Count(cards, v) == 0 {
      }
    }
  }

  /** For hands of one to five cards `classify` is the count-pattern rule:
      five, four, three and two, three, two and two, two, all different. */
  lemma ClassifyMeaning(cards: seq<Card>)
    requires 1 <= |cards| <= 5
    ensures ClassifySpec(cards) == Ok(PatternType(cards))
  {
    var a, b := TopCards(cards);
    PatternOfTop(cards, a, b);
  }

  /** The cards whose counts the selection finds: the most frequent one,
      and the most frequent of the others. */
  lemma TopCards(cards: seq<Card>) returns (a: Card, b: Card)
    ensures a != b
    ensures Count(cards, a) == TopTwo(Slots(cards)).0 && Count(cards, b) == TopTwo(Slots(cards)).1
    ensures forall v: Card :: Count(cards, v) <= Count(cards, a)
    ensures forall v: Card | v != a :: Count(cards, v) <= Count(cards, b)
  {
    var xs := Slots(cards);
    var (first, second) := TopTwo(xs);
    TopTwoCorrect(xs);
    var i, j :| TopAt(xs, i, j) && xs[i] == first && xs[j] == second;
    a, b := i + 2, j + 2;
    forall v: Card ensures Count(cards, v) <= first && (v != a ==> Count(cards, v) <= second) {
      assert xs[v - 2] == Count(cards, v);
    }
  }

  /** Given the two counts the selection finds, the match on them is the
      count-pattern rule. */
  lemma PatternOfTop(cards: seq<Card>, a: Card, b: Card)
    requires 1 <= |cards| <= 5 && a != b
    requires forall v: Card :: Count(cards, v) <= Count(cards, a)
    requires forall v: Card | v != a :: Count(cards, v) <= Count(cards, b)
    ensures TypeOfCounts(Count(cards, a), Count(cards, b)) == Ok(PatternType(cards))
  {
    var first, second := Count(cards, a), Count(cards, b);
    CountPair(cards, a, b);
    assert cards[0] in cards;
    assert Count(cards, cards[0]) >= 1;
    assert a in multiset(cards);
    if first == 5 {
    } else if first == 4 {
      assert !HasCount(cards, 5);
    } else if first == 3 {
      assert !HasCount(cards, 5) && !HasCount(cards, 4);
      if second == 2 {
        assert b in multiset(cards);
      } else {
        assert !HasCount(cards, 2);
      }
    } else if first == 2 {
      PatternOfPairs(cards, a, b);
    } else {
      assert !HasCount(cards, 5) && !HasCount(cards, 4) && !HasCount(cards, 3) && !HasCount(cards, 2);
    }
  }

  lemma PatternOfPairs(cards: seq<Card>, a: Card, b: Card)
    requires a != b && Count(cards, a) == 2
    requires forall v: Card :: Count(cards, v) <= Count(cards, a)
    requires forall v: Card | v != a :: Count(cards, v) <= Count(cards, b)
    ensures PatternType(cards) == if Count(cards, b) == 2 then TwoPair else OnePair
  {
    assert a in multiset(cards);
    assert !HasCount(cards, 5) && !HasCount(cards, 4) && !HasCount(cards, 3);
    if Count(cards, b) == 2 {
      assert b in multiset(cards);
      assert HasTwoPairs(cards);
    } else {
      assert !HasTwoPairs(cards);
    }
  }

  /** `classify` depends only on the multiset of ranks: reordering the cards
      never changes the hand type. */
  lemma ClassifyIgnoresOrder(cards: seq<Card>, shuffled: seq<Card>)
    requires multiset(shuffled) == multiset(cards)
    ensures ClassifySpec(shuffled) == ClassifySpec(cards)
  {
    assert Slots(shuffled) == Slots(cards);
  }

  /** What `Hand::new` returns. */
  function HandOf(cards: seq<Card>): Result<Hand> {
    var t :- ClassifySpec(cards);
    Ok(Hand(cards, t))
  }

  /** `Hand::new`: the hand stores its cards unchanged and the type that
      `classify` gives them. */
  method NewHand(cards: seq<Card>) returns (r: Result<Hand>)
    ensures r == HandOf(cards)
    ensures r.Ok? <==> ClassifySpec(cards).Ok?
    ensures r.Ok? ==> r.value.cards == cards && r.value.handType == ClassifySpec(cards).value
    ensures 1 <= |cards| <= 5 ==> r == Ok(Hand(cards, PatternType(cards)))
  {
    var handType := Classify(cards);
    if 1 <= |cards| <= 5 {
      ClassifyMeaning(cards);
    }
    if handType.Panic? {
      return Panic(handType.reason);
    }
    r := Ok(Hand(cards, handType.value));
  }

  /** The cards of `Hand::from_str`, one per character. */
  function ParseCards(hand: string): (r: Result<seq<Card>>)
    ensures r.Ok? ==> |r.value| == |hand|
  {
    if |hand| == 0 then Ok([])
    else
      var init :- ParseCards(hand[..|hand| - 1]);
      var card :- CardFromStr([hand[|hand| - 1]]);
      Ok(init + [card])
  }

  /** `Hand::from_str` reads one card per character, in input order, and
      checks no length; any character outside the symbols panics. */
  lemma {:induction false} ParseCardsMeaning(hand: string)
    ensures ParseCards(hand).Ok? <==> forall c | c in hand :: c in Symbols
    ensures ParseCards(hand).Ok? ==>
      forall k | 0 <= k < |hand| :: CardFromStr([hand[k]]) == Ok(ParseCards(hand).value[k])
    decreases |hand|
  {
    if |hand| != 0 {
      var init := hand[..|hand| - 1];
      var last := hand[|hand| - 1];
      ParseCardsMeaning(init);
      CardFromStrSymbols([last]);
      assert hand == init + [last];
      assert forall c | c in hand :: c in init || c == last;
    }
  }

  /** A string whose every character is the symbol of the matching card
      parses to those cards. */
  lemma {:induction false} ParseCardsOf(hand: string, cards: seq<Card>)
    requires |hand| == |cards|
    requires forall k | 0 <= k < |hand| :: CardFromStr([hand[k]]) == Ok(cards[k])
    ensures ParseCards(hand) == Ok(cards)
    decreases |hand|
  {
    if |hand| != 0 {
      ParseCardsOf(hand[..|hand| - 1], cards[..|cards| - 1]);
      assert cards == cards[..|cards| - 1] + [cards[|cards| - 1]];
    }
  }

  /** Once a prefix fails to parse, the whole string fails the same way. */
  lemma {:induction false} ParseCardsPanicPersists(hand: string, n: nat)
    requires n <= |hand| && ParseCards(hand[..n]).Panic?
    ensures ParseCards(hand) == ParseCards(hand[..n])
    decreases |hand| - n
  {
    if n < |hand| {
      assert hand[..n + 1][..n] == hand[..n];
      ParseCardsPanicPersists(hand, n + 1);
    } else {
      assert hand[..n] == hand;
    }
  }

  /** What `Hand::from_str` returns. */
  function ParseHand(hand: string): Result<Hand> {
    var cards :- ParseCards(hand);
    HandOf(cards)
  }

  /** `Hand::from_str`: push one card per character, then `Hand::new`. */
  method HandFromStr(hand: string) returns (r: Result<Hand>)
    ensures r == ParseHand(hand)
  {
    var cards: seq<Card> := [];
    for n := 0 to |hand|
      invariant ParseCards(hand[..n]) == Ok(cards)
    {
      assert hand[..n + 1][..n] == hand[..n];
      var card := CardFromStr([hand[n]]);
      if card.Panic? {
        assert ParseCards(hand[..n + 1]) == Panic(card.reason);
        ParseCardsPanicPersists(hand, n + 1);
        return Panic(card.reason);
      }
      cards := cards + [card.value];
    }
    assert hand[..|hand|] == hand;
    r := NewHand(cards);
  }

  /** `get_ordered_cards`: the card values sorted ascending, then
      reversed. */
  function OrderedCards(h: Hand): seq<int> {
    Reversed(SortBy<int>(h.cards, CompareInt))
  }

  /** The ordered cards are the hand's cards, strongest first. */
  lemma OrderedCardsDescending(h: Hand)
    ensures multiset(OrderedCards(h)) == multiset(h.cards)
    ensures forall i, j | 0 <= i < j < |OrderedCards(h)| :: OrderedCards(h)[i] >= OrderedCards(h)[j]
  {
    SortedDescending(h.cards);
  }

  // ---------------------------------------------------------------------
  // Ordering hands

  /** `Ord::cmp` for `Hand`: the hand type first, then the first differing
      card over the zipped cards. */
  function HandCompare(a: Hand, b: Hand): Ordering {
    var typeOrder := CompareTypes(a.handType, b.handType);
    if typeOrder != Equal then typeOrder else ZipCompare(a.cards, b.cards)
  }

  method Cmp(a: Hand, b: Hand) returns (o: Ordering)
    ensures o == HandCompare(a, b)
  {
    var typeOrder := CompareTypes(a.handType, b.handType);
    if typeOrder != Equal {
      return typeOrder;
    }
    o := CompareZipped(a.cards, b.cards);
  }

  /** The type decides whenever it differs; otherwise the cards do. */
  lemma HandCompareTypeFirst(a: Hand, b: Hand)
    ensures Strength(a.handType) < Strength(b.handType) ==> HandCompare(a, b) == Less
    ensures Strength(a.handType) > Strength(b.handType) ==> HandCompare(a, b) == Greater
    ensures a.handType == b.handType ==> HandCompare(a, b) == ZipCompare(a.cards, b.cards)
  {
  }

  /** Among hands with the same number of cards, `cmp` is a total order:
      swapping the hands reverses it, Equal means the same hand, and it is
      transitive. */
  lemma HandCompareTotal(a: Hand, b: Hand, c: Hand)
    requires |a.cards| == |b.cards| == |c.cards|
    ensures HandCompare(b, a) == HandCompare(a, b).Reverse()
    ensures HandCompare(a, b) == Equal <==> a == b
    ensures HandCompare(a, b) != Greater && HandCompare(b, c) != Greater ==> HandCompare(a, c) != Greater
  {
    ZipCompareReverse(a.cards, b.cards);
    ZipCompareEqualLength(a.cards, b.cards, c.cards);
  }

  /** So a sort by `cmp` has one answer on hands of one length. */
  lemma HandCompareOrdersSameLength(xs: set<Hand>, n: nat)
    requires forall h | h in xs :: |h.cards| == n
    ensures TotalOrderOn(xs, HandCompare)
  {
    forall a, b | a in xs && b in xs
      ensures HandCompare(b, a) == HandCompare(a, b).Reverse()
      ensures HandCompare(a, b) == Equal ==> a == b
    {
      HandCompareTotal(a, b, b);
    }
    forall a, b, c | a in xs && b in xs && c in xs && HandCompare(a, b) != Greater && HandCompare(b, c) != Greater
      ensures HandCompare(a, c) != Greater
    {
      HandCompareTotal(a, b, c);
    }
  }

  /** Across lengths it is not: one card "3" is Equal to both "32" and
      "34", which differ. */
  lemma HandCompareNotTransitive()
    ensures HandCompare(Hand([3, 2], HighCard), Hand([3], HighCard)) == Equal
    ensures HandCompare(Hand([3], HighCard), Hand([3, 4], HighCard)) == Equal
    ensures HandCompare(Hand([3, 2], HighCard), Hand([3, 4], HighCard)) == Less
  {
    ZipCompareNotTransitive();
  }

  /** The derived `PartialOrd` (behind `<` and `>`): the cards as a `Vec`
      first, the hand type only on equal cards. */
  function DerivedCompare(a: Hand, b: Hand): Ordering {
    var cardOrder := LexCompare(a.cards, b.cards);
    if cardOrder != Equal then cardOrder else CompareTypes(a.handType, b.handType)
  }

  /** The two orderings disagree: AAAAK is weaker than 22222 for `cmp`
      (four of a kind against five) but greater for `>`. */
  lemma OrderingsDisagree()
    ensures HandCompare(Hand([14, 14, 14, 14, 13], FourOfAKind), Hand([2, 2, 2, 2, 2], FiveOfAKind)) == Less
    ensures DerivedCompare(Hand([14, 14, 14, 14, 13], FourOfAKind), Hand([2, 2, 2, 2, 2], FiveOfAKind)) == Greater
  {
  }

  /** Five symbols read as the five cards they name. */
  lemma CardsOfFive(hand: string, a: Card, b: Card, c: Card, d: Card, e: Card)
    requires hand == [Symbols[a - 2], Symbols[b - 2], Symbols[c - 2], Symbols[d - 2], Symbols[e - 2]]
    ensures ParseCards(hand) == Ok([a, b, c, d, e])
  {
    CardFromStrSymbols("");
    ParseCardsOf(hand, [a, b, c, d, e]);
  }

  /** Cards whose slots `i` and `j` hold the largest count and the
      largest of the others are classified by those two counts. */
  lemma ClassifyBySlots(cards: seq<Card>, xs: seq<nat>, i: nat, j: nat, t: HandType)
    requires Slots(cards) == xs && TopAt(xs, i, j) && xs[i] <= 255
    requires TypeOfCounts(xs[i], xs[j]) == Ok(t)
    ensures ClassifySpec(cards) == Ok(t)
  {
    TopTwoUnique(xs, xs[i], xs[j]);
  }

  /** Test case: "23456" is HighCard. */
  lemma HighCardExample()
    ensures ParseHand("23456") == Ok(Hand([2, 3, 4, 5, 6], HighCard))
  {
    CardsOfFive("23456", 2, 3, 4, 5, 6);
    Type23456();
  }

  /** Test case: "22222" is FiveOfAKind. */
  lemma FiveOfAKindExample()
    ensures ParseHand("22222") == Ok(Hand([2, 2, 2, 2, 2], FiveOfAKind))
  {
    CardsOfFive("22222", 2, 2, 2, 2, 2);
    Type22222();
  }

  /** Test case: "22223" is FourOfAKind. */
  lemma FourOfAKindExample()
    ensures ParseHand("22223") == Ok(Hand([2, 2, 2, 2, 3], FourOfAKind))
  {
    CardsOfFive("22223", 2, 2, 2, 2, 3);
    Type22223();
  }

  /** Test case: "22233" is FullHouse. */
  lemma FullHouseExample()
    ensures ParseHand("22233") == Ok(Hand([2, 2, 2, 3, 3], FullHouse))
  {
    CardsOfFive("22233", 2, 2, 2, 3, 3);
    Type22233();
  }

  /** Test case: "22234" is ThreeOfAKind. */
  lemma ThreeOfAKindExample()
    ensures ParseHand("22234") == Ok(Hand([2, 2, 2, 3, 4], ThreeOfAKind))
  {
    CardsOfFive("22234", 2, 2, 2, 3, 4);
    Type22234();
  }

  /** Test case: "22334" is TwoPair. */
  lemma TwoPairExample()
    ensures ParseHand("22334") == Ok(Hand([2, 2, 3, 3, 4], TwoPair))
  {
    CardsOfFive("22334", 2, 2, 3, 3, 4);
    Type22334();
  }

  /** Test case: "22345" is OnePair. */
  lemma OnePairExample()
    ensures ParseHand("22345") == Ok(Hand([2, 2, 3, 4, 5], OnePair))
  {
    CardsOfFive("22345", 2, 2, 3, 4, 5);
    Type22345();
  }

  /** The counters of a five-card hand, card by card. */
  lemma SlotsOfFive(a: Card, b: Card, c: Card, d: Card, e: Card)
    ensures forall k | 0 <= k < 13 ::
      Slots([a, b, c, d, e])[k] == OneIf(a == k + 2) + OneIf(b == k + 2) + OneIf(c == k + 2) + OneIf(d == k + 2) + OneIf(e == k + 2)
  {
    var s := [a, b, c, d, e];
    forall k | 0 <= k < 13
      ensures Slots(s)[k] == OneIf(a == k + 2) + OneIf(b == k + 2) + OneIf(c == k + 2) + OneIf(d == k + 2) + OneIf(e == k + 2)
    {
      CountFive(a, b, c, d, e, k + 2);
    }
  }

  lemma Type23456()
    ensures ClassifySpec([2, 3, 4, 5, 6]) == Ok(HighCard)
  {
    Slots23456();
    Top23456();
    ClassifyBySlots([2, 3, 4, 5, 6], [1, 1, 1, 1, 1, 0, 0, 0, 0, 0, 0, 0, 0], 0, 1, HighCard);
  }

  lemma Slots23456()
    ensures Slots([2, 3, 4, 5, 6]) == [1, 1, 1, 1, 1, 0, 0, 0, 0, 0, 0, 0, 0]
  {
    CountFive(2, 3, 4, 5, 6, 2);
    CountFive(2, 3, 4, 5, 6, 3);
    CountFive(2, 3, 4, 5, 6, 4);
    CountFive(2, 3, 4, 5, 6, 5);
    CountFive(2, 3, 4, 5, 6, 6);
    CountFive(2, 3, 4, 5, 6, 7);
    CountFive(2, 3, 4, 5, 6, 8);
    CountFive(2, 3, 4, 5, 6, 9);
    CountFive(2, 3, 4, 5, 6, 10);
    CountFive(2, 3, 4, 5, 6, 11);
    CountFive(2, 3, 4, 5, 6, 12);
    CountFive(2, 3, 4, 5, 6, 13);
    CountFive(2, 3, 4, 5, 6, 14);
  }

  lemma Top23456()
    ensures TopAt([1, 1, 1, 1, 1, 0, 0, 0, 0, 0, 0, 0, 0], 0, 1)
  {
  }

  lemma Type22222()
    ensures ClassifySpec([2, 2, 2, 2, 2]) == Ok(FiveOfAKind)
  {
    Slots22222();
    Top22222();
    ClassifyBySlots([2, 2, 2, 2, 2], [5, 0, 0, 0, 0, 0, 0, 0, 0, 0, 0, 0, 0], 0, 1, FiveOfAKind);
  }

  lemma Slots22222()
    ensures Slots([2, 2, 2, 2, 2]) == [5, 0, 0, 0, 0, 0, 0, 0, 0, 0, 0, 0, 0]
  {
    CountFive(2, 2, 2, 2, 2, 2);
    CountFive(2, 2, 2, 2, 2, 3);
    CountFive(2, 2, 2, 2, 2, 4);
    CountFive(2, 2, 2, 2, 2, 5);
    CountFive(2, 2, 2, 2, 2, 6);
    CountFive(2, 2, 2, 2, 2, 7);
    CountFive(2, 2, 2, 2, 2, 8);
    CountFive(2, 2, 2, 2, 2, 9);
    CountFive(2, 2, 2, 2, 2, 10);
    CountFive(2, 2, 2, 2, 2, 11);
    CountFive(2, 2, 2, 2, 2, 12);
    CountFive(2, 2, 2, 2, 2, 13);
    CountFive(2, 2, 2, 2, 2, 14);
  }

  lemma Top22222()
    ensures TopAt([5, 0, 0, 0, 0, 0, 0, 0, 0, 0, 0, 0, 0], 0, 1)
  {
  }

  lemma Type22223()
    ensures ClassifySpec([2, 2, 2, 2, 3]) == Ok(FourOfAKind)
  {
    Slots22223();
    Top22223();
    ClassifyBySlots([2, 2, 2, 2, 3], [4, 1, 0, 0, 0, 0, 0, 0, 0, 0, 0, 0, 0], 0, 1, FourOfAKind);
  }

  lemma Slots22223()
    ensures Slots([2, 2, 2, 2, 3]) == [4, 1, 0, 0, 0, 0, 0, 0, 0, 0, 0, 0, 0]
  {
    CountFive(2, 2, 2, 2, 3, 2);
    CountFive(2, 2, 2, 2, 3, 3);
    CountFive(2, 2, 2, 2, 3, 4);
    CountFive(2, 2, 2, 2, 3, 5);
    CountFive(2, 2, 2, 2, 3, 6);
    CountFive(2, 2, 2, 2, 3, 7);
    CountFive(2, 2, 2, 2, 3, 8);
    CountFive(2, 2, 2, 2, 3, 9);
    CountFive(2, 2, 2, 2, 3, 10);
    CountFive(2, 2, 2, 2, 3, 11);
    CountFive(2, 2, 2, 2, 3, 12);
    CountFive(2, 2, 2, 2, 3, 13);
    CountFive(2, 2, 2, 2, 3, 14);
  }

  lemma Top22223()
    ensures TopAt([4, 1, 0, 0, 0, 0, 0, 0, 0, 0, 0, 0, 0], 0, 1)
  {
  }

  lemma Type22233()
    ensures ClassifySpec([2, 2, 2, 3, 3]) == Ok(FullHouse)
  {
    Slots22233();
    Top22233();
    ClassifyBySlots([2, 2, 2, 3, 3], [3, 2, 0, 0, 0, 0, 0, 0, 0, 0, 0, 0, 0], 0, 1, FullHouse);
  }

  lemma Slots22233()
    ensures Slots([2, 2, 2, 3, 3]) == [3, 2, 0, 0, 0, 0, 0, 0, 0, 0, 0, 0, 0]
  {
    CountFive(2, 2, 2, 3, 3, 2);
    CountFive(2, 2, 2, 3, 3, 3);
    CountFive(2, 2, 2, 3, 3, 4);
    CountFive(2, 2, 2, 3, 3, 5);
    CountFive(2, 2, 2, 3, 3, 6);
    CountFive(2, 2, 2, 3, 3, 7);
    CountFive(2, 2, 2, 3, 3, 8);
    CountFive(2, 2, 2, 3, 3, 9);
    CountFive(2, 2, 2, 3, 3, 10);
    CountFive(2, 2, 2, 3, 3, 11);
    CountFive(2, 2, 2, 3, 3, 12);
    CountFive(2, 2, 2, 3, 3, 13);
    CountFive(2, 2, 2, 3, 3, 14);
  }

  lemma Top22233()
    ensures TopAt([3, 2, 0, 0, 0, 0, 0, 0, 0, 0, 0, 0, 0], 0, 1)
  {
  }

  lemma Type22234()
    ensures ClassifySpec([2, 2, 2, 3, 4]) == Ok(ThreeOfAKind)
  {
    Slots22234();
    Top22234();
    ClassifyBySlots([2, 2, 2, 3, 4], [3, 1, 1, 0, 0, 0, 0, 0, 0, 0, 0, 0, 0], 0, 1, ThreeOfAKind);
  }

  lemma Slots22234()
    ensures Slots([2, 2, 2, 3, 4]) == [3, 1, 1, 0, 0, 0, 0, 0, 0, 0, 0, 0, 0]
  {
    CountFive(2, 2, 2, 3, 4, 2);
    CountFive(2, 2, 2, 3, 4, 3);
    CountFive(2, 2, 2, 3, 4, 4);
    CountFive(2, 2, 2, 3, 4, 5);
    CountFive(2, 2, 2, 3, 4, 6);
    CountFive(2, 2, 2, 3, 4, 7);
    CountFive(2, 2, 2, 3, 4, 8);
    CountFive(2, 2, 2, 3, 4, 9);
    CountFive(2, 2, 2, 3, 4, 10);
    CountFive(2, 2, 2, 3, 4, 11);
    CountFive(2, 2, 2, 3, 4, 12);
    CountFive(2, 2, 2, 3, 4, 13);
    CountFive(2, 2, 2, 3, 4, 14);
  }

  lemma Top22234()
    ensures TopAt([3, 1, 1, 0, 0, 0, 0, 0, 0, 0, 0, 0, 0], 0, 1)
  {
  }

  lemma Type22334()
    ensures ClassifySpec([2, 2, 3, 3, 4]) == Ok(TwoPair)
  {
    Slots22334();
    Top22334();
    ClassifyBySlots([2, 2, 3, 3, 4], [2, 2, 1, 0, 0, 0, 0, 0, 0, 0, 0, 0, 0], 0, 1, TwoPair);
  }

  lemma Slots22334()
    ensures Slots([2, 2, 3, 3, 4]) == [2, 2, 1, 0, 0, 0, 0, 0, 0, 0, 0, 0, 0]
  {
    CountFive(2, 2, 3, 3, 4, 2);
    CountFive(2, 2, 3, 3, 4, 3);
    CountFive(2, 2, 3, 3, 4, 4);
    CountFive(2, 2, 3, 3, 4, 5);
    CountFive(2, 2, 3, 3, 4, 6);
    CountFive(2, 2, 3, 3, 4, 7);
    CountFive(2, 2, 3, 3, 4, 8);
    CountFive(2, 2, 3, 3, 4, 9);
    CountFive(2, 2, 3, 3, 4, 10);
    CountFive(2, 2, 3, 3, 4, 11);
    CountFive(2, 2, 3, 3, 4, 12);
    CountFive(2, 2, 3, 3, 4, 13);
    CountFive(2, 2, 3, 3, 4, 14);
  }

  lemma Top22334()
    ensures TopAt([2, 2, 1, 0, 0, 0, 0, 0, 0, 0, 0, 0, 0], 0, 1)
  {
  }

  lemma Type22345()
    ensures ClassifySpec([2, 2, 3, 4, 5]) == Ok(OnePair)
  {
    Slots22345();
    Top22345();
    ClassifyBySlots([2, 2, 3, 4, 5], [2, 1, 1, 1, 0, 0, 0, 0, 0, 0, 0, 0, 0], 0, 1, OnePair);
  }

  lemma Slots22345()
    ensures Slots([2, 2, 3, 4, 5]) == [2, 1, 1, 1, 0, 0, 0, 0, 0, 0, 0, 0, 0]
  {
    CountFive(2, 2, 3, 4, 5, 2);
    CountFive(2, 2, 3, 4, 5, 3);
    CountFive(2, 2, 3, 4, 5, 4);
    CountFive(2, 2, 3, 4, 5, 5);
    CountFive(2, 2, 3, 4, 5, 6);
    CountFive(2, 2, 3, 4, 5, 7);
    CountFive(2, 2, 3, 4, 5, 8);
    CountFive(2, 2, 3, 4, 5, 9);
    CountFive(2, 2, 3, 4, 5, 10);
    CountFive(2, 2, 3, 4, 5, 11);
    CountFive(2, 2, 3, 4, 5, 12);
    CountFive(2, 2, 3, 4, 5, 13);
    CountFive(2, 2, 3, 4, 5, 14);
  }

  lemma Top22345()
    ensures TopAt([2, 1, 1, 1, 0, 0, 0, 0, 0, 0, 0, 0, 0], 0, 1)
  {
  }

  /** The ordering cases of the source's tests, which use the derived
      `PartialEq` and `PartialOrd`; `cmp` agrees on each of them. */
  lemma OrderingExamples()
    ensures DerivedCompare(Hand([14, 14, 14, 14, 14], FiveOfAKind), Hand([10, 10, 10, 9, 8], ThreeOfAKind)) == Greater
    ensures DerivedCompare(Hand([14, 14, 14, 14, 14], FiveOfAKind), Hand([10, 10, 10, 10, 10], FiveOfAKind)) == Greater
    ensures DerivedCompare(Hand([3, 3, 3, 3, 2], FourOfAKind), Hand([2, 14, 14, 14, 14], FourOfAKind)) == Greater
    ensures DerivedCompare(Hand([7, 7, 7, 8, 8], FullHouse), Hand([7, 7, 8, 8, 8], FullHouse)) == Less
    ensures HandCompare(Hand([14, 14, 14, 14, 14], FiveOfAKind), Hand([10, 10, 10, 9, 8], ThreeOfAKind)) == Greater
    ensures HandCompare(Hand([14, 14, 14, 14, 14], FiveOfAKind), Hand([10, 10, 10, 10, 10], FiveOfAKind)) == Greater
    ensures HandCompare(Hand([3, 3, 3, 3, 2], FourOfAKind), Hand([2, 14, 14, 14, 14], FourOfAKind)) == Greater
    ensures HandCompare(Hand([7, 7, 7, 8, 8], FullHouse), Hand([7, 7, 8, 8, 8], FullHouse)) == Less
  {
  }
}
