/** The Camel Cards library of day7/src/camelcards.rs: a hand keeps its
    text and the value of each character under a `CardValueMap`, and a
    `Game` ranks the keys of its wager map by a classifier it is given,
    then by those values. */
module ValueGame {
  import opened Outcomes
  import opened Ranking

  /** `CardValueMap = HashMap<char, u8>`. */
  type CardValueMap = map<char, U8>

  datatype ValueHand = ValueHand(original: string, values: seq<U8>)

  /** `hand.chars().map(|c| *card_map.get(&c).unwrap()).collect()`. */
  function CardValues(hand: string, cardMap: CardValueMap): (r: Result<seq<U8>>)
    ensures r.Ok? <==> forall c | c in hand :: c in cardMap
    ensures r.Ok? ==> |r.value| == |hand| && forall i | 0 <= i < |hand| :: r.value[i] == cardMap[hand[i]]
    ensures r.Panic? ==> r == Panic(UnwrapNone)
  {
    if |hand| == 0 then Ok([])
    else if hand[0] !in cardMap then Panic(UnwrapNone)
    else
      var rest :- CardValues(hand[1..], cardMap);
      assert forall c | c in hand :: c == hand[0] || c in hand[1..];
      Ok([cardMap[hand[0]]] + rest)
  }

  /** `Hand::from_str`: the text unchanged, with its values. */
  function HandFromStr(hand: string, cardMap: CardValueMap): (r: Result<ValueHand>)
    ensures r.Ok? <==> CardValues(hand, cardMap).Ok?
    ensures r.Ok? ==> r.value.original == hand && r.value.values == CardValues(hand, cardMap).value
  {
    var values :- CardValues(hand, cardMap);
    Ok(ValueHand(hand, values))
  }

  /** Under a map that gives different characters different values, the
      values of a hand determine its text. */
  lemma HandFromStrInjective(a: string, b: string, cardMap: CardValueMap)
    requires forall c, d | c in cardMap && d in cardMap && c != d :: cardMap[c] != cardMap[d]
    requires HandFromStr(a, cardMap).Ok? && HandFromStr(b, cardMap).Ok?
    requires HandFromStr(a, cardMap).value.values == HandFromStr(b, cardMap).value.values
    ensures a == b
  {
    forall i | 0 <= i < |a| ensures a[i] == b[i] {
      assert a[i] in a && b[i] in b;
    }
  }

  /** The game: the wager of each hand text, the card values and the
      classifier (a plain `fn` value, which may panic). `Game::new` is the
      constructor and stores the three unchanged. */
  datatype Game = Game(
    hands: map<string, U32>,
    cardMap: CardValueMap,
    calcHandStrength: (ValueHand, CardValueMap) -> Result<HandType>)

  /** `get_winning_for_hand`: the wager stored under the hand's text. */
  function GetWinningForHand(game: Game, hand: ValueHand): (r: Option<U32>)
    ensures r.Some? <==> hand.original in game.hands
  {
    if hand.original in game.hands then Some(game.hands[hand.original]) else None
  }

  /** A hand read from a key of the game finds that key's wager again. */
  lemma WinningOfParsedKey(game: Game, key: string)
    requires key in game.hands && HandFromStr(key, game.cardMap).Ok?
    ensures GetWinningForHand(game, HandFromStr(key, game.cardMap).value) == Some(game.hands[key])
  {
  }

  // ---------------------------------------------------------------------
  // `get_sorted_hands`

  /** The keys, each turned into a hand, in iteration order. */
  function ParseAll(keys: seq<string>, cardMap: CardValueMap): (r: Result<seq<ValueHand>>)
    ensures r.Ok? <==> forall i | 0 <= i < |keys| :: HandFromStr(keys[i], cardMap).Ok?
    ensures r.Ok? ==> |r.value| == |keys| && forall i | 0 <= i < |keys| :: Ok(r.value[i]) == HandFromStr(keys[i], cardMap)
  {
    if |keys| == 0 then Ok([])
    else
      var first :- HandFromStr(keys[0], cardMap);
      var rest :- ParseAll(keys[1..], cardMap);
      Ok([first] + rest)
  }

  /** Each hand with the type the game's classifier gives it. */
  function Classified(hands: seq<ValueHand>, game: Game): (r: Result<seq<(ValueHand, HandType)>>)
    ensures r.Ok? <==> forall i | 0 <= i < |hands| :: game.calcHandStrength(hands[i], game.cardMap).Ok?
    ensures r.Ok? ==> |r.value| == |hands| && forall i | 0 <= i < |hands| ::
      r.value[i] == (hands[i], game.calcHandStrength(hands[i], game.cardMap).value)
  {
    if |hands| == 0 then Ok([])
    else
      var t :- game.calcHandStrength(hands[0], game.cardMap);
      var rest :- Classified(hands[1..], game);
      Ok([(hands[0], t)] + rest)
  }

  /** The comparator of `sorted_by`: the types when they differ, otherwise
      the values as a `Vec<u8>`. */
  function RankOrder(a: (ValueHand, HandType), b: (ValueHand, HandType)): Ordering {
    if a.1 == b.1 then LexCompare(a.0.values, b.0.values) else CompareTypes(a.1, b.1)
  }

  /** The comparator is consistent on any set of classified hands. */
  lemma RankOrderPreorder(xs: set<(ValueHand, HandType)>)
    ensures TotalPreorderOn(xs, RankOrder)
  {
    forall x, y | x in xs && y in xs ensures RankOrder(y, x) == RankOrder(x, y).Reverse() {
      LexCompareReverse(x.0.values, y.0.values);
      StrengthInjective(x.1, y.1);
    }
    forall x, y, z | x in xs && y in xs && z in xs && RankOrder(x, y) != Greater && RankOrder(y, z) != Greater
      ensures RankOrder(x, z) != Greater
    {
      StrengthInjective(x.1, y.1);
      StrengthInjective(y.1, z.1);
      StrengthInjective(x.1, z.1);
      if x.1 == y.1 == z.1 {
        LexCompareTransitive(x.0.values, y.0.values, z.0.values);
      }
    }
  }

  /** Two classified hands compare Equal exactly when they have the same
      type and the same values. */
  lemma RankOrderEqual(x: (ValueHand, HandType), y: (ValueHand, HandType))
    ensures RankOrder(x, y) == Equal <==> x.1 == y.1 && x.0.values == y.0.values
  {
    LexCompareEqual(x.0.values, y.0.values);
    StrengthInjective(x.1, y.1);
  }

  function Original(h: ValueHand): string {
    h.original
  }

  function HandPart(p: (ValueHand, HandType)): ValueHand {
    p.0
  }

  /** `get_sorted_hands`, for one iteration order of the keys: every key
      is read into a hand (an unknown character panics); with two or more
      hands the comparator classifies each of them (a classifier panic
      propagates, the model reporting the first in key order); the stable
      sort then orders them. */
  function GetSortedHands(game: Game, order: seq<string>): Result<seq<ValueHand>>
    requires Enumerates(order, game.hands.Keys)
  {
    var parsed :- ParseAll(order, game.cardMap);
    if |parsed| < 2 then Ok(parsed)
    else
      var typed :- Classified(parsed, game);
      Ok(Project(SortBy(typed, RankOrder), HandPart))
  }

  predicate KeyReads(game: Game, k: string) {
    HandFromStr(k, game.cardMap).Ok?
  }

  predicate KeyClassifies(game: Game, k: string) {
    KeyReads(game, k) && game.calcHandStrength(HandFromStr(k, game.cardMap).value, game.cardMap).Ok?
  }

  /** Every hand the classifier accepts, and in the comparator's order. */
  ghost predicate Ranked(game: Game, hands: seq<ValueHand>) {
    && (forall i | 0 <= i < |hands| :: game.calcHandStrength(hands[i], game.cardMap).Ok?)
    && (forall i, j | 0 <= i < j < |hands| ::
          RankOrder((hands[i], game.calcHandStrength(hands[i], game.cardMap).value),
                    (hands[j], game.calcHandStrength(hands[j], game.cardMap).value)) != Greater)
  }

  lemma ParseAllKeys(game: Game, order: seq<string>)
    requires Enumerates(order, game.hands.Keys)
    ensures ParseAll(order, game.cardMap).Ok? <==> forall k | k in game.hands :: KeyReads(game, k)
    ensures ParseAll(order, game.cardMap).Ok? ==> Project(ParseAll(order, game.cardMap).value, Original) == order
  {
    if ParseAll(order, game.cardMap).Ok? {
      forall k | k in game.hands ensures KeyReads(game, k) {
        assert k in order;
        var i :| 0 <= i < |order| && order[i] == k;
      }
    } else {
      var i :| 0 <= i < |order| && !HandFromStr(order[i], game.cardMap).Ok?;
      assert order[i] in order;
      assert !KeyReads(game, order[i]);
    }
  }

  lemma ClassifiedKeys(game: Game, order: seq<string>, parsed: seq<ValueHand>)
    requires Enumerates(order, game.hands.Keys)
    requires ParseAll(order, game.cardMap) == Ok(parsed)
    ensures Classified(parsed, game).Ok? <==> forall k | k in game.hands :: KeyClassifies(game, k)
  {
    if Classified(parsed, game).Ok? {
      forall k | k in game.hands ensures KeyClassifies(game, k) {
        assert k in order;
        var i :| 0 <= i < |order| && order[i] == k;
        assert parsed[i] == HandFromStr(k, game.cardMap).value;
      }
    } else {
      var i :| 0 <= i < |parsed| && !game.calcHandStrength(parsed[i], game.cardMap).Ok?;
      assert order[i] in order;
      assert !KeyClassifies(game, order[i]);
    }
  }

  /** Sorting classified hands keeps them and orders them. */
  lemma SortedHandsRanked(game: Game, parsed: seq<ValueHand>, typed: seq<(ValueHand, HandType)>)
    requires Classified(parsed, game) == Ok(typed)
    ensures multiset(Project(SortBy(typed, RankOrder), HandPart)) == multiset(parsed)
    ensures Ranked(game, Project(SortBy(typed, RankOrder), HandPart))
  {
    var sorted := SortBy(typed, RankOrder);
    RankOrderPreorder(Elements(typed));
    SortBySorted(typed, RankOrder);
    assert Project(typed, HandPart) == parsed;
    ProjectMultiset(sorted, typed, HandPart);
    var result := Project(sorted, HandPart);
    forall i | 0 <= i < |sorted|
      ensures game.calcHandStrength(result[i], game.cardMap).Ok?
      ensures sorted[i] == (result[i], game.calcHandStrength(result[i], game.cardMap).value)
    {
      assert sorted[i] in multiset(typed);
      var j :| 0 <= j < |typed| && typed[j] == sorted[i];
    }
  }

  /** The call panics exactly when a key holds a character the map lacks,
      or when there are two or more keys and the classifier panics on one
      of them. */
  lemma GetSortedHandsPanics(game: Game, order: seq<string>)
    requires Enumerates(order, game.hands.Keys)
    ensures GetSortedHands(game, order).Ok? <==>
      && (forall k | k in game.hands :: KeyReads(game, k))
      && (|game.hands| >= 2 ==> forall k | k in game.hands :: KeyClassifies(game, k))
  {
    EnumerationLength(order, game.hands.Keys);
    ParseAllKeys(game, order);
    if ParseAll(order, game.cardMap).Ok? {
      ClassifiedKeys(game, order, ParseAll(order, game.cardMap).value);
    }
  }

  /** The sorted hands are one hand per key, read from that key, and with
      two or more keys they are in the comparator's order. */
  lemma GetSortedHandsRanks(game: Game, order: seq<string>)
    requires Enumerates(order, game.hands.Keys)
    requires GetSortedHands(game, order).Ok?
    ensures var hands := GetSortedHands(game, order).value;
      && multiset(Project(hands, Original)) == multiset(order)
      && (forall i | 0 <= i < |hands| :: HandFromStr(hands[i].original, game.cardMap) == Ok(hands[i]))
      && (|hands| >= 2 ==> Ranked(game, hands))
  {
    ParseAllKeys(game, order);
    var parsed := ParseAll(order, game.cardMap).value;
    var hands := GetSortedHands(game, order).value;
    assert forall j | 0 <= j < |parsed| :: HandFromStr(parsed[j].original, game.cardMap) == Ok(parsed[j]) by {
      forall j | 0 <= j < |parsed| ensures HandFromStr(parsed[j].original, game.cardMap) == Ok(parsed[j]) {
        assert Ok(parsed[j]) == HandFromStr(order[j], game.cardMap);
      }
    }
    if |parsed| >= 2 {
      var typed := Classified(parsed, game).value;
      assert hands == Project(SortBy(typed, RankOrder), HandPart);
      SortedHandsRanked(game, parsed, typed);
      RereadPermutation(game, parsed, hands);
    } else {
      assert hands == parsed;
    }
  }

  lemma RereadPermutation(game: Game, parsed: seq<ValueHand>, hands: seq<ValueHand>)
    requires multiset(hands) == multiset(parsed)
    requires forall j | 0 <= j < |parsed| :: HandFromStr(parsed[j].original, game.cardMap) == Ok(parsed[j])
    ensures multiset(Project(hands, Original)) == multiset(Project(parsed, Original))
    ensures forall i | 0 <= i < |hands| :: HandFromStr(hands[i].original, game.cardMap) == Ok(hands[i])
  {
    ProjectMultiset(hands, parsed, Original);
    forall i | 0 <= i < |hands| ensures HandFromStr(hands[i].original, game.cardMap) == Ok(hands[i]) {
      assert hands[i] in multiset(parsed);
      var j :| 0 <= j < |parsed| && parsed[j] == hands[i];
    }
  }

  /** A key's hand with its type; only read where the key classifies. */
  function ClassifyKey(game: Game, k: string): (ValueHand, HandType) {
    if KeyClassifies(game, k)
    then (HandFromStr(k, game.cardMap).value, game.calcHandStrength(HandFromStr(k, game.cardMap).value, game.cardMap).value)
    else (ValueHand(k, []), HighCard)
  }

  lemma ClassifiedByKey(game: Game, order: seq<string>)
    requires Enumerates(order, game.hands.Keys)
    requires ParseAll(order, game.cardMap).Ok?
    requires Classified(ParseAll(order, game.cardMap).value, game).Ok?
    ensures var typed := Classified(ParseAll(order, game.cardMap).value, game).value;
      |typed| == |order| && forall i | 0 <= i < |order| :: typed[i] == ClassifyKey(game, order[i])
  {
  }

  /** Under a map that gives different characters different values, no two
      keys rank Equal. */
  lemma KeysTotallyOrdered(game: Game, order: seq<string>, typed: seq<(ValueHand, HandType)>)
    requires forall c, d | c in game.cardMap && d in game.cardMap && c != d :: game.cardMap[c] != game.cardMap[d]
    requires |typed| == |order|
    requires forall i | 0 <= i < |order| :: KeyClassifies(game, order[i]) && typed[i] == ClassifyKey(game, order[i])
    ensures TotalOrderOn(Elements(typed), RankOrder)
  {
    RankOrderPreorder(Elements(typed));
    forall x, y | x in Elements(typed) && y in Elements(typed) && RankOrder(x, y) == Equal ensures x == y {
      RankOrderEqual(x, y);
      var i :| 0 <= i < |typed| && typed[i] == x;
      var j :| 0 <= j < |typed| && typed[j] == y;
      HandFromStrInjective(order[i], order[j], game.cardMap);
    }
  }

  /** Classifying two enumerations of the keys and sorting gives the same
      arrangement when no two keys rank Equal. */
  lemma SortedKeysAgree(game: Game, a: seq<string>, b: seq<string>)
    requires Enumerates(a, game.hands.Keys) && Enumerates(b, game.hands.Keys)
    requires forall c, d | c in game.cardMap && d in game.cardMap && c != d :: game.cardMap[c] != game.cardMap[d]
    requires forall k | k in game.hands :: KeyClassifies(game, k)
    ensures ParseAll(a, game.cardMap).Ok? && ParseAll(b, game.cardMap).Ok?
    ensures Classified(ParseAll(a, game.cardMap).value, game).Ok?
    ensures Classified(ParseAll(b, game.cardMap).value, game).Ok?
    ensures SortBy(Classified(ParseAll(a, game.cardMap).value, game).value, RankOrder)
         == SortBy(Classified(ParseAll(b, game.cardMap).value, game).value, RankOrder)
  {
    EnumerationsAgree(a, b, game.hands.Keys);
    ParseAllKeys(game, a);
    ParseAllKeys(game, b);
    ClassifiedKeys(game, a, ParseAll(a, game.cardMap).value);
    ClassifiedKeys(game, b, ParseAll(b, game.cardMap).value);
    ClassifiedByKey(game, a);
    ClassifiedByKey(game, b);
    var ta := Classified(ParseAll(a, game.cardMap).value, game).value;
    var tb := Classified(ParseAll(b, game.cardMap).value, game).value;
    var f := (k: string) => ClassifyKey(game, k);
    assert ta == Project(a, f);
    assert tb == Project(b, f);
    ProjectMultiset(a, b, f);
    assert forall i | 0 <= i < |a| :: KeyClassifies(game, a[i]) by {
      forall i | 0 <= i < |a| ensures KeyClassifies(game, a[i]) {
        assert a[i] in a;
      }
    }
    KeysTotallyOrdered(game, a, ta);
    RankOrderPreorder(Elements(tb));
    var sa, sb := SortBy(ta, RankOrder), SortBy(tb, RankOrder);
    SortBySorted(ta, RankOrder);
    SortBySorted(tb, RankOrder);
    SameElements(sa, ta);
    SortedUnique(sa, sb, RankOrder);
  }

  /** When the card map gives different characters different values, the
      ranking does not depend on the order in which the map yields its
      keys. */
  lemma GetSortedHandsIndependentOfOrder(game: Game, a: seq<string>, b: seq<string>)
    requires Enumerates(a, game.hands.Keys) && Enumerates(b, game.hands.Keys)
    requires forall c, d | c in game.cardMap && d in game.cardMap && c != d :: game.cardMap[c] != game.cardMap[d]
    ensures GetSortedHands(game, a).Ok? <==> GetSortedHands(game, b).Ok?
    ensures GetSortedHands(game, a).Ok? ==> GetSortedHands(game, a) == GetSortedHands(game, b)
  {
    GetSortedHandsPanics(game, a);
    GetSortedHandsPanics(game, b);
    EnumerationLength(a, game.hands.Keys);
    EnumerationLength(b, game.hands.Keys);
    if GetSortedHands(game, a).Ok? {
      if |a| < 2 {
        assert a == b by {
          EnumerationsAgree(a, b, game.hands.Keys);
          if |a| == 1 {
            assert a[0] in multiset(b);
          }
        }
      } else {
        SortedKeysAgree(game, a, b);
      }
    }
  }

  // ---------------------------------------------------------------------
  // The derived ordering

  /** The derived `Ord` on `Hand`: the text first, then the values. */
  function CharCode(c: char): int {
    c as int
  }

  function DerivedCompare(a: ValueHand, b: ValueHand): Ordering {
    var textOrder := LexCompare(Project(a.original, CharCode), Project(b.original, CharCode));
    if textOrder != Equal then textOrder else LexCompare(a.values, b.values)
  }

  /** It is not the ranking order: with one card type, "B" worth 1 ranks
      below "A" worth 2 but is greater by the derived order. */
  lemma DerivedCompareIsNotRanking()
    ensures RankOrder((ValueHand("B", [1]), HighCard), (ValueHand("A", [2]), HighCard)) == Less
    ensures DerivedCompare(ValueHand("B", [1]), ValueHand("A", [2])) == Greater
  {
    assert Project("B", CharCode) == [66];
    assert Project("A", CharCode) == [65];
  }

  // ---------------------------------------------------------------------
  // The library's tests

  const TestMap: CardValueMap := map['A' := 1, 'B' := 2, 'C' := 3]

  const TestGame: Game := Game(map["ABC" := 1, "DEF" := 2, "GHI" := 3], TestMap, (_, _) => Ok(HighCard))

  /** `Hand::from_str("ABC")` reads the values 1, 2, 3, and the hand finds
      its wager 1 in the game. */
  lemma ParseAndWagerExample()
    ensures HandFromStr("ABC", TestMap) == Ok(ValueHand("ABC", [1, 2, 3]))
    ensures GetWinningForHand(TestGame, ValueHand("ABC", [1, 2, 3])) == Some(1)
  {
    assert "ABC"[1..] == "BC" && "BC"[1..] == "C" && "C"[1..] == "";
    assert "C"[0] == 'C' && "BC"[0] == 'B' && "ABC"[0] == 'A';
    assert TestMap['A'] == 1 && TestMap['B'] == 2 && TestMap['C'] == 3;
    assert CardValues("C", TestMap).value == [3];
    assert CardValues("BC", TestMap).value == [2, 3];
    assert CardValues("ABC", TestMap).value == [1, 2, 3];
  }

  /** The sorting test holds keys "DEF" and "GHI", whose characters the map
      lacks, so `get_sorted_hands` panics whatever the key order, before
      any order can be asserted. */
  lemma SortedHandsTestPanics(order: seq<string>)
    requires Enumerates(order, TestGame.hands.Keys)
    ensures GetSortedHands(TestGame, order).Panic?
  {
    GetSortedHandsPanics(TestGame, order);
    assert "DEF" in TestGame.hands;
    assert "DEF"[0] == 'D' && 'D' !in TestMap;
    assert !KeyReads(TestGame, "DEF");
  }
}
