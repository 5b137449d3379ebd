/** The part-one driver of day7/src/bin/part1.rs: a game maps each hand
    of day7/src/bin/camelcards.rs to its wager; the hands are ordered by
    the type-first `cmp`, and each wager is multiplied by the hand's rank. */
module StandardWinnings {
  import opened Outcomes
  import opened Ranking
  import opened Text
  import opened CamelCards

  datatype Direction = Ascending | Descending

  /** `type Game = HashMap<Hand, u32>`. */
  type Game = map<Hand, U32>

  /** The order `get_ordered_hands` returns for the keys taken in the
      order `keys`: the stable sort by `cmp`, reversed for Descending. */
  function OrderedHands(keys: seq<Hand>, direction: Direction): seq<Hand> {
    var ascending := SortBy(keys, HandCompare);
    match direction
    case Ascending => ascending
    case Descending => Reversed(ascending)
  }

  /** `get_ordered_hands`: collect the keys, sort them in place with `cmp`,
      and reverse the vector in place when asked for Descending. */
  method GetOrderedHands(game: Game, keys: seq<Hand>, direction: Direction) returns (ordered: seq<Hand>)
    requires Enumerates(keys, game.Keys)
    ensures ordered == OrderedHands(keys, direction)
  {
    var sorted := SortHands(keys);
    var hands := new Hand[|sorted|](i requires 0 <= i < |sorted| => sorted[i]);
    assert hands[..] == sorted;
    if direction == Descending {
      ReverseInPlace(hands);
    }
    ordered := hands[..];
  }

  /** `sort_by(|a, b| a.cmp(b))`: each key, in turn, is inserted into the
      sorted run before it. */
  method SortHands(keys: seq<Hand>) returns (sorted: seq<Hand>)
    ensures sorted == SortBy(keys, HandCompare)
  {
    sorted := [];
    for n := 0 to |keys|
      invariant sorted == SortBy(keys[..n], HandCompare)
    {
      assert keys[..n + 1][..n] == keys[..n];
      sorted := Insert(keys[n], sorted, HandCompare);
    }
    assert keys[..|keys|] == keys;
  }

  /** `Vec::reverse`. */
  method ReverseInPlace<T>(a: array<T>)
    modifies a
    ensures a[..] == Reversed(old(a[..]))
  {
    var n := a.Length;
    for i := 0 to n / 2
      invariant forall k | 0 <= k < i :: a[k] == old(a[n - 1 - k]) && a[n - 1 - k] == old(a[k])
      invariant forall k | i <= k < n - i :: a[k] == old(a[k])
    {
      a[i], a[n - 1 - i] := a[n - 1 - i], a[i];
    }
  }

  /** Both directions hold every key exactly once. */
  lemma OrderedHandsPermutation(game: Game, keys: seq<Hand>, direction: Direction)
    requires Enumerates(keys, game.Keys)
    ensures multiset(OrderedHands(keys, direction)) == multiset(keys)
    ensures forall h :: h in OrderedHands(keys, direction) <==> h in game
  {
    var ordered := OrderedHands(keys, direction);
    ReversedMultiset(SortBy(keys, HandCompare));
    forall h ensures h in ordered <==> h in game {
      assert h in ordered <==> h in multiset(ordered);
    }
  }

  /** With every hand of one length, Ascending is sorted by `cmp`,
      Descending is sorted the other way, and each is the other reversed. */
  lemma OrderedHandsSorted(keys: seq<Hand>, n: nat)
    requires forall h | h in keys :: |h.cards| == n
    ensures SortedBy(OrderedHands(keys, Ascending), HandCompare)
    ensures forall i, j | 0 <= i < j < |keys| ::
      HandCompare(OrderedHands(keys, Descending)[j], OrderedHands(keys, Descending)[i]) != Greater
    ensures OrderedHands(keys, Descending) == Reversed(OrderedHands(keys, Ascending))
    ensures Reversed(OrderedHands(keys, Descending)) == OrderedHands(keys, Ascending)
  {
    HandCompareOrdersSameLength(Elements(keys), n);
    SortBySorted(keys, HandCompare);
    ReversedDescending(SortBy(keys, HandCompare), HandCompare);
  }

  /** With every hand of one length, the order does not depend on the
      order in which the map yields its keys. */
  lemma OrderedHandsIndependentOfOrder(game: Game, a: seq<Hand>, b: seq<Hand>, n: nat, direction: Direction)
    requires Enumerates(a, game.Keys) && Enumerates(b, game.Keys)
    requires forall h | h in game :: |h.cards| == n
    ensures OrderedHands(a, direction) == OrderedHands(b, direction)
  {
    EnumerationsAgree(a, b, game.Keys);
    SameElements(a, b);
    HandCompareOrdersSameLength(Elements(a), n);
    SortBySorted(a, HandCompare);
    SortBySorted(b, HandCompare);
    SameElements(SortBy(a, HandCompare), a);
    SortedUnique(SortBy(a, HandCompare), SortBy(b, HandCompare), HandCompare);
  }

  /** `get_total_winnings`: the fold of wager times rank over the
      ascending order. */
  function TotalWinnings(game: Game, keys: seq<Hand>): nat
    requires Enumerates(keys, game.Keys)
  {
    OrderedHandsPermutation(game, keys, Ascending);
    Winnings(OrderedHands(keys, Ascending), game)
  }

  /** An empty game wins nothing, and no game wins more than its largest
      wager times 1 + 2 + ... + n. */
  lemma TotalWinningsBound(game: Game, keys: seq<Hand>, most: nat)
    requires Enumerates(keys, game.Keys)
    requires forall h | h in game :: game[h] <= most
    ensures |game| == 0 ==> TotalWinnings(game, keys) == 0
    ensures TotalWinnings(game, keys) <= most * Triangle(|game|)
  {
    EnumerationLength(keys, game.Keys);
    OrderedHandsPermutation(game, keys, Ascending);
    WinningsBound(OrderedHands(keys, Ascending), game, most);
  }

  // ---------------------------------------------------------------------
  // Reading the input

  /** What the `filter_map` makes of one line: nothing unless it has
      exactly two words and the second is a `u32`; then the first word
      read as a hand (which may panic) with that wager. */
  function Entry(line: string): Option<Result<(Hand, U32)>> {
    var parts := SplitWhitespace(line);
    if |parts| != 2 then None
    else match ParseUnsigned(parts[1], U32Limit)
      case None => None
      case Some(wager) =>
        match ParseHand(parts[0])
        case Panic(reason) => Some(Panic(reason))
        case Ok(hand) => Some(Ok((hand, wager)))
  }

  /** The `collect` into a map: the lines in order, a panic stopping it,
      a later line for the same hand replacing the earlier wager. */
  function ParseGame(lines: seq<string>): Result<Game> {
    CollectMap(Project(lines, Entry))
  }

  /** The input is refused exactly when some kept line holds a hand that
      does not read. */
  lemma ParseGamePanics(lines: seq<string>)
    ensures ParseGame(lines).Panic? <==>
      exists i | 0 <= i < |lines| :: Entry(lines[i]).Some? && Entry(lines[i]).value.Panic?
  {
    var entries := Project(lines, Entry);
    CollectMapPanics(entries);
    assert forall i | 0 <= i < |lines| :: entries[i] == Entry(lines[i]);
  }

  /** Otherwise a hand is in the game exactly when some line keeps it, and
      its wager is the one on the last line that keeps it. */
  lemma ParseGameLastWins(lines: seq<string>)
    requires ParseGame(lines).Ok?
    ensures forall i, h | 0 <= i < |lines| && Kept(Entry(lines[i]), h) :: h in ParseGame(lines).value
    ensures forall h | h in ParseGame(lines).value ::
      exists i :: LastKept(Project(lines, Entry), i, h, ParseGame(lines).value[h])
  {
    var entries := Project(lines, Entry);
    CollectMapLastWins(entries);
    forall i, h | 0 <= i < |lines| && Kept(Entry(lines[i]), h) ensures h in ParseGame(lines).value {
      assert entries[i] == Entry(lines[i]);
    }
  }

  /** A line of a hand and a decimal wager below 2^32, separated by a
      space, is kept with that hand and wager. */
  lemma EntryOfLine(hand: string, wager: nat)
    requires |hand| > 0 && NoWhitespace(hand) && wager < U32Limit
    ensures ParseHand(hand).Ok? ==> Entry(hand + " " + Decimal(wager)) == Some(Ok((ParseHand(hand).value, wager)))
    ensures ParseHand(hand).Panic? ==> Entry(hand + " " + Decimal(wager)) == Some(Panic(ParseHand(hand).reason))
  {
    var digits := Decimal(wager);
    assert NoWhitespace(digits) by {
      forall c | c in digits ensures !IsWhitespace(c) {
        assert IsAsciiDigit(c);
      }
    }
    SplitJoinSpaced([hand, digits]);
    assert JoinSpaced([hand, digits]) == hand + " " + digits by {
      assert [hand, digits][1..] == [digits];
    }
    ParseDecimal(wager, U32Limit);
  }

  // ---------------------------------------------------------------------
  // The example session

  const H32T3K: Hand := Hand([3, 2, 10, 3, 13], OnePair)
  const HT55J5: Hand := Hand([10, 5, 5, 11, 5], ThreeOfAKind)
  const HKK677: Hand := Hand([13, 13, 6, 7, 7], TwoPair)
  const HKTJJT: Hand := Hand([13, 10, 11, 11, 10], TwoPair)
  const HQQQJA: Hand := Hand([12, 12, 12, 11, 14], ThreeOfAKind)

  const Example: Game := map[H32T3K := 765, HT55J5 := 684, HKK677 := 28, HKTJJT := 220, HQQQJA := 483]

  lemma Read32T3K()
    ensures ParseHand("32T3K") == Ok(H32T3K)
  {
    CardsOfFive("32T3K", 3, 2, 10, 3, 13);
    Type32T3K();
  }

  lemma ReadT55J5()
    ensures ParseHand("T55J5") == Ok(HT55J5)
  {
    CardsOfFive("T55J5", 10, 5, 5, 11, 5);
    TypeT55J5();
  }

  lemma ReadKK677()
    ensures ParseHand("KK677") == Ok(HKK677)
  {
    CardsOfFive("KK677", 13, 13, 6, 7, 7);
    TypeKK677();
  }

  lemma ReadKTJJT()
    ensures ParseHand("KTJJT") == Ok(HKTJJT)
  {
    CardsOfFive("KTJJT", 13, 10, 11, 11, 10);
    TypeKTJJT();
  }

  lemma ReadQQQJA()
    ensures ParseHand("QQQJA") == Ok(HQQQJA)
  {
    CardsOfFive("QQQJA", 12, 12, 12, 11, 14);
    TypeQQQJA();
  }

  lemma Type32T3K()
    ensures ClassifySpec([3, 2, 10, 3, 13]) == Ok(OnePair)
  {
    Slots32T3K();
    Top32T3K();
    ClassifyBySlots([3, 2, 10, 3, 13], [1, 2, 0, 0, 0, 0, 0, 0, 1, 0, 0, 1, 0], 1, 0, OnePair);
  }

  lemma Slots32T3K()
    ensures Slots([3, 2, 10, 3, 13]) == [1, 2, 0, 0, 0, 0, 0, 0, 1, 0, 0, 1, 0]
  {
    CountFive(3, 2, 10, 3, 13, 2);
    CountFive(3, 2, 10, 3, 13, 3);
    CountFive(3, 2, 10, 3, 13, 4);
    CountFive(3, 2, 10, 3, 13, 5);
    CountFive(3, 2, 10, 3, 13, 6);
    CountFive(3, 2, 10, 3, 13, 7);
    CountFive(3, 2, 10, 3, 13, 8);
    CountFive(3, 2, 10, 3, 13, 9);
    CountFive(3, 2, 10, 3, 13, 10);
    CountFive(3, 2, 10, 3, 13, 11);
    CountFive(3, 2, 10, 3, 13, 12);
    CountFive(3, 2, 10, 3, 13, 13);
    CountFive(3, 2, 10, 3, 13, 14);
  }


  lemma Top32T3K()
    ensures TopAt([1, 2, 0, 0, 0, 0, 0, 0, 1, 0, 0, 1, 0], 1, 0)
  {
  }

  lemma TypeT55J5()
    ensures ClassifySpec([10, 5, 5, 11, 5]) == Ok(ThreeOfAKind)
  {
    SlotsT55J5();
    TopT55J5();
    ClassifyBySlots([10, 5, 5, 11, 5], [0, 0, 0, 3, 0, 0, 0, 0, 1, 1, 0, 0, 0], 3, 8, ThreeOfAKind);
  }

  lemma SlotsT55J5()
    ensures Slots([10, 5, 5, 11, 5]) == [0, 0, 0, 3, 0, 0, 0, 0, 1, 1, 0, 0, 0]
  {
    CountFive(10, 5, 5, 11, 5, 2);
    CountFive(10, 5, 5, 11, 5, 3);
    CountFive(10, 5, 5, 11, 5, 4);
    CountFive(10, 5, 5, 11, 5, 5);
    CountFive(10, 5, 5, 11, 5, 6);
    CountFive(10, 5, 5, 11, 5, 7);
    CountFive(10, 5, 5, 11, 5, 8);
    CountFive(10, 5, 5, 11, 5, 9);
    CountFive(10, 5, 5, 11, 5, 10);
    CountFive(10, 5, 5, 11, 5, 11);
    CountFive(10, 5, 5, 11, 5, 12);
    CountFive(10, 5, 5, 11, 5, 13);
    CountFive(10, 5, 5, 11, 5, 14);
  }

  lemma TopT55J5()
    ensures TopAt([0, 0, 0, 3, 0, 0, 0, 0, 1, 1, 0, 0, 0], 3, 8)
  {
  }

  lemma TypeKK677()
    ensures ClassifySpec([13, 13, 6, 7, 7]) == Ok(TwoPair)
  {
    SlotsKK677();
    TopKK677();
    ClassifyBySlots([13, 13, 6, 7, 7], [0, 0, 0, 0, 1, 2, 0, 0, 0, 0, 0, 2, 0], 5, 11, TwoPair);
  }

  lemma SlotsKK677()
    ensures Slots([13, 13, 6, 7, 7]) == [0, 0, 0, 0, 1, 2, 0, 0, 0, 0, 0, 2, 0]
  {
    CountFive(13, 13, 6, 7, 7, 2);
    CountFive(13, 13, 6, 7, 7, 3);
    CountFive(13, 13, 6, 7, 7, 4);
    CountFive(13, 13, 6, 7, 7, 5);
    CountFive(13, 13, 6, 7, 7, 6);
    CountFive(13, 13, 6, 7, 7, 7);
    CountFive(13, 13, 6, 7, 7, 8);
    CountFive(13, 13, 6, 7, 7, 9);
    CountFive(13, 13, 6, 7, 7, 10);
    CountFive(13, 13, 6, 7, 7, 11);
    CountFive(13, 13, 6, 7, 7, 12);
    CountFive(13, 13, 6, 7, 7, 13);
    CountFive(13, 13, 6, 7, 7, 14);
  }

  lemma TopKK677()
    ensures TopAt([0, 0, 0, 0, 1, 2, 0, 0, 0, 0, 0, 2, 0], 5, 11)
  {
  }

  lemma TypeKTJJT()
    ensures ClassifySpec([13, 10, 11, 11, 10]) == Ok(TwoPair)
  {
    SlotsKTJJT();
    TopKTJJT();
    ClassifyBySlots([13, 10, 11, 11, 10], [0, 0, 0, 0, 0, 0, 0, 0, 2, 2, 0, 1, 0], 8, 9, TwoPair);
  }

  lemma SlotsKTJJT()
    ensures Slots([13, 10, 11, 11, 10]) == [0, 0, 0, 0, 0, 0, 0, 0, 2, 2, 0, 1, 0]
  {
    CountFive(13, 10, 11, 11, 10, 2);
    CountFive(13, 10, 11, 11, 10, 3);
    CountFive(13, 10, 11, 11, 10, 4);
    CountFive(13, 10, 11, 11, 10, 5);
    CountFive(13, 10, 11, 11, 10, 6);
    CountFive(13, 10, 11, 11, 10, 7);
    CountFive(13, 10, 11, 11, 10, 8);
    CountFive(13, 10, 11, 11, 10, 9);
    CountFive(13, 10, 11, 11, 10, 10);
    CountFive(13, 10, 11, 11, 10, 11);
    CountFive(13, 10, 11, 11, 10, 12);
    CountFive(13, 10, 11, 11, 10, 13);
    CountFive(13, 10, 11, 11, 10, 14);
  }

  lemma TopKTJJT()
    ensures TopAt([0, 0, 0, 0, 0, 0, 0, 0, 2, 2, 0, 1, 0], 8, 9)
  {
  }

  lemma TypeQQQJA()
    ensures ClassifySpec([12, 12, 12, 11, 14]) == Ok(ThreeOfAKind)
  {
    SlotsQQQJA();
    TopQQQJA();
    ClassifyBySlots([12, 12, 12, 11, 14], [0, 0, 0, 0, 0, 0, 0, 0, 0, 1, 3, 0, 1], 10, 9, ThreeOfAKind);
  }

  lemma SlotsQQQJA()
    ensures Slots([12, 12, 12, 11, 14]) == [0, 0, 0, 0, 0, 0, 0, 0, 0, 1, 3, 0, 1]
  {
    CountFive(12, 12, 12, 11, 14, 2);
    CountFive(12, 12, 12, 11, 14, 3);
    CountFive(12, 12, 12, 11, 14, 4);
    CountFive(12, 12, 12, 11, 14, 5);
    CountFive(12, 12, 12, 11, 14, 6);
    CountFive(12, 12, 12, 11, 14, 7);
    CountFive(12, 12, 12, 11, 14, 8);
    CountFive(12, 12, 12, 11, 14, 9);
    CountFive(12, 12, 12, 11, 14, 10);
    CountFive(12, 12, 12, 11, 14, 11);
    CountFive(12, 12, 12, 11, 14, 12);
    CountFive(12, 12, 12, 11, 14, 13);
    CountFive(12, 12, 12, 11, 14, 14);
  }

  lemma TopQQQJA()
    ensures TopAt([0, 0, 0, 0, 0, 0, 0, 0, 0, 1, 3, 0, 1], 10, 9)
  {
  }

  const ExampleAscending: seq<Hand> := [H32T3K, HKTJJT, HKK677, HT55J5, HQQQJA]

  lemma ExampleAscendingSorted()
    ensures SortedBy(ExampleAscending, HandCompare)
  {
    assert HandCompare(HKTJJT, HKK677) == Less by {
      assert ZipCompare(HKTJJT.cards, HKK677.cards) == ZipCompare(HKTJJT.cards[1..], HKK677.cards[1..]);
    }
    assert HandCompare(HT55J5, HQQQJA) == Less;
  }

  lemma ExampleAscendingEnumerates()
    ensures Enumerates(ExampleAscending, Example.Keys)
  {
  }

  lemma ExampleHandsOfFive(h: Hand)
    requires h in Example
    ensures |h.cards| == 5 && h in ExampleAscending
  {
  }

  /** The example's hands in ascending order, whichever order the map
      yields them in. */
  lemma ExampleOrder(keys: seq<Hand>)
    requires Enumerates(keys, Example.Keys)
    ensures OrderedHands(keys, Ascending) == ExampleAscending
  {
    ExampleAscendingSorted();
    ExampleAscendingEnumerates();
    forall h | h in Example ensures |h.cards| == 5 {
      ExampleHandsOfFive(h);
    }
    OrderedHandsIndependentOfOrder(Example, keys, ExampleAscending, 5, Ascending);
    var sorted := SortBy(ExampleAscending, HandCompare);
    HandCompareOrdersSameLength(Elements(ExampleAscending), 5);
    SortBySorted(ExampleAscending, HandCompare);
    SameElements(sorted, ExampleAscending);
    SortedUnique(sorted, ExampleAscending, HandCompare);
  }

  lemma ReversedFive<T>(a: T, b: T, c: T, d: T, e: T)
    ensures Reversed([a, b, c, d, e]) == [e, d, c, b, a]
  {
  }

  /** Descending lists them from QQQJA down to 32T3K. */
  lemma ExampleDescending(keys: seq<Hand>)
    requires Enumerates(keys, Example.Keys)
    ensures OrderedHands(keys, Descending) == [HQQQJA, HT55J5, HKK677, HKTJJT, H32T3K]
  {
    ExampleOrder(keys);
    ReversedFive(H32T3K, HKTJJT, HKK677, HT55J5, HQQQJA);
  }

  /** The example session wins 6440. */
  lemma ExampleWinnings(keys: seq<Hand>)
    requires Enumerates(keys, Example.Keys)
    ensures TotalWinnings(Example, keys) == 6440
  {
    ExampleOrder(keys);
    WinningsFive(H32T3K, HKTJJT, HKK677, HT55J5, HQQQJA, Example);
  }
}
