/** The joker rules of day7/src/bin/part2.rs: the input read into a map
    from hand text to wager, a classifier in which every 'J' joins the
    non-joker card of greatest value, and the total winnings over the
    ranking of day7/src/camelcards.rs. */
module JokerWinnings {
  import opened Outcomes
  import opened Ranking
  import opened Text
  import opened ValueGame
  import CamelCards

  // ---------------------------------------------------------------------
  // `parse_game_data`

  /** What the `filter_map` makes of one line: nothing unless it has
      exactly two words and the second is a `u32`; then the first word,
      unchecked, with that wager. */
  function Entry(line: string): (r: Option<Result<(string, U32)>>)
    ensures r.Some? ==> r.value.Ok?
  {
    var parts := SplitWhitespace(line);
    if |parts| != 2 then None
    else match ParseUnsigned(parts[1], U32Limit)
      case None => None
      case Some(wager) => Some(Ok((parts[0], wager)))
  }

  /** `parse_game_data`: the kept lines in order, a later line for the
      same hand replacing the earlier wager. Nothing in it panics. */
  function ParseGameData(data: string): map<string, U32> {
    var lines := Lines(data);
    var entries := Project(lines, Entry);
    assert forall i | 0 <= i < |entries| :: entries[i] == Entry(lines[i]);
    CollectMapPanics(entries);
    CollectMap(entries).value
  }

  /** A hand is in the map exactly when some line keeps it, and its wager
      is the one on the last line that keeps it. */
  lemma ParseGameDataLastWins(data: string)
    ensures forall i, h | 0 <= i < |Lines(data)| && Kept(Entry(Lines(data)[i]), h) :: h in ParseGameData(data)
    ensures forall h | h in ParseGameData(data) ::
      exists i :: LastKept(Project(Lines(data), Entry), i, h, ParseGameData(data)[h])
  {
    var lines := Lines(data);
    var entries := Project(lines, Entry);
    assert forall i | 0 <= i < |entries| :: entries[i] == Entry(lines[i]);
    CollectMapPanics(entries);
    CollectMapLastWins(entries);
  }

  /** A line of any word and a decimal wager below 2^32, separated by a
      space, is kept with that word, unchecked, and that wager. */
  lemma EntryOfLine(hand: string, wager: nat)
    requires |hand| > 0 && NoWhitespace(hand) && wager < U32Limit
    ensures Entry(hand + " " + Decimal(wager)) == Some(Ok((hand, wager)))
  {
    var digits := Decimal(wager);
    assert NoWhitespace(digits) by {
      forall c | c in digits ensures !IsWhitespace(c) {
        assert IsAsciiDigit(c);
      }
    }
    SplitJoinSpaced([hand, digits]);
    assert JoinSpaced([hand, digits]) == hand + " " + digits by {
      assert [hand, digits][1..] == [digits];
    }
    ParseDecimal(wager, U32Limit);
  }

  // ---------------------------------------------------------------------
  // `get_hand_type`

  const Joker: char := 'J'

  /** `chars().counts()`: each character of the hand with the number of
      times it occurs. */
  function CharCounts(s: string): map<char, nat> {
    map c | c in s :: Count(s, c)
  }

  /** The key `max_by_key` compares, `map.get(&c)`: an `Option<&u8>`, in
      which None lies below every value. */
  function CardKey(cardMap: CardValueMap, c: char): int {
    if c in cardMap then cardMap[c] else -1
  }

  /** `max_by_key`: the position of an element of largest key, the last
      of them when several share it. */
  function MaxByKey(cs: seq<char>, cardMap: CardValueMap): (i: nat)
    requires |cs| > 0
    ensures i < |cs|
    ensures forall k | 0 <= k < |cs| :: CardKey(cardMap, cs[k]) <= CardKey(cardMap, cs[i])
    ensures forall k | i < k < |cs| :: CardKey(cardMap, cs[k]) < CardKey(cardMap, cs[i])
  {
    if |cs| == 1 then 0
    else
      var i := MaxByKey(cs[..|cs| - 1], cardMap);
      if CardKey(cardMap, cs[|cs| - 1]) >= CardKey(cardMap, cs[i]) then |cs| - 1 else i
  }

  /** `filter(|&c| *c != 'J')` over the keys, keeping their order. */
  function NonJokers(keys: seq<char>): (r: seq<char>)
    ensures forall c :: c in r <==> c in keys && c != Joker
  {
    if |keys| == 0 then []
    else
      var init, last := keys[..|keys| - 1], keys[|keys| - 1];
      assert keys == init + [last];
      NonJokers(init) + (if last == Joker then [] else [last])
  }

  /** The card the jokers join: the non-joker key of greatest value, or
      None when every key is a joker (the `unwrap` that panics). */
  function JokerTarget(order: seq<char>, cardMap: CardValueMap): Option<char> {
    var others := NonJokers(order);
    if |others| == 0 then None else Some(others[MaxByKey(others, cardMap)])
  }

  /** The count of a character once the jokers have joined `target`. */
  function MergedCount(s: string, target: char, jokers: nat): char -> nat {
    c => Count(s, c) + (if c == target then jokers else 0)
  }

  /** The counts `values()` yields after the merge, in key order: the
      jokers' own entry is gone. */
  function MergedCounts(s: string, order: seq<char>, target: char, jokers: nat): seq<nat> {
    Project(NonJokers(order), MergedCount(s, target, jokers))
  }

  /** `join("")`: the numbers written in decimal one after another. */
  function Joined(xs: seq<int>): string
    requires forall i | 0 <= i < |xs| :: xs[i] >= 0
  {
    if |xs| == 0 then ""
    else
      Joined(xs[..|xs| - 1]) + Decimal(xs[|xs| - 1])
  }

  /** `values().sorted().join("")`. */
  function Fingerprint(counts: seq<nat>): string {
    var sorted := SortBy<int>(counts, CompareInt);
    assert forall i | 0 <= i < |sorted| :: sorted[i] >= 0 by {
      forall i | 0 <= i < |sorted| ensures sorted[i] >= 0 {
        assert sorted[i] in multiset(counts);
      }
    }
    Joined(sorted)
  }

  /** The match on the fingerprint; any other string panics. */
  function FingerprintType(fingerprint: string): Result<HandType> {
    if fingerprint == "5" then Ok(FiveOfAKind)
    else if fingerprint == "14" then Ok(FourOfAKind)
    else if fingerprint == "23" then Ok(FullHouse)
    else if fingerprint == "113" then Ok(ThreeOfAKind)
    else if fingerprint == "122" then Ok(TwoPair)
    else if fingerprint == "1112" then Ok(OnePair)
    else if fingerprint == "11111" then Ok(HighCard)
    else Panic("Invalid card count")
  }

  /** What `get_hand_type` returns when the counts map visits its keys in
      `order`: five jokers are five of a kind; otherwise the jokers join
      `JokerTarget` and the fingerprint of the counts decides. */
  function JokerType(s: string, cardMap: CardValueMap, order: seq<char>): Result<HandType>
    requires Enumerates(order, Elements(s))
  {
    var jokers := Count(s, Joker);
    if jokers == 5 then Ok(FiveOfAKind)
    else if jokers == 0 then FingerprintType(Fingerprint(MergedCounts(s, order, Joker, 0)))
    else match JokerTarget(order, cardMap)
      case None => Panic(UnwrapNone)
      case Some(target) => FingerprintType(Fingerprint(MergedCounts(s, order, target, jokers)))
  }

  /** `m` holds the counts after the merge: one entry per non-joker
      character of the hand. */
  ghost predicate HoldsMerged(m: map<char, nat>, s: string, target: char, jokers: nat) {
    && (forall c :: c in m <==> c in s && c != Joker)
    && (forall c | c in m :: m[c] == MergedCount(s, target, jokers)(c))
  }

  lemma NoJokersMerged(s: string)
    requires Count(s, Joker) == 0
    ensures HoldsMerged(CharCounts(s), s, Joker, 0)
  {
  }

  lemma JokersMerged(s: string, target: char)
    requires target in s && target != Joker
    ensures HoldsMerged(CharCounts(s)[target := Count(s, target) + Count(s, Joker)] - {Joker}, s, target, Count(s, Joker))
  {
  }

  lemma MergedCountsStep(s: string, order: seq<char>, k: nat, target: char, jokers: nat)
    requires k < |order|
    ensures MergedCounts(s, order[..k + 1], target, jokers) == MergedCounts(s, order[..k], target, jokers)
      + (if order[k] == Joker then [] else [MergedCount(s, target, jokers)(order[k])])
  {
    assert order[..k + 1][..k] == order[..k];
    var tail := if order[k] == Joker then [] else [order[k]];
    ProjectConcat(NonJokers(order[..k]), tail, MergedCount(s, target, jokers));
  }

  /** `get_hand_type`: count the characters, and with one to four jokers
      add their count to the target's entry and remove the joker entry
      from the map; then read the fingerprint off the map's values. */
  method GetHandType(hand: ValueHand, cardMap: CardValueMap, order: seq<char>) returns (r: Result<HandType>)
    requires Enumerates(order, Elements(hand.original))
    ensures r == JokerType(hand.original, cardMap, order)
  {
    var s := hand.original;
    var cardCounts := CharCounts(s);
    var numJokers := if Joker in cardCounts then cardCounts[Joker] else 0;
    assert numJokers == Count(s, Joker);
    if numJokers == 5 {
      return Ok(FiveOfAKind);
    }
    var target := Joker;
    if numJokers > 0 {
      var merged := MergeJokers(s, cardMap, order, cardCounts, numJokers);
      if merged.Panic? {
        return Panic(merged.reason);
      }
      cardCounts, target := merged.value.0, merged.value.1;
    } else {
      NoJokersMerged(s);
    }
    var values := MergedValues(s, order, cardCounts, target, numJokers);
    r := FingerprintType(Fingerprint(values));
  }

  /** The jokers' count moves to the non-joker key of greatest value and
      the jokers' own entry goes; `unwrap` panics when there is no such key. */
  method MergeJokers(s: string, cardMap: CardValueMap, order: seq<char>, cardCounts: map<char, nat>, numJokers: nat)
    returns (r: Result<(map<char, nat>, char)>)
    requires Enumerates(order, Elements(s))
    requires cardCounts == CharCounts(s) && numJokers == Count(s, Joker)
    ensures r.Panic? <==> JokerTarget(order, cardMap).None?
    ensures r.Panic? ==> r == Panic(UnwrapNone)
    ensures r.Ok? ==> r.value.1 == JokerTarget(order, cardMap).value && HoldsMerged(r.value.0, s, r.value.1, numJokers)
  {
    var others := NonJokers(order);
    if |others| == 0 {
      return Panic(UnwrapNone);
    }
    var highest := others[MaxByKey(others, cardMap)];
    assert highest in others && highest in order;
    assert highest in Elements(s);
    var newCount := cardCounts[highest] + numJokers;
    var counts := cardCounts[highest := newCount] - {Joker};
    JokersMerged(s, highest);
    r := Ok((counts, highest));
  }

  /** `values()` of the merged map, in the map's key order. */
  method MergedValues(s: string, order: seq<char>, cardCounts: map<char, nat>, target: char, jokers: nat)
    returns (values: seq<nat>)
    requires Enumerates(order, Elements(s))
    requires HoldsMerged(cardCounts, s, target, jokers)
    ensures values == MergedCounts(s, order, target, jokers)
  {
    values := [];
    for k := 0 to |order|
      invariant values == MergedCounts(s, order[..k], target, jokers)
    {
      MergedCountsStep(s, order, k, target, jokers);
      assert order[k] in order;
      assert order[k] in Elements(s);
      if order[k] in cardCounts {
        values := values + [cardCounts[order[k]]];
      }
    }
    assert order[..|order|] == order;
  }

  // ---------------------------------------------------------------------
  // Where the jokers go

  /** The jokers join a non-joker card of the hand whose value is the
      greatest, and there is one exactly when the hand holds a card other
      than 'J'. */
  lemma JokerTargetHighest(s: string, cardMap: CardValueMap, order: seq<char>)
    requires Enumerates(order, Elements(s))
    ensures JokerTarget(order, cardMap).Some? <==> exists c | c in s :: c != Joker
    ensures JokerTarget(order, cardMap).Some? ==>
      var t := JokerTarget(order, cardMap).value;
      && t in s && t != Joker
      && forall c | c in s && c != Joker :: CardKey(cardMap, c) <= CardKey(cardMap, t)
  {
    var others := NonJokers(order);
    if |others| > 0 {
      var t := others[MaxByKey(others, cardMap)];
      assert t in others;
      forall c | c in s && c != Joker ensures CardKey(cardMap, c) <= CardKey(cardMap, t) {
        assert c in others;
        var k :| 0 <= k < |others| && others[k] == c;
      }
    } else {
      forall c | c in s ensures c == Joker {
        assert c in order;
      }
    }
  }

  lemma {:induction false} MaxByKeyAgrees(cs: seq<char>, m1: CardValueMap, m2: CardValueMap)
    requires |cs| > 0
    requires forall k | 0 <= k < |cs| :: CardKey(m1, cs[k]) == CardKey(m2, cs[k])
    ensures MaxByKey(cs, m1) == MaxByKey(cs, m2)
    decreases |cs|
  {
    if |cs| > 1 {
      MaxByKeyAgrees(cs[..|cs| - 1], m1, m2);
    }
  }

  /** The joker is the character 'J' whatever the map says of it: giving
      'J' another value, or none, changes no hand's type. */
  lemma JokerValueIgnored(s: string, cardMap: CardValueMap, order: seq<char>, v: U8)
    requires Enumerates(order, Elements(s))
    ensures JokerType(s, cardMap[Joker := v], order) == JokerType(s, cardMap, order)
    ensures JokerType(s, cardMap - {Joker}, order) == JokerType(s, cardMap, order)
  {
    assert JokerTarget(order, cardMap[Joker := v]) == JokerTarget(order, cardMap) by {
      NonJokerKeysAgree(order, cardMap[Joker := v], cardMap);
    }
    assert JokerTarget(order, cardMap - {Joker}) == JokerTarget(order, cardMap) by {
      NonJokerKeysAgree(order, cardMap - {Joker}, cardMap);
    }
    JokerTypeByTarget(s, cardMap[Joker := v], cardMap, order);
    JokerTypeByTarget(s, cardMap - {Joker}, cardMap, order);
  }

  /** Two maps that agree off the joker pick the same target. */
  lemma NonJokerKeysAgree(order: seq<char>, m1: CardValueMap, m2: CardValueMap)
    requires forall c | c != Joker :: CardKey(m1, c) == CardKey(m2, c)
    ensures JokerTarget(order, m1) == JokerTarget(order, m2)
  {
    var others := NonJokers(order);
    if |others| > 0 {
      forall k | 0 <= k < |others| ensures CardKey(m1, others[k]) == CardKey(m2, others[k]) {
        assert others[k] in others;
      }
      MaxByKeyAgrees(others, m1, m2);
    }
  }

  /** The values only matter through the target they pick. */
  lemma JokerTypeByTarget(s: string, m1: CardValueMap, m2: CardValueMap, order: seq<char>)
    requires Enumerates(order, Elements(s))
    requires JokerTarget(order, m1) == JokerTarget(order, m2)
    ensures JokerType(s, m1, order) == JokerType(s, m2, order)
  {
  }

  lemma {:induction false} CountAll(s: string, x: char)
    requires forall c | c in s :: c == x
    ensures Count(s, x) == |s|
    decreases |s|
  {
    if |s| != 0 {
      var init := s[..|s| - 1];
      assert s == init + [s[|s| - 1]];
      assert multiset(s) == multiset(init) + multiset{s[|s| - 1]};
      assert s[|s| - 1] in s;
      assert forall c | c in init :: c in s;
      CountAll(init, x);
    }
  }

  /** A hand of jokers alone: five are five of a kind; none has an empty
      fingerprint, which matches nothing; any other number leaves no card
      for them to join, and the `unwrap` panics. */
  lemma JokersOnly(s: string, cardMap: CardValueMap, order: seq<char>)
    requires Enumerates(order, Elements(s))
    requires forall c | c in s :: c == Joker
    ensures |s| == 5 ==> JokerType(s, cardMap, order) == Ok(FiveOfAKind)
    ensures |s| == 0 ==> JokerType(s, cardMap, order) == Panic("Invalid card count")
    ensures |s| != 0 && |s| != 5 ==> JokerType(s, cardMap, order) == Panic(UnwrapNone)
  {
    CountAll(s, Joker);
    JokerTargetHighest(s, cardMap, order);
    if |s| == 0 {
      assert Elements(s) == {};
      EnumerationLength(order, Elements(s));
      assert Fingerprint([]) == "";
    }
  }

  // ---------------------------------------------------------------------
  // The merge keeps the number of cards

  /** The number of times each character occurs in `s`. */
  function CountOf(s: string): char -> nat {
    c => Count(s, c)
  }

  lemma SumProjectLast<A>(keys: seq<A>, f: A -> nat)
    requires |keys| > 0
    ensures Sum(Project(keys, f)) == Sum(Project(keys[..|keys| - 1], f)) + f(keys[|keys| - 1])
  {
    assert Project(keys, f)[..|keys| - 1] == Project(keys[..|keys| - 1], f);
  }

  lemma {:induction false} CountsAppended(keys: seq<char>, s: string, y: char)
    requires forall i, j | 0 <= i < j < |keys| :: keys[i] != keys[j]
    ensures Sum(Project(keys, CountOf(s + [y]))) == Sum(Project(keys, CountOf(s))) + (if y in keys then 1 else 0)
    decreases |keys|
  {
    if |keys| != 0 {
      var init, x := keys[..|keys| - 1], keys[|keys| - 1];
      assert keys == init + [x];
      CountsAppended(init, s, y);
      SumProjectLast(keys, CountOf(s + [y]));
      SumProjectLast(keys, CountOf(s));
      assert multiset(s + [y]) == multiset(s) + multiset{y};
      if x == y {
        assert y !in init by {
          forall i | 0 <= i < |init| ensures init[i] != y {
            assert keys[i] != keys[|keys| - 1];
          }
        }
      }
    }
  }

  /** Counting every character of `s` once counts all its cards. */
  lemma {:induction false} CountsTotal(keys: seq<char>, s: string)
    requires forall i, j | 0 <= i < j < |keys| :: keys[i] != keys[j]
    requires forall c | c in s :: c in keys
    ensures Sum(Project(keys, CountOf(s))) == |s|
    decreases |s|
  {
    if |s| == 0 {
      forall i | 0 <= i < |keys| ensures Project(keys, CountOf(s))[i] == 0 {
      }
      ZeroSum(Project(keys, CountOf(s)));
    } else {
      var init, y := s[..|s| - 1], s[|s| - 1];
      assert s == init + [y];
      assert forall c | c in init :: c in s;
      CountsTotal(keys, init);
      CountsAppended(keys, init, y);
    }
  }

  lemma {:induction false} ZeroSum(xs: seq<int>)
    requires forall i | 0 <= i < |xs| :: xs[i] == 0
    ensures Sum(xs) == 0
    decreases |xs|
  {
    if |xs| != 0 {
      ZeroSum(xs[..|xs| - 1]);
    }
  }

  lemma {:induction false} MergedTotal(s: string, order: seq<char>, target: char, jokers: nat)
    requires forall i, j | 0 <= i < j < |order| :: order[i] != order[j]
    ensures Sum(MergedCounts(s, order, target, jokers)) + (if Joker in order then Count(s, Joker) else 0)
         == Sum(Project(order, CountOf(s))) + (if target in order && target != Joker then jokers else 0)
    decreases |order|
  {
    if |order| != 0 {
      var init, x := order[..|order| - 1], order[|order| - 1];
      assert order == init + [x];
      DistinctLast(order);
      MergedTotal(s, init, target, jokers);
      SumProjectLast(order, CountOf(s));
      var tail := if x == Joker then [] else [x];
      assert NonJokers(order) == NonJokers(init) + tail;
      ProjectConcat(NonJokers(init), tail, MergedCount(s, target, jokers));
      SumConcat(MergedCounts(s, init, target, jokers), Project(tail, MergedCount(s, target, jokers)));
      SumProjectOptional(x, MergedCount(s, target, jokers));
    }
  }

  /** The sum over the tail a key contributes to `NonJokers`. */
  lemma SumProjectOptional(x: char, f: char -> nat)
    ensures Sum(Project(if x == Joker then [] else [x], f)) == if x == Joker then 0 else f(x)
  {
    if x != Joker {
      assert Project([x], f) == [f(x)];
      assert [f(x)][..0] == [];
    }
  }

  /** Moving the jokers' count onto the target keeps the number of cards:
      the counts after the merge add up to the length of the hand. */
  lemma MergePreservesTotal(s: string, order: seq<char>, target: char)
    requires Enumerates(order, Elements(s))
    requires target != Joker ==> target in s
    requires target == Joker ==> Count(s, Joker) == 0
    ensures Sum(MergedCounts(s, order, target, Count(s, Joker))) == |s|
  {
    MergedTotal(s, order, target, Count(s, Joker));
    CountsTotal(order, s);
  }

  // ---------------------------------------------------------------------
  // The fingerprint of a five-card hand

  /** The hand type of a multiset of counts adding up to five, by the
      rules of the game: a count of five, of four, of three and of two,
      of three, two counts of two, one count of two, none. */
  function CountsType(m: multiset<int>): HandType {
    if m[5] > 0 then FiveOfAKind
    else if m[4] > 0 then FourOfAKind
    else if m[3] > 0 && m[2] > 0 then FullHouse
    else if m[3] > 0 then ThreeOfAKind
    else if m[2] >= 2 then TwoPair
    else if m[2] > 0 then OnePair
    else HighCard
  }

  lemma {:induction false} SumAtLeastLength(xs: seq<int>)
    requires forall i | 0 <= i < |xs| :: xs[i] >= 1
    ensures Sum(xs) >= |xs|
    decreases |xs|
  {
    if |xs| != 0 {
      SumAtLeastLength(xs[..|xs| - 1]);
    }
  }

  lemma SumOfFew(xs: seq<int>)
    requires 1 <= |xs| <= 5
    ensures |xs| == 1 ==> Sum(xs) == xs[0]
    ensures |xs| == 2 ==> Sum(xs) == xs[0] + xs[1]
    ensures |xs| == 3 ==> Sum(xs) == xs[0] + xs[1] + xs[2]
    ensures |xs| == 4 ==> Sum(xs) == xs[0] + xs[1] + xs[2] + xs[3]
    ensures |xs| == 5 ==> Sum(xs) == xs[0] + xs[1] + xs[2] + xs[3] + xs[4]
  {
    var n := |xs|;
    assert xs[..1][..0] == [];
    if n >= 2 {
      assert xs[..2][..1] == xs[..1];
    }
    if n >= 3 {
      assert xs[..3][..2] == xs[..2];
    }
    if n >= 4 {
      assert xs[..4][..3] == xs[..3];
    }
    if n >= 5 {
      assert xs[..5][..4] == xs[..4];
    }
    assert xs[..n] == xs;
  }

  /** The seven ways of writing five as an ascending sum of positive
      counts. */
  lemma PartitionsOfFive(ys: seq<int>)
    requires forall i, j | 0 <= i < j < |ys| :: ys[i] <= ys[j]
    requires forall i | 0 <= i < |ys| :: ys[i] >= 1
    requires Sum(ys) == 5
    ensures 1 <= |ys| <= 5
    ensures |ys| == 1 ==> ys[0] == 5
    ensures |ys| == 2 ==> (ys[0] == 1 && ys[1] == 4) || (ys[0] == 2 && ys[1] == 3)
    ensures |ys| == 3 ==> ys[0] == 1 && ((ys[1] == 1 && ys[2] == 3) || (ys[1] == 2 && ys[2] == 2))
    ensures |ys| == 4 ==> ys[0] == 1 && ys[1] == 1 && ys[2] == 1 && ys[3] == 2
    ensures |ys| == 5 ==> ys[0] == 1 && ys[1] == 1 && ys[2] == 1 && ys[3] == 1 && ys[4] == 1
  {
    SumAtLeastLength(ys);
    assert |ys| != 0;
    SumOfFew(ys);
    var n := |ys|;
    if n >= 2 {
      assert ys[0] <= ys[1];
    }
    if n >= 3 {
      assert ys[1] <= ys[2];
    }
    if n >= 4 {
      assert ys[2] <= ys[3];
    }
    if n >= 5 {
      assert ys[3] <= ys[4];
    }
  }

  lemma JoinedStep(xs: seq<int>, x: int)
    requires forall i | 0 <= i < |xs| :: xs[i] >= 0
    requires x >= 0
    ensures Joined(xs + [x]) == Joined(xs) + Decimal(x)
  {
    assert (xs + [x])[..|xs|] == xs;
  }

  lemma JoinedDigits(a: int, b: int, c: int, d: int, e: int)
    requires 0 <= a < 10 && 0 <= b < 10 && 0 <= c < 10 && 0 <= d < 10 && 0 <= e < 10
    ensures Joined([a]) == Decimal(a)
    ensures Joined([a, b]) == Decimal(a) + Decimal(b)
    ensures Joined([a, b, c]) == Decimal(a) + Decimal(b) + Decimal(c)
    ensures Joined([a, b, c, d]) == Decimal(a) + Decimal(b) + Decimal(c) + Decimal(d)
    ensures Joined([a, b, c, d, e]) == Decimal(a) + Decimal(b) + Decimal(c) + Decimal(d) + Decimal(e)
  {
    JoinedStep([], a);
    assert [] + [a] == [a];
    JoinedStep([a], b);
    assert [a] + [b] == [a, b];
    JoinedStep([a, b], c);
    assert [a, b] + [c] == [a, b, c];
    JoinedStep([a, b, c], d);
    assert [a, b, c] + [d] == [a, b, c, d];
    JoinedStep([a, b, c, d], e);
    assert [a, b, c, d] + [e] == [a, b, c, d, e];
  }

  lemma Partition5()
    ensures FingerprintType(Joined([5])) == Ok(FiveOfAKind)
    ensures CountsType(multiset([5])) == FiveOfAKind
  {
    Joined5();
    assert multiset([5]) == multiset{5};
  }

  lemma Joined5()
    ensures Joined([5]) == "5"
  {
    JoinedDigits(5, 0, 0, 0, 0);
    assert Decimal(5) == "5";
  }

  lemma Partition14()
    ensures FingerprintType(Joined([1, 4])) == Ok(FourOfAKind)
    ensures CountsType(multiset([1, 4])) == FourOfAKind
  {
    Joined14();
    assert multiset([1, 4]) == multiset{1, 4};
  }

  lemma Joined14()
    ensures Joined([1, 4]) == "14"
  {
    JoinedDigits(1, 4, 0, 0, 0);
    assert Decimal(1) == "1" && Decimal(4) == "4";
  }

  lemma Partition23()
    ensures FingerprintType(Joined([2, 3])) == Ok(FullHouse)
    ensures CountsType(multiset([2, 3])) == FullHouse
  {
    Joined23();
    assert multiset([2, 3]) == multiset{2, 3};
  }

  lemma Joined23()
    ensures Joined([2, 3]) == "23"
  {
    JoinedDigits(2, 3, 0, 0, 0);
    assert Decimal(2) == "2" && Decimal(3) == "3";
  }

  lemma Partition113()
    ensures FingerprintType(Joined([1, 1, 3])) == Ok(ThreeOfAKind)
    ensures CountsType(multiset([1, 1, 3])) == ThreeOfAKind
  {
    Joined113();
    assert multiset([1, 1, 3]) == multiset{1, 1, 3};
  }

  lemma Joined113()
    ensures Joined([1, 1, 3]) == "113"
  {
    JoinedDigits(1, 1, 3, 0, 0);
    assert Decimal(1) == "1" && Decimal(3) == "3";
  }

  lemma Partition122()
    ensures FingerprintType(Joined([1, 2, 2])) == Ok(TwoPair)
    ensures CountsType(multiset([1, 2, 2])) == TwoPair
  {
    Joined122();
    assert multiset([1, 2, 2]) == multiset{1, 2, 2};
  }

  lemma Joined122()
    ensures Joined([1, 2, 2]) == "122"
  {
    JoinedDigits(1, 2, 2, 0, 0);
    assert Decimal(1) == "1" && Decimal(2) == "2";
  }

  lemma Partition1112()
    ensures FingerprintType(Joined([1, 1, 1, 2])) == Ok(OnePair)
    ensures CountsType(multiset([1, 1, 1, 2])) == OnePair
  {
    Joined1112();
    assert multiset([1, 1, 1, 2]) == multiset{1, 1, 1, 2};
  }

  lemma Joined1112()
    ensures Joined([1, 1, 1, 2]) == "1112"
  {
    JoinedDigits(1, 1, 1, 2, 0);
    assert Decimal(1) == "1" && Decimal(2) == "2";
  }

  lemma Partition11111()
    ensures FingerprintType(Joined([1, 1, 1, 1, 1])) == Ok(HighCard)
    ensures CountsType(multiset([1, 1, 1, 1, 1])) == HighCard
  {
    Joined11111();
    assert multiset([1, 1, 1, 1, 1]) == multiset{1, 1, 1, 1, 1};
  }

  lemma Joined11111()
    ensures Joined([1, 1, 1, 1, 1]) == "11111"
  {
    JoinedDigits(1, 1, 1, 1, 1);
    assert Decimal(1) == "1";
  }

  /** Sorting counts keeps them positive and their sum, and puts them in
      ascending order. */
  lemma SortedCounts(xs: seq<int>)
    requires forall i | 0 <= i < |xs| :: xs[i] >= 1
    ensures var ys := SortBy(xs, CompareInt);
      && multiset(ys) == multiset(xs)
      && Sum(ys) == Sum(xs)
      && (forall i | 0 <= i < |ys| :: ys[i] >= 1)
      && (forall i, j | 0 <= i < j < |ys| :: ys[i] <= ys[j])
  {
    var ys := SortBy(xs, CompareInt);
    CompareIntTotal(Elements(xs));
    SortBySorted(xs, CompareInt);
    SumPermutation(ys, xs);
    forall i | 0 <= i < |ys| ensures ys[i] >= 1 {
      assert ys[i] in multiset(xs);
    }
    forall i, j | 0 <= i < j < |ys| ensures ys[i] <= ys[j] {
      assert CompareInt(ys[i], ys[j]) != Greater;
    }
  }

  lemma IsPartition5(ys: seq<int>)
    requires |ys| == 1 && ys[0] == 5
    ensures forall i | 0 <= i < |ys| :: ys[i] >= 0
    ensures FingerprintType(Joined(ys)) == Ok(CountsType(multiset(ys)))
  {
    var p := [5];
    assert ys == p;
    assert forall i | 0 <= i < |ys| :: ys[i] >= 0;
    Partition5();
    assert Joined(ys) == Joined(p);
    assert multiset(ys) == multiset(p);
  }

  lemma IsPartition14(ys: seq<int>)
    requires |ys| == 2 && ys[0] == 1 && ys[1] == 4
    ensures forall i | 0 <= i < |ys| :: ys[i] >= 0
    ensures FingerprintType(Joined(ys)) == Ok(CountsType(multiset(ys)))
  {
    var p := [1, 4];
    assert ys == p;
    assert forall i | 0 <= i < |ys| :: ys[i] >= 0;
    Partition14();
    assert Joined(ys) == Joined(p);
    assert multiset(ys) == multiset(p);
  }

  lemma IsPartition23(ys: seq<int>)
    requires |ys| == 2 && ys[0] == 2 && ys[1] == 3
    ensures forall i | 0 <= i < |ys| :: ys[i] >= 0
    ensures FingerprintType(Joined(ys)) == Ok(CountsType(multiset(ys)))
  {
    var p := [2, 3];
    assert ys == p;
    assert forall i | 0 <= i < |ys| :: ys[i] >= 0;
    Partition23();
    assert Joined(ys) == Joined(p);
    assert multiset(ys) == multiset(p);
  }

  lemma IsPartition113(ys: seq<int>)
    requires |ys| == 3 && ys[0] == 1 && ys[1] == 1 && ys[2] == 3
    ensures forall i | 0 <= i < |ys| :: ys[i] >= 0
    ensures FingerprintType(Joined(ys)) == Ok(CountsType(multiset(ys)))
  {
    var p := [1, 1, 3];
    assert ys == p;
    assert forall i | 0 <= i < |ys| :: ys[i] >= 0;
    Partition113();
    assert Joined(ys) == Joined(p);
    assert multiset(ys) == multiset(p);
  }

  lemma IsPartition122(ys: seq<int>)
    requires |ys| == 3 && ys[0] == 1 && ys[1] == 2 && ys[2] == 2
    ensures forall i | 0 <= i < |ys| :: ys[i] >= 0
    ensures FingerprintType(Joined(ys)) == Ok(CountsType(multiset(ys)))
  {
    var p := [1, 2, 2];
    assert ys == p;
    assert forall i | 0 <= i < |ys| :: ys[i] >= 0;
    Partition122();
    assert Joined(ys) == Joined(p);
    assert multiset(ys) == multiset(p);
  }

  lemma IsPartition1112(ys: seq<int>)
    requires |ys| == 4 && ys[0] == 1 && ys[1] == 1 && ys[2] == 1 && ys[3] == 2
    ensures forall i | 0 <= i < |ys| :: ys[i] >= 0
    ensures FingerprintType(Joined(ys)) == Ok(CountsType(multiset(ys)))
  {
    var p := [1, 1, 1, 2];
    assert ys == p;
    assert forall i | 0 <= i < |ys| :: ys[i] >= 0;
    Partition1112();
    assert Joined(ys) == Joined(p);
    assert multiset(ys) == multiset(p);
  }

  lemma IsPartition11111(ys: seq<int>)
    requires |ys| == 5 && ys[0] == 1 && ys[1] == 1 && ys[2] == 1 && ys[3] == 1 && ys[4] == 1
    ensures forall i | 0 <= i < |ys| :: ys[i] >= 0
    ensures FingerprintType(Joined(ys)) == Ok(CountsType(multiset(ys)))
  {
    var p := [1, 1, 1, 1, 1];
    assert ys == p;
    assert forall i | 0 <= i < |ys| :: ys[i] >= 0;
    Partition11111();
    assert Joined(ys) == Joined(p);
    assert multiset(ys) == multiset(p);
  }

  /** The fingerprint of the seven ascending partitions of five. */
  lemma SortedFingerprint(ys: seq<int>)
    requires 1 <= |ys| <= 5
    requires |ys| == 1 ==> ys[0] == 5
    requires |ys| == 2 ==> (ys[0] == 1 && ys[1] == 4) || (ys[0] == 2 && ys[1] == 3)
    requires |ys| == 3 ==> ys[0] == 1 && ((ys[1] == 1 && ys[2] == 3) || (ys[1] == 2 && ys[2] == 2))
    requires |ys| == 4 ==> ys[0] == 1 && ys[1] == 1 && ys[2] == 1 && ys[3] == 2
    requires |ys| == 5 ==> ys[0] == 1 && ys[1] == 1 && ys[2] == 1 && ys[3] == 1 && ys[4] == 1
    ensures forall i | 0 <= i < |ys| :: ys[i] >= 0
    ensures FingerprintType(Joined(ys)) == Ok(CountsType(multiset(ys)))
  {
    if |ys| == 1 {
      IsPartition5(ys);
    } else if |ys| == 2 && ys[0] == 1 {
      IsPartition14(ys);
    } else if |ys| == 2 {
      IsPartition23(ys);
    } else if |ys| == 3 && ys[1] == 1 {
      IsPartition113(ys);
    } else if |ys| == 3 {
      IsPartition122(ys);
    } else if |ys| == 4 {
      IsPartition1112(ys);
    } else {
      IsPartition11111(ys);
    }
  }

  /** For counts that are positive and add up to five, the match on the
      fingerprint is the rule of the game: it never panics, and it names
      the type the multiset of counts has. */
  lemma FingerprintRule(counts: seq<nat>)
    requires forall i | 0 <= i < |counts| :: counts[i] >= 1
    requires Sum(counts) == 5
    ensures FingerprintType(Fingerprint(counts)) == Ok(CountsType(multiset(counts)))
  {
    var ys := SortBy<int>(counts, CompareInt);
    SortedCounts(counts);
    PartitionsOfFive(ys);
    SortedFingerprint(ys);
  }

  /** The card the jokers' count is added to; with no jokers nothing is
      added, and 'J' stands for "no card". */
  function MergeTarget(s: string, cardMap: CardValueMap, order: seq<char>): char {
    if Count(s, Joker) == 0 then Joker
    else match JokerTarget(order, cardMap)
      case Some(t) => t
      case None => Joker
  }

  /** A five-card hand with fewer than five jokers is classified by the
      rule of the game applied to its counts after the merge: the match on
      the fingerprint never panics. */
  lemma JokerTypeOfFive(s: string, cardMap: CardValueMap, order: seq<char>)
    requires Enumerates(order, Elements(s))
    requires |s| == 5 && Count(s, Joker) < 5
    ensures Count(s, Joker) > 0 ==> JokerTarget(order, cardMap).Some?
    ensures JokerType(s, cardMap, order) ==
      Ok(CountsType(multiset(MergedCounts(s, order, MergeTarget(s, cardMap, order), Count(s, Joker)))))
  {
    var jokers := Count(s, Joker);
    JokerTargetHighest(s, cardMap, order);
    if jokers > 0 {
      NotAllJokers(s);
    }
    var target := MergeTarget(s, cardMap, order);
    var counts := MergedCounts(s, order, target, jokers);
    MergePreservesTotal(s, order, target);
    MergedCountsPositive(s, order, target, jokers);
    FingerprintRule(counts);
  }

  /** A hand with fewer jokers than cards holds some other card. */
  lemma NotAllJokers(s: string)
    requires Count(s, Joker) < |s|
    ensures exists c | c in s :: c != Joker
  {
    if forall c | c in s :: c == Joker {
      CountAll(s, Joker);
    }
  }

  /** Every key of the hand other than the joker has a positive count. */
  lemma MergedCountsPositive(s: string, order: seq<char>, target: char, jokers: nat)
    requires Enumerates(order, Elements(s))
    ensures forall i | 0 <= i < |MergedCounts(s, order, target, jokers)| :: MergedCounts(s, order, target, jokers)[i] >= 1
  {
    var counts := MergedCounts(s, order, target, jokers);
    forall i | 0 <= i < |counts| ensures counts[i] >= 1 {
      var c := NonJokers(order)[i];
      assert c in NonJokers(order);
      assert c in s;
      assert c in multiset(s);
    }
  }

  /** Dropping the jokers from an enumeration of some characters
      enumerates the other characters. */
  lemma {:induction false} NonJokersEnumerate(order: seq<char>, keys: set<char>)
    requires Enumerates(order, keys)
    ensures Enumerates(NonJokers(order), keys - {Joker})
    decreases |order|
  {
    if |order| != 0 {
      var init, last := order[..|order| - 1], order[|order| - 1];
      assert order == init + [last];
      DistinctLast(order);
      NonJokersEnumerate(init, keys - {last});
    }
  }

  /** The merged counts, whatever order the map yields its keys in, are a
      rearrangement of the merged counts listed in any other order. */
  lemma MergedCountsAre(s: string, order: seq<char>, target: char, jokers: nat, others: seq<char>)
    requires Enumerates(order, Elements(s))
    requires Enumerates(others, Elements(s) - {Joker})
    ensures multiset(MergedCounts(s, order, target, jokers)) == multiset(Project(others, MergedCount(s, target, jokers)))
  {
    NonJokersEnumerate(order, Elements(s));
    EnumerationsAgree(NonJokers(order), others, Elements(s) - {Joker});
    ProjectMultiset(NonJokers(order), others, MergedCount(s, target, jokers));
  }

  /** The card values of part two: 'J' is worth 1, below '2'. */
  const JokerCardMap: CardValueMap := map[
    'J' := 1, '2' := 2, '3' := 3, '4' := 4, '5' := 5, '6' := 6, '7' := 7,
    '8' := 8, '9' := 9, 'T' := 10, 'Q' := 12, 'K' := 13, 'A' := 14]

  /** Given where the jokers go and the merged counts in one order of the
      other characters, the type is the rule of the game on those counts. */
  lemma JokerTypeByCounts(s: string, cardMap: CardValueMap, order: seq<char>, target: char, others: seq<char>, counts: seq<nat>)
    requires Enumerates(order, Elements(s))
    requires |s| == 5 && Count(s, Joker) < 5
    requires MergeTarget(s, cardMap, order) == target
    requires Enumerates(others, Elements(s) - {Joker})
    requires Project(others, MergedCount(s, target, Count(s, Joker))) == counts
    ensures JokerType(s, cardMap, order) == Ok(CountsType(multiset(counts)))
  {
    JokerTypeOfFive(s, cardMap, order);
    MergedCountsAre(s, order, target, Count(s, Joker), others);
  }

  lemma CountsTypeTwoPair(counts: seq<int>)
    requires |counts| == 3 && counts[0] == 2 && counts[1] == 1 && counts[2] == 2
    ensures CountsType(multiset(counts)) == TwoPair
  {
    assert counts == [2, 1, 2];
    assert multiset(counts) == multiset{1, 2, 2};
  }

  /** The characters of a hand and their counts, read off its multiset. */
  lemma HandOfMultiset(s: string, m: multiset<char>)
    requires multiset(s) == m
    ensures Elements(s) == set c | c in m
    ensures forall c :: Count(s, c) == m[c]
  {
    forall c ensures c in s <==> c in m {
      assert c in s <==> c in multiset(s);
    }
  }

  /** A non-joker card of the hand worth more than every other non-joker
      card is the one the jokers join. */
  lemma JokerTargetIs(s: string, cardMap: CardValueMap, order: seq<char>, target: char)
    requires Enumerates(order, Elements(s))
    requires target in s && target != Joker && target in cardMap
    requires forall c | c in s && c != Joker && c != target :: CardKey(cardMap, c) < cardMap[target]
    ensures JokerTarget(order, cardMap) == Some(target)
  {
    JokerTargetHighest(s, cardMap, order);
  }

  /** The jokers join the card of greatest value even when another card
      is more frequent: in 22J3K they join the K, making two pairs, where
      joining the pair of 2s would make three of a kind. */
  lemma HighestNotMostFrequent(order: seq<char>)
    requires Enumerates(order, Elements("22J3K"))
    ensures JokerTarget(order, JokerCardMap) == Some('K')
    ensures JokerType("22J3K", JokerCardMap, order) == Ok(TwoPair)
  {
    Facts22J3K();
    Target22J3K(order);
    Counts22J3K();
    JokerTypeByCounts("22J3K", JokerCardMap, order, 'K', ['2', '3', 'K'], Project(['2', '3', 'K'], MergedCount("22J3K", 'K', 1)));
  }

  lemma Facts22J3K()
    ensures Elements("22J3K") == {'2', 'J', '3', 'K'}
    ensures Elements("22J3K") - {Joker} == {'2', '3', 'K'}
    ensures Enumerates(['2', '3', 'K'], Elements("22J3K") - {Joker})
    ensures |"22J3K"| == 5
    ensures Count("22J3K", Joker) == 1 && Count("22J3K", '2') == 2 && Count("22J3K", '3') == 1 && Count("22J3K", 'K') == 1
  {
    var m := multiset{'2', '2', 'J', '3', 'K'};
    assert multiset("22J3K") == m;
    HandOfMultiset("22J3K", m);
  }

  lemma Target22J3K(order: seq<char>)
    requires Enumerates(order, Elements("22J3K"))
    ensures JokerTarget(order, JokerCardMap) == Some('K')
  {
    Facts22J3K();
    JokerTargetIs("22J3K", JokerCardMap, order, 'K');
  }

  lemma Counts22J3K()
    ensures CountsType(multiset(Project(['2', '3', 'K'], MergedCount("22J3K", 'K', 1)))) == TwoPair
  {
    Facts22J3K();
    var counts := Project(['2', '3', 'K'], MergedCount("22J3K", 'K', 1));
    assert counts[0] == 2 && counts[1] == 1 && counts[2] == 2;
    CountsTypeTwoPair(counts);
  }

  lemma CountsTypeOnePair(counts: seq<int>)
    requires counts == [2, 1, 1, 1]
    ensures CountsType(multiset(counts)) == OnePair
  {
    assert multiset(counts) == multiset{1, 1, 1, 2};
  }

  lemma CountsTypeFullHouse(counts: seq<int>)
    requires counts == [2, 3] || counts == [3, 2]
    ensures CountsType(multiset(counts)) == FullHouse
  {
    assert multiset(counts) == multiset{2, 3};
  }

  // ---------------------------------------------------------------------
  // The session

  /** The characters of `s`, each once, in order of first appearance. The
      model lets the counts map of `get_hand_type` yield its keys in this
      order; `JokerTypeIndependentOfOrder` shows that under a card map
      that tells the characters apart the order does not matter. */
  function Distinct(s: string): (r: seq<char>)
    ensures Enumerates(r, Elements(s))
  {
    if |s| == 0 then []
    else
      var init, last := s[..|s| - 1], s[|s| - 1];
      assert s == init + [last];
      var r := Distinct(init);
      if last in r then r else r + [last]
  }

  /** `get_hand_type`, as handed to `Game::new`. */
  function JokerClassifier(hand: ValueHand, cardMap: CardValueMap): Result<HandType> {
    JokerType(hand.original, cardMap, Distinct(hand.original))
  }

  /** Sorting two rearrangements of the same integers gives one answer. */
  lemma SortIntsUnique(a: seq<int>, b: seq<int>)
    requires multiset(a) == multiset(b)
    ensures SortBy(a, CompareInt) == SortBy(b, CompareInt)
  {
    CompareIntTotal(Elements(a));
    CompareIntTotal(Elements(b));
    SortBySorted(a, CompareInt);
    SortBySorted(b, CompareInt);
    SameElements(SortBy(a, CompareInt), a);
    SortedUnique(SortBy(a, CompareInt), SortBy(b, CompareInt), CompareInt);
  }

  /** When the card map holds every non-joker character of the hand and
      gives different characters different values, the type does not
      depend on the order in which the counts map yields its keys. */
  lemma JokerTypeIndependentOfOrder(s: string, cardMap: CardValueMap, a: seq<char>, b: seq<char>)
    requires Enumerates(a, Elements(s)) && Enumerates(b, Elements(s))
    requires forall c | c in s && c != Joker :: c in cardMap
    requires forall c, d | c in cardMap && d in cardMap && c != d :: cardMap[c] != cardMap[d]
    ensures JokerType(s, cardMap, a) == JokerType(s, cardMap, b)
  {
    var jokers := Count(s, Joker);
    if jokers != 5 {
      JokerTargetHighest(s, cardMap, a);
      JokerTargetHighest(s, cardMap, b);
      assert JokerTarget(a, cardMap) == JokerTarget(b, cardMap) by {
        if JokerTarget(a, cardMap).Some? {
          var ta, tb := JokerTarget(a, cardMap).value, JokerTarget(b, cardMap).value;
          assert CardKey(cardMap, ta) == CardKey(cardMap, tb);
        }
      }
      var target := MergeTarget(s, cardMap, a);
      NonJokersEnumerate(b, Elements(s));
      MergedCountsAre(s, a, target, jokers, NonJokers(b));
      SortIntsUnique(MergedCounts(s, a, target, jokers), MergedCounts(s, b, target, jokers));
    }
  }

  /** Every hand `get_sorted_hands` returns finds its wager, so the
      `unwrap` in `get_total_winnings` never fails. */
  lemma SortedHandsFindWagers(game: Game, order: seq<string>)
    requires Enumerates(order, game.hands.Keys) && GetSortedHands(game, order).Ok?
    ensures forall k | k in Project(GetSortedHands(game, order).value, Original) :: k in game.hands
    ensures forall h | h in GetSortedHands(game, order).value :: GetWinningForHand(game, h).Some?
  {
    GetSortedHandsRanks(game, order);
    var hands := GetSortedHands(game, order).value;
    forall k | k in Project(hands, Original) ensures k in game.hands {
      assert k in multiset(order);
    }
    forall h | h in hands ensures GetWinningForHand(game, h).Some? {
      var i :| 0 <= i < |hands| && hands[i] == h;
      assert Project(hands, Original)[i] == h.original;
    }
  }

  /** `get_total_winnings`: the fold of wager times rank over the order of
      `get_sorted_hands`, whose panics it passes on. */
  function TotalWinnings(game: Game, order: seq<string>): (r: Result<nat>)
    requires Enumerates(order, game.hands.Keys)
    ensures r.Ok? <==> GetSortedHands(game, order).Ok?
  {
    var hands :- GetSortedHands(game, order);
    SortedHandsFindWagers(game, order);
    Ok(Winnings(Project(hands, Original), game.hands))
  }

  /** An empty game wins nothing; no game wins more than its largest wager
      times 1 + 2 + ... + n, which is what decides whether the `u32` fold
      can overflow. */
  lemma TotalWinningsBound(game: Game, order: seq<string>, most: nat)
    requires Enumerates(order, game.hands.Keys)
    requires forall k | k in game.hands :: game.hands[k] <= most
    ensures |game.hands| == 0 ==> TotalWinnings(game, order) == Ok(0)
    ensures TotalWinnings(game, order).Ok? ==> TotalWinnings(game, order).value <= most * Triangle(|game.hands|)
  {
    EnumerationLength(order, game.hands.Keys);
    GetSortedHandsPanics(game, order);
    if GetSortedHands(game, order).Ok? {
      SortedHandsFindWagers(game, order);
      GetSortedHandsRanks(game, order);
      var ranked := Project(GetSortedHands(game, order).value, Original);
      assert |ranked| == |game.hands| by {
        assert |ranked| == |multiset(ranked)| == |multiset(order)|;
      }
      WinningsBound(ranked, game.hands, most);
      if |game.hands| == 0 {
        assert |order| == 0;
      }
    }
  }

  /** Under a card map that tells the characters apart, the winnings do not
      depend on the order in which the game yields its hands. */
  lemma TotalWinningsIndependentOfOrder(game: Game, a: seq<string>, b: seq<string>)
    requires Enumerates(a, game.hands.Keys) && Enumerates(b, game.hands.Keys)
    requires forall c, d | c in game.cardMap && d in game.cardMap && c != d :: game.cardMap[c] != game.cardMap[d]
    ensures TotalWinnings(game, a).Ok? <==> TotalWinnings(game, b).Ok?
    ensures TotalWinnings(game, a).Ok? ==> TotalWinnings(game, a) == TotalWinnings(game, b)
  {
    GetSortedHandsIndependentOfOrder(game, a, b);
  }

  // ---------------------------------------------------------------------
  // The example session

  /** The symbol worth `v` under the part-two map. */
  function SymbolOf(v: int): char {
    match v
    case 1 => 'J'
    case 2 => '2'
    case 3 => '3'
    case 4 => '4'
    case 5 => '5'
    case 6 => '6'
    case 7 => '7'
    case 8 => '8'
    case 9 => '9'
    case 10 => 'T'
    case 12 => 'Q'
    case 13 => 'K'
    case 14 => 'A'
    case _ => '?'
  }

  /** The part-two map gives different characters different values. */
  lemma JokerCardMapInjective()
    ensures forall c, d | c in JokerCardMap && d in JokerCardMap && c != d :: JokerCardMap[c] != JokerCardMap[d]
  {
    assert forall c | c in JokerCardMap :: SymbolOf(JokerCardMap[c]) == c;
  }

  /** A hand all of whose characters the map holds reads to their values. */
  lemma ReadsTo(hand: string, cardMap: CardValueMap, values: seq<U8>)
    requires |hand| == |values|
    requires forall i | 0 <= i < |hand| :: hand[i] in cardMap && cardMap[hand[i]] == values[i]
    ensures HandFromStr(hand, cardMap) == Ok(ValueHand(hand, values))
  {
    forall c | c in hand ensures c in cardMap {
      var i :| 0 <= i < |hand| && hand[i] == c;
    }
    assert CardValues(hand, cardMap).value == values;
  }

  const ExampleHands: map<string, U32> :=
    map["32T3K" := 765, "T55J5" := 684, "KK677" := 28, "KTJJT" := 220, "QQQJA" := 483]

  const JokerExample: Game := Game(ExampleHands, JokerCardMap, JokerClassifier)

  const V32T3K: ValueHand := ValueHand("32T3K", [3, 2, 10, 3, 13])
  const VT55J5: ValueHand := ValueHand("T55J5", [10, 5, 5, 1, 5])
  const VKK677: ValueHand := ValueHand("KK677", [13, 13, 6, 7, 7])
  const VKTJJT: ValueHand := ValueHand("KTJJT", [13, 10, 1, 1, 10])
  const VQQQJA: ValueHand := ValueHand("QQQJA", [12, 12, 12, 1, 14])

  lemma Read32T3K()
    ensures HandFromStr("32T3K", JokerCardMap) == Ok(V32T3K)
  {
    var h: string := "32T3K";
    assert h == ['3', '2', 'T', '3', 'K'];
    ReadsTo(h, JokerCardMap, [3, 2, 10, 3, 13]);
  }

  lemma ReadT55J5()
    ensures HandFromStr("T55J5", JokerCardMap) == Ok(VT55J5)
  {
    var h: string := "T55J5";
    assert h == ['T', '5', '5', 'J', '5'];
    ReadsTo(h, JokerCardMap, [10, 5, 5, 1, 5]);
  }

  lemma ReadKK677()
    ensures HandFromStr("KK677", JokerCardMap) == Ok(VKK677)
  {
    var h: string := "KK677";
    assert h == ['K', 'K', '6', '7', '7'];
    ReadsTo(h, JokerCardMap, [13, 13, 6, 7, 7]);
  }

  lemma ReadKTJJT()
    ensures HandFromStr("KTJJT", JokerCardMap) == Ok(VKTJJT)
  {
    var h: string := "KTJJT";
    assert h == ['K', 'T', 'J', 'J', 'T'];
    ReadsTo(h, JokerCardMap, [13, 10, 1, 1, 10]);
  }

  lemma ReadQQQJA()
    ensures HandFromStr("QQQJA", JokerCardMap) == Ok(VQQQJA)
  {
    var h: string := "QQQJA";
    assert h == ['Q', 'Q', 'Q', 'J', 'A'];
    ReadsTo(h, JokerCardMap, [12, 12, 12, 1, 14]);
  }


  /** 32T3K has no joker and one pair. */
  lemma Classify32T3K()
    ensures JokerClassifier(V32T3K, JokerCardMap) == Ok(OnePair)
  {
    var s := "32T3K";
    var others, counts := ['3', '2', 'T', 'K'], [2, 1, 1, 1];
    Target32T3K();
    Counts32T3K();
    CountsTypeOnePair(counts);
    JokerTypeByCounts(s, JokerCardMap, Distinct(s), Joker, others, counts);
  }

  lemma Target32T3K()
    ensures var s := "32T3K";
      Count(s, Joker) == 0 && MergeTarget(s, JokerCardMap, Distinct(s)) == Joker
  {
    var s := "32T3K";
    var m := multiset{'3', '2', 'T', '3', 'K'};
    assert multiset(s) == m;
    HandOfMultiset(s, m);
    assert Count(s, Joker) == 0 && Count(s, '3') == 2 && Count(s, '2') == 1 && Count(s, 'T') == 1 && Count(s, 'K') == 1;
    
  }

  lemma Counts32T3K()
    ensures var s := "32T3K";
      var others, counts := ['3', '2', 'T', 'K'], [2, 1, 1, 1];
      Enumerates(others, Elements(s) - {Joker}) && Project(others, MergedCount(s, Joker, 0)) == counts
  {
    var s := "32T3K";
    var m := multiset{'3', '2', 'T', '3', 'K'};
    assert multiset(s) == m;
    HandOfMultiset(s, m);
    assert Count(s, Joker) == 0 && Count(s, '3') == 2 && Count(s, '2') == 1 && Count(s, 'T') == 1 && Count(s, 'K') == 1;
  }

  /** In T55J5 the joker joins the T, worth 10, not the three 5s: a full
      house. */
  lemma ClassifyT55J5()
    ensures JokerClassifier(VT55J5, JokerCardMap) == Ok(FullHouse)
  {
    var s := "T55J5";
    var others, counts := ['T', '5'], [2, 3];
    TargetT55J5();
    CountsT55J5();
    CountsTypeFullHouse(counts);
    JokerTypeByCounts(s, JokerCardMap, Distinct(s), 'T', others, counts);
  }

  lemma TargetT55J5()
    ensures var s := "T55J5";
      Count(s, Joker) == 1 && MergeTarget(s, JokerCardMap, Distinct(s)) == 'T'
  {
    var s := "T55J5";
    var m := multiset{'T', '5', '5', 'J', '5'};
    assert multiset(s) == m;
    HandOfMultiset(s, m);
    assert Count(s, Joker) == 1 && Count(s, 'T') == 1 && Count(s, '5') == 3;
    JokerTargetIs(s, JokerCardMap, Distinct(s), 'T');
  }

  lemma CountsT55J5()
    ensures var s := "T55J5";
      var others, counts := ['T', '5'], [2, 3];
      Enumerates(others, Elements(s) - {Joker}) && Project(others, MergedCount(s, 'T', 1)) == counts
  {
    var s := "T55J5";
    var m := multiset{'T', '5', '5', 'J', '5'};
    assert multiset(s) == m;
    HandOfMultiset(s, m);
    assert Count(s, Joker) == 1 && Count(s, 'T') == 1 && Count(s, '5') == 3;
  }

  /** KK677 has no joker and two pairs. */
  lemma ClassifyKK677()
    ensures JokerClassifier(VKK677, JokerCardMap) == Ok(TwoPair)
  {
    var s := "KK677";
    var others, counts := ['K', '6', '7'], [2, 1, 2];
    TargetKK677();
    CountsKK677();
    CountsTypeTwoPair(counts);
    JokerTypeByCounts(s, JokerCardMap, Distinct(s), Joker, others, counts);
  }

  lemma TargetKK677()
    ensures var s := "KK677";
      Count(s, Joker) == 0 && MergeTarget(s, JokerCardMap, Distinct(s)) == Joker
  {
    var s := "KK677";
    var m := multiset{'K', 'K', '6', '7', '7'};
    assert multiset(s) == m;
    HandOfMultiset(s, m);
    assert Count(s, Joker) == 0 && Count(s, 'K') == 2 && Count(s, '6') == 1 && Count(s, '7') == 2;
    
  }

  lemma CountsKK677()
    ensures var s := "KK677";
      var others, counts := ['K', '6', '7'], [2, 1, 2];
      Enumerates(others, Elements(s) - {Joker}) && Project(others, MergedCount(s, Joker, 0)) == counts
  {
    var s := "KK677";
    var m := multiset{'K', 'K', '6', '7', '7'};
    assert multiset(s) == m;
    HandOfMultiset(s, m);
    assert Count(s, Joker) == 0 && Count(s, 'K') == 2 && Count(s, '6') == 1 && Count(s, '7') == 2;
  }

  /** In KTJJT the jokers join the K, not the pair of Ts: a full house. */
  lemma ClassifyKTJJT()
    ensures JokerClassifier(VKTJJT, JokerCardMap) == Ok(FullHouse)
  {
    var s := "KTJJT";
    var others, counts := ['K', 'T'], [3, 2];
    TargetKTJJT();
    CountsKTJJT();
    CountsTypeFullHouse(counts);
    JokerTypeByCounts(s, JokerCardMap, Distinct(s), 'K', others, counts);
  }

  lemma TargetKTJJT()
    ensures var s := "KTJJT";
      Count(s, Joker) == 2 && MergeTarget(s, JokerCardMap, Distinct(s)) == 'K'
  {
    var s := "KTJJT";
    var m := multiset{'K', 'T', 'J', 'J', 'T'};
    assert multiset(s) == m;
    HandOfMultiset(s, m);
    assert Count(s, Joker) == 2 && Count(s, 'K') == 1 && Count(s, 'T') == 2;
    JokerTargetIs(s, JokerCardMap, Distinct(s), 'K');
  }

  lemma CountsKTJJT()
    ensures var s := "KTJJT";
      var others, counts := ['K', 'T'], [3, 2];
      Enumerates(others, Elements(s) - {Joker}) && Project(others, MergedCount(s, 'K', 2)) == counts
  {
    var s := "KTJJT";
    var m := multiset{'K', 'T', 'J', 'J', 'T'};
    assert multiset(s) == m;
    HandOfMultiset(s, m);
    assert Count(s, Joker) == 2 && Count(s, 'K') == 1 && Count(s, 'T') == 2;
  }

  /** In QQQJA the joker joins the A, not the three Qs: a full house. */
  lemma ClassifyQQQJA()
    ensures JokerClassifier(VQQQJA, JokerCardMap) == Ok(FullHouse)
  {
    var s := "QQQJA";
    var others, counts := ['Q', 'A'], [3, 2];
    TargetQQQJA();
    CountsQQQJA();
    CountsTypeFullHouse(counts);
    JokerTypeByCounts(s, JokerCardMap, Distinct(s), 'A', others, counts);
  }

  lemma TargetQQQJA()
    ensures var s := "QQQJA";
      Count(s, Joker) == 1 && MergeTarget(s, JokerCardMap, Distinct(s)) == 'A'
  {
    var s := "QQQJA";
    var m := multiset{'Q', 'Q', 'Q', 'J', 'A'};
    assert multiset(s) == m;
    HandOfMultiset(s, m);
    assert Count(s, Joker) == 1 && Count(s, 'Q') == 3 && Count(s, 'A') == 1;
    JokerTargetIs(s, JokerCardMap, Distinct(s), 'A');
  }

  lemma CountsQQQJA()
    ensures var s := "QQQJA";
      var others, counts := ['Q', 'A'], [3, 2];
      Enumerates(others, Elements(s) - {Joker}) && Project(others, MergedCount(s, 'A', 1)) == counts
  {
    var s := "QQQJA";
    var m := multiset{'Q', 'Q', 'Q', 'J', 'A'};
    assert multiset(s) == m;
    HandOfMultiset(s, m);
    assert Count(s, Joker) == 1 && Count(s, 'Q') == 3 && Count(s, 'A') == 1;
  }

  const JokerRanked: seq<string> := ["32T3K", "KK677", "T55J5", "QQQJA", "KTJJT"]

  const JokerTyped: seq<(ValueHand, HandType)> :=
    [(V32T3K, OnePair), (VKK677, TwoPair), (VT55J5, FullHouse), (VQQQJA, FullHouse), (VKTJJT, FullHouse)]

  const JokerParsed: seq<ValueHand> := [V32T3K, VKK677, VT55J5, VQQQJA, VKTJJT]

  /** Listed weakest first, the example's keys are each listed once. */
  lemma JokerRankedEnumerates()
    ensures Enumerates(JokerRanked, ExampleHands.Keys)
  {
    assert ExampleHands.Keys == {"32T3K", "T55J5", "KK677", "KTJJT", "QQQJA"};
    forall k ensures k in JokerRanked <==> k in ExampleHands.Keys {
      assert k in JokerRanked <==> k == "32T3K" || k == "KK677" || k == "T55J5" || k == "QQQJA" || k == "KTJJT";
    }
  }

  /** They read to `JokerParsed`. */
  lemma JokerParsedOfRanked()
    ensures ParseAll(JokerRanked, JokerCardMap) == Ok(JokerParsed)
  {
    forall i | 0 <= i < 5 ensures HandFromStr(JokerRanked[i], JokerCardMap) == Ok(JokerParsed[i]) {
      JokerParsedAt(i);
    }
    ParseAllEach(JokerRanked, JokerCardMap, JokerParsed);
  }

  lemma JokerParsedAt(i: nat)
    requires i < 5
    ensures HandFromStr(JokerRanked[i], JokerCardMap) == Ok(JokerParsed[i])
  {
    if i == 0 { Read32T3K(); }
    else if i == 1 { ReadKK677(); }
    else if i == 2 { ReadT55J5(); }
    else if i == 3 { ReadQQQJA(); }
    else { ReadKTJJT(); }
  }

  /** Keys that read one by one are read together. */
  lemma ParseAllEach(keys: seq<string>, cardMap: CardValueMap, hands: seq<ValueHand>)
    requires |hands| == |keys|
    requires forall i | 0 <= i < |keys| :: HandFromStr(keys[i], cardMap) == Ok(hands[i])
    ensures ParseAll(keys, cardMap) == Ok(hands)
  {
    var r := ParseAll(keys, cardMap);
    assert r.value == hands;
  }

  /** They classify to `JokerTyped`. */
  lemma JokerTypedOfParsed()
    ensures Classified(JokerParsed, JokerExample) == Ok(JokerTyped)
  {
    forall i | 0 <= i < 5 ensures JokerTyped[i].0 == JokerParsed[i]
      && JokerExample.calcHandStrength(JokerParsed[i], JokerExample.cardMap) == Ok(JokerTyped[i].1)
    {
      JokerTypedAt(i);
    }
    ClassifiedEach(JokerParsed, JokerExample, JokerTyped);
  }

  lemma JokerTypedAt(i: nat)
    requires i < 5
    ensures JokerTyped[i].0 == JokerParsed[i]
    ensures JokerExample.calcHandStrength(JokerParsed[i], JokerExample.cardMap) == Ok(JokerTyped[i].1)
  {
    if i == 0 { Classify32T3K(); }
    else if i == 1 { ClassifyKK677(); }
    else if i == 2 { ClassifyT55J5(); }
    else if i == 3 { ClassifyQQQJA(); }
    else { ClassifyKTJJT(); }
  }

  /** Hands the classifier accepts one by one are classified together. */
  lemma ClassifiedEach(hands: seq<ValueHand>, game: Game, typed: seq<(ValueHand, HandType)>)
    requires |typed| == |hands|
    requires forall i | 0 <= i < |hands| :: typed[i].0 == hands[i] && game.calcHandStrength(hands[i], game.cardMap) == Ok(typed[i].1)
    ensures Classified(hands, game) == Ok(typed)
  {
    var r := Classified(hands, game);
    assert r.value == typed;
  }

  /** `JokerTyped` is in the comparator's order. */
  lemma JokerTypedSorted()
    ensures SortedBy(JokerTyped, RankOrder)
  {
    assert LexCompare(VT55J5.values, VQQQJA.values) == Less;
    assert LexCompare(VQQQJA.values, VKTJJT.values) == Less;
    assert LexCompare(VT55J5.values, VKTJJT.values) == Less;
  }

  /** No two of the example's classified hands compare equal. */
  lemma JokerTypedTotal()
    ensures TotalOrderOn(Elements(JokerTyped), RankOrder)
  {
    RankOrderPreorder(Elements(JokerTyped));
    forall x, y | x in Elements(JokerTyped) && y in Elements(JokerTyped) && RankOrder(x, y) == Equal
      ensures x == y
    {
      RankOrderEqual(x, y);
    }
  }

  /** `JokerTyped` sorts to itself. */
  lemma JokerTypedSortsToItself()
    ensures SortBy(JokerTyped, RankOrder) == JokerTyped
  {
    JokerTypedTotal();
    JokerTypedSorted();
    SortBySorted(JokerTyped, RankOrder);
    SameElements(SortBy(JokerTyped, RankOrder), JokerTyped);
    SortedUnique(SortBy(JokerTyped, RankOrder), JokerTyped, RankOrder);
  }

  lemma JokerTypedHands()
    ensures Project(JokerTyped, HandPart) == JokerParsed
  {
    var r := Project(JokerTyped, HandPart);
    assert r[0] == V32T3K && r[1] == VKK677 && r[2] == VT55J5 && r[3] == VQQQJA && r[4] == VKTJJT;
  }

  /** Listed weakest first, the keys come out in that order. */
  lemma JokerRankedSorts()
    ensures GetSortedHands(JokerExample, JokerRanked) == Ok(JokerParsed)
  {
    JokerRankedEnumerates();
    JokerParsedOfRanked();
    JokerTypedOfParsed();
    JokerTypedSortsToItself();
    JokerTypedHands();
  }

  /** With the jokers joining the highest card, the example ranks 32T3K,
      KK677, T55J5, QQQJA, KTJJT, whichever order the map yields them in. */
  lemma JokerExampleSorted(order: seq<string>)
    requires Enumerates(order, ExampleHands.Keys)
    ensures GetSortedHands(JokerExample, order) == Ok(JokerParsed)
  {
    JokerRankedEnumerates();
    JokerCardMapInjective();
    GetSortedHandsIndependentOfOrder(JokerExample, order, JokerRanked);
    JokerRankedSorts();
  }

  /** The example session, with 'J' worth 1 and played as a joker, wins
      5905. */
  lemma JokerExampleWinnings(order: seq<string>)
    requires Enumerates(order, ExampleHands.Keys)
    ensures TotalWinnings(JokerExample, order) == Ok(5905)
  {
    JokerExampleSorted(order);
    JokerParsedOriginals();
    JokerRankedWinnings();
  }

  lemma JokerParsedOriginals()
    ensures Project(JokerParsed, Original) == JokerRanked
  {
    var r := Project(JokerParsed, Original);
    assert r[0] == "32T3K" && r[1] == "KK677" && r[2] == "T55J5" && r[3] == "QQQJA" && r[4] == "KTJJT";
  }

  lemma JokerRankedWinnings()
    ensures Winnings(JokerRanked, ExampleHands) == 5905
  {
    WinningsFive("32T3K", "KK677", "T55J5", "QQQJA", "KTJJT", ExampleHands);
  }


}
