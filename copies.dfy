/** The card copies of day4/src/bin/part2.rs: every card starts as one
    instance; card `i` with `m` matches wins one copy of each of the next
    `m` cards per instance of card `i` held, and the answer is the number
    of instances held in the end. */
module ScratchcardCopies {
  import opened Outcomes
  import opened Text
  import opened Scratchcards
  import Ranking

  const AddOverflow: string := "attempt to add with overflow"

  /** The id and the two number sets of one card. */
  type CardValue = (U32, set<U32>, set<U32>)

  // ---------------------------------------------------------------------
  // `parse_cards_file`

  /** The cards of the lines, in order; the first line that is not a card
      panics. */
  function CardsOf(lines: seq<string>): Result<seq<CardValue>> {
    if |lines| == 0 then Ok([])
    else
      var card :- CardOf(lines[0]);
      var cards :- CardsOf(lines[1..]);
      Ok([card] + cards)
  }

  /** The card object holds the parsed value. */
  predicate Holds(card: ScratchCard, value: CardValue)
    reads card
  {
    card.id == value.0 && card.winningNumbers == value.1 && card.ownNumbers == value.2
  }

  /** The cards parsed so far, then those of the remaining lines. */
  function Prepended(cards: seq<CardValue>, rest: Result<seq<CardValue>>): Result<seq<CardValue>> {
    match rest
    case Ok(more) => Ok(cards + more)
    case Panic(reason) => Panic(reason)
  }

  lemma CardsStep(lines: seq<string>, k: nat)
    requires k < |lines|
    ensures CardsOf(lines[k..]) ==
      match CardOf(lines[k])
      case Panic(reason) => Panic(reason)
      case Ok(card) => Prepended([card], CardsOf(lines[k + 1..]))
  {
    assert lines[k..][1..] == lines[k + 1..];
  }

  lemma PrependedAppend(cards: seq<CardValue>, card: CardValue, rest: Result<seq<CardValue>>)
    ensures Prepended(cards, Prepended([card], rest)) == Prepended(cards + [card], rest)
  {
    if rest.Ok? {
      assert cards + ([card] + rest.value) == cards + [card] + rest.value;
    }
  }

  /** A line that parses adds its card to those parsed so far. */
  lemma CardsStepOk(lines: seq<string>, k: nat, values: seq<CardValue>)
    requires k < |lines| && CardOf(lines[k]).Ok?
    requires CardsOf(lines) == Prepended(values, CardsOf(lines[k..]))
    ensures CardsOf(lines) == Prepended(values + [CardOf(lines[k]).value], CardsOf(lines[k + 1..]))
  {
    CardsStep(lines, k);
    PrependedAppend(values, CardOf(lines[k]).value, CardsOf(lines[k + 1..]));
  }

  /** A line that panics makes the whole file panic with its reason. */
  lemma CardsStepPanic(lines: seq<string>, k: nat, values: seq<CardValue>)
    requires k < |lines| && CardOf(lines[k]).Panic?
    requires CardsOf(lines) == Prepended(values, CardsOf(lines[k..]))
    ensures CardsOf(lines) == Panic(CardOf(lines[k]).reason)
  {
    CardsStep(lines, k);
  }

  /** Before the first line nothing is parsed; after the last, all is. */
  lemma CardsBounds(lines: seq<string>, values: seq<CardValue>)
    ensures CardsOf(lines) == Prepended([], CardsOf(lines[0..]))
    ensures CardsOf(lines) == Prepended(values, CardsOf(lines[|lines|..])) ==> CardsOf(lines) == Ok(values)
  {
    assert lines[0..] == lines;
    if CardsOf(lines).Ok? {
      assert [] + CardsOf(lines).value == CardsOf(lines).value;
    }
    assert lines[|lines|..] == [];
    assert values + [] == values;
  }

  /** One iteration of `parse_cards_file`: the card of line `k`, which
      either ends the file with its panic or joins those parsed so far. */
  method ParseLineAt(lines: seq<string>, k: nat, ghost values: seq<CardValue>)
    returns (card: Result<ScratchCard>, ghost value: CardValue)
    requires k < |lines| && CardsOf(lines) == Prepended(values, CardsOf(lines[k..]))
    ensures card.Panic? ==> CardsOf(lines) == Panic(card.reason)
    ensures card.Ok? ==> fresh(card.value) && Holds(card.value, value)
    ensures card.Ok? ==> CardsOf(lines) == Prepended(values + [value], CardsOf(lines[k + 1..]))
  {
    card := ParseScratchcardLine(lines[k]);
    if card.Panic? {
      CardsStepPanic(lines, k, values);
      value := (0, {}, {});
    } else {
      value := CardOf(lines[k]).value;
      CardsStepOk(lines, k, values);
    }
  }

  /** `parse_cards_file`: one card per line, pushed in order. */
  method ParseCardsFile(data: string) returns (r: Result<seq<ScratchCard>>)
    ensures r.Panic? <==> CardsOf(Lines(data)).Panic?
    ensures r.Panic? ==> r.reason == CardsOf(Lines(data)).reason
    ensures r.Ok? ==> |r.value| == |CardsOf(Lines(data)).value|
    ensures r.Ok? ==> forall i | 0 <= i < |r.value| :: Holds(r.value[i], CardsOf(Lines(data)).value[i])
  {
    var lines := Lines(data);
    var cards: seq<ScratchCard> := [];
    ghost var values: seq<CardValue> := [];
    CardsBounds(lines, values);
    for k := 0 to |lines|
      invariant |cards| == |values|
      invariant forall i | 0 <= i < |cards| :: Holds(cards[i], values[i])
      invariant CardsOf(lines) == Prepended(values, CardsOf(lines[k..]))
    {
      var card, value := ParseLineAt(lines, k, values);
      if card.Panic? {
        return Panic(card.reason);
      }
      cards := cards + [card.value];
      values := values + [value];
    }
    CardsBounds(lines, values);
    return Ok(cards);
  }

  // ---------------------------------------------------------------------
  // The instances won

  /** How many instances of card `k` are held in the end: the original,
      and one copy per instance of every earlier card whose matches reach
      card `k`. */
  function Won(matches: seq<nat>, k: nat): nat
    requires k < |matches|
    decreases k, 1
  {
    1 + Gained(matches, k, k)
  }

  /** The copies of card `k` won by the cards before card `j`. */
  function Gained(matches: seq<nat>, k: nat, j: nat): nat
    requires j <= k < |matches|
    decreases j, 0
  {
    if j == 0 then 0
    else Gained(matches, k, j - 1) + (if k - (j - 1) <= matches[j - 1] then Won(matches, j - 1) else 0)
  }

  /** The instances held of every card. */
  function WonAll(matches: seq<nat>): (r: seq<nat>)
    ensures |r| == |matches|
  {
    seq(|matches|, k requires 0 <= k < |matches| => Won(matches, k))
  }

  /** No card's copies reach past the last card. */
  predicate Fits(matches: seq<nat>) {
    forall i | 0 <= i < |matches| :: i + matches[i] < |matches|
  }

  /** Every card's final count is a `u32`. */
  predicate Small(matches: seq<nat>) {
    forall k | 0 <= k < |matches| :: Won(matches, k) < U32Limit
  }

  /** The inner loop of the cascade for card `i`: each of the next `m`
      counts grows by the count of card `i`, and no other count changes.
      An index past the end panics before the addition, and so does an
      addition that overflows. */
  method AddCopies(counts: array<U32>, i: nat, m: nat) returns (r: Result<()>)
    requires i < counts.Length
    modifies counts
    ensures counts[i] == old(counts[i])
    ensures r.Ok? ==> i + m < counts.Length
    ensures r.Ok? ==> forall k | 0 <= k < counts.Length ::
      counts[k] as int == old(counts[k]) as int + (if i < k <= i + m then old(counts[i]) as int else 0)
    ensures r.Panic? ==> || (r.reason == OutOfBounds && i + m >= counts.Length)
                         || (r.reason == AddOverflow && exists k | i < k <= i + m && k < counts.Length ::
                               old(counts[k]) as int + old(counts[i]) as int >= U32Limit)
  {
    for j := 0 to m
      invariant j > 0 ==> i + j < counts.Length
      invariant counts[i] == old(counts[i])
      invariant forall k | 0 <= k < counts.Length ::
        counts[k] as int == old(counts[k]) as int + (if i < k <= i + j then old(counts[i]) as int else 0)
    {
      var k := i + j + 1;
      if k >= counts.Length {
        return Panic(OutOfBounds);
      }
      if counts[k] as int + counts[i] as int >= U32Limit {
        return Panic(AddOverflow);
      }
      counts[k] := counts[k] + counts[i];
    }
    return Ok(());
  }

  /** The copies won grow with the cards that have been processed. */
  lemma {:induction false} GainedMonotone(matches: seq<nat>, k: nat, a: nat, b: nat)
    requires a <= b <= k < |matches|
    ensures Gained(matches, k, a) <= Gained(matches, k, b)
    decreases b
  {
    if a < b {
      GainedMonotone(matches, k, a, b - 1);
    }
  }

  /** The cascade of the counts: every count starts at 1, and card `i`,
      whose count is final once it is reached, adds it to the next
      `matches[i]` counts. On success the counts are the instances won;
      a panic is an index past the last card, or an addition that
      overflows, which only a final count beyond `u32` can cause. */
  method CountInstances(matches: seq<nat>) returns (r: Result<seq<U32>>)
    ensures r.Ok? ==> Fits(matches) && Small(matches) && r.value == WonAll(matches)
    ensures r.Panic? ==> || (r.reason == OutOfBounds && !Fits(matches))
                         || (r.reason == AddOverflow && !Small(matches))
  {
    var counts := new U32[|matches|](_ => 1);
    for i := 0 to |matches|
      invariant forall k | 0 <= k < i :: counts[k] == Won(matches, k)
      invariant forall k | i <= k < |matches| :: counts[k] == 1 + Gained(matches, k, i)
      invariant forall k | 0 <= k < i :: k + matches[k] < |matches|
    {
      ghost var before := counts[..];
      var step := AddCopies(counts, i, matches[i]);
      if step.Panic? {
        if step.reason == AddOverflow {
          ghost var k :| i < k <= i + matches[i] && k < counts.Length && before[k] as int + before[i] as int >= U32Limit;
          GainedMonotone(matches, k, i + 1, k);
          assert Won(matches, k) >= U32Limit;
        }
        return Panic(step.reason);
      }
      forall k | i < k < |matches|
        ensures counts[k] == 1 + Gained(matches, k, i + 1)
      {
        assert counts[k] as int == before[k] as int + (if i < k <= i + matches[i] then before[i] as int else 0);
      }
    }
    assert forall k | 0 <= k < |matches| :: counts[k] == WonAll(matches)[k];
    return Ok(counts[..]);
  }

  // ---------------------------------------------------------------------
  // The answer

  /** `iter().sum::<u32>()`: a fold from 0 whose additions panic on
      overflow. */
  function SumU32(xs: seq<nat>): Result<U32> {
    if |xs| == 0 then Ok(0)
    else
      var total :- SumU32(xs[..|xs| - 1]);
      if total + xs[|xs| - 1] < U32Limit then Ok(total + xs[|xs| - 1]) else Panic(AddOverflow)
  }

  /** The checked sum is the sum when that fits a `u32`, and an overflow
      panic otherwise: the partial sums only grow. */
  lemma {:induction false} SumU32Meaning(xs: seq<nat>)
    ensures SumU32(xs) == if Ranking.Sum(xs) < U32Limit then Ok(Ranking.Sum(xs)) else Panic(AddOverflow)
    decreases |xs|
  {
    if |xs| > 0 {
      SumU32Meaning(xs[..|xs| - 1]);
    }
  }

  /** The matches of every card. */
  function MatchesOf(cards: seq<CardValue>): (r: seq<nat>)
    ensures |r| == |cards|
  {
    seq(|cards|, i requires 0 <= i < |cards| => Matches(cards[i].1, cards[i].2) as nat)
  }

  /** `get_matches` of every card object, in order. */
  method CardMatches(cards: seq<ScratchCard>, ghost values: seq<CardValue>) returns (matches: seq<nat>)
    requires |cards| == |values| && forall i | 0 <= i < |cards| :: Holds(cards[i], values[i])
    ensures matches == MatchesOf(values)
  {
    matches := [];
    for i := 0 to |cards|
      invariant matches == MatchesOf(values[..i])
    {
      assert Holds(cards[i], values[i]);
      matches := matches + [cards[i].GetMatches() as nat];
      assert values[..i + 1][..i] == values[..i];
    }
    assert values[..|cards|] == values;
  }

  /** The body of `main` in day4/src/bin/part2.rs, with the puzzle input
      as a parameter: parse the cards, run the cascade and sum the
      counts. */
  method Part2(data: string) returns (r: Result<U32>)
    ensures CardsOf(Lines(data)).Panic? ==> r == Panic(CardsOf(Lines(data)).reason)
    ensures r.Ok? ==> CardsOf(Lines(data)).Ok?
    ensures r.Ok? ==>
      var matches := MatchesOf(CardsOf(Lines(data)).value);
      Fits(matches) && Small(matches) && r.value == Ranking.Sum(WonAll(matches))
    ensures CardsOf(Lines(data)).Ok? ==>
      var matches := MatchesOf(CardsOf(Lines(data)).value);
      && (Fits(matches) && Small(matches) ==> r == SumU32(WonAll(matches)))
      && (!Fits(matches) && Small(matches) ==> r == Panic(OutOfBounds))
      && (Fits(matches) && !Small(matches) ==> r == Panic(AddOverflow))
  {
    var cards := ParseCardsFile(data);
    if cards.Panic? {
      return Panic(cards.reason);
    }
    var matches := CardMatches(cards.value, CardsOf(Lines(data)).value);
    var counts := CountInstances(matches);
    if counts.Panic? {
      return Panic(counts.reason);
    }
    SumU32Meaning(counts.value);
    r := SumU32(counts.value);
  }

  // ---------------------------------------------------------------------
  // What the cascade gives

  /** Card `k` is held at most `2^k` times: every earlier card can at most
      double it. */
  lemma {:induction false} WonBound(matches: seq<nat>, k: nat)
    requires k < |matches|
    ensures Won(matches, k) <= Pow2(k)
    decreases k, 1
  {
    GainedBound(matches, k, k);
  }

  lemma {:induction false} GainedBound(matches: seq<nat>, k: nat, j: nat)
    requires j <= k < |matches|
    ensures Gained(matches, k, j) <= Pow2(j) - 1
    decreases j, 0
  {
    if j > 0 {
      GainedBound(matches, k, j - 1);
      WonBound(matches, j - 1);
    }
  }

  /** The instances of the first `n` cards add up to at most `2^n - 1`. */
  lemma {:induction false} SumBound(matches: seq<nat>, n: nat)
    requires n <= |matches|
    ensures Ranking.Sum(WonAll(matches)[..n]) <= Pow2(n) - 1
  {
    if n > 0 {
      SumBound(matches, n - 1);
      WonBound(matches, n - 1);
      assert WonAll(matches)[..n][..n - 1] == WonAll(matches)[..n - 1];
    }
  }

  /** With at most 32 cards no count and not the answer can overflow. */
  lemma FewCardsFit(matches: seq<nat>)
    requires |matches| <= 32
    ensures Small(matches)
    ensures Ranking.Sum(WonAll(matches)) < U32Limit
  {
    Pow2Of32();
    forall k | 0 <= k < |matches| ensures Won(matches, k) < U32Limit {
      WonBound(matches, k);
      Pow2Monotone(k, 32);
    }
    SumBound(matches, |matches|);
    assert WonAll(matches)[..|matches|] == WonAll(matches);
    if |matches| < 32 {
      Pow2Monotone(|matches|, 32);
    }
  }

  /** A last card with a match always reaches past the end. */
  lemma LastMatchDoesNotFit(matches: seq<nat>)
    requires |matches| > 0 && matches[|matches| - 1] > 0
    ensures !Fits(matches)
  {
  }

  /** Without matches every card is held once. */
  lemma NoMatchesOnce(matches: seq<nat>)
    requires forall i | 0 <= i < |matches| :: matches[i] == 0
    ensures Fits(matches) && forall k | 0 <= k < |matches| :: Won(matches, k) == 1
  {
    forall k | 0 <= k < |matches| ensures Won(matches, k) == 1 {
      NoneGained(matches, k, k);
    }
  }

  lemma {:induction false} NoneGained(matches: seq<nat>, k: nat, j: nat)
    requires j <= k < |matches| && forall i | 0 <= i < |matches| :: matches[i] == 0
    ensures Gained(matches, k, j) == 0
    decreases j
  {
    if j > 0 {
      NoneGained(matches, k, j - 1);
    }
  }

  lemma SumPrefix(xs: seq<nat>, n: nat)
    requires n < |xs|
    ensures Ranking.Sum(xs[..n + 1]) == Ranking.Sum(xs[..n]) + xs[n]
  {
    assert xs[..n + 1][..n] == xs[..n];
  }

  /** The puzzle's example: cards with 4, 2, 2, 1, 0 and 0 matches end up
      held 1, 2, 4, 8, 14 and 1 times, 30 in all. */
  lemma ExampleCascade(matches: seq<nat>)
    requires matches == [4, 2, 2, 1, 0, 0]
    ensures Fits(matches) && WonAll(matches) == [1, 2, 4, 8, 14, 1] && Ranking.Sum(WonAll(matches)) == 30
  {
    assert Won(matches, 0) == 1;
    assert Won(matches, 1) == 2;
    assert Won(matches, 2) == 4;
    assert Won(matches, 3) == 8;
    assert Won(matches, 4) == 14;
    assert Won(matches, 5) == 1;
    var won := WonAll(matches);
    assert won == [1, 2, 4, 8, 14, 1];
    SumPrefix(won, 0);
    SumPrefix(won, 1);
    SumPrefix(won, 2);
    SumPrefix(won, 3);
    SumPrefix(won, 4);
    SumPrefix(won, 5);
    assert won[..0] == [] && won[..6] == won;
  }
}
