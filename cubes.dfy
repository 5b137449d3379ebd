/** The cube game of day2/src/bin/game.rs. A game has an id and a list of
    turns; a turn is the number of red, green and blue cubes shown, each an
    `i32`. A game is possible in a world of cubes when no turn shows more
    of a colour than the world holds, and the minimum world of a game is the
    componentwise maximum of its turns. Games are read from lines such as
    "Game 1: 18 red, 8 green; 3 blue". */
module CubeGame {
  import opened Outcomes
  import opened Text

  /** `i32`. */
  type I32 = x: int | -0x8000_0000 <= x < 0x8000_0000
  const I32Limit: nat := 0x8000_0000

  /** Red, green and blue. */
  type Turn = (I32, I32, I32)

  /** The message of a panic on an `i32` subtraction that overflows. */
  const SubOverflow: string := "attempt to subtract with overflow"

  /** `a - b` in `i32`, which panics when the difference does not fit. */
  function Sub(a: I32, b: I32): (r: Result<I32>)
    ensures r.Ok? <==> -0x8000_0000 <= a - b < 0x8000_0000
    ensures r.Ok? ==> r.value == a - b
    ensures r.Panic? ==> r.reason == SubOverflow
  {
    if -0x8000_0000 <= a - b < 0x8000_0000 then Ok(a - b) else Panic(SubOverflow)
  }

  predicate Within(turn: Turn, world: Turn) {
    turn.0 <= world.0 && turn.1 <= world.1 && turn.2 <= world.2
  }

  predicate NonNegative(turn: Turn) {
    turn.0 >= 0 && turn.1 >= 0 && turn.2 >= 0
  }

  /** Some difference between the world and the turn does not fit in an
      `i32`. */
  predicate Overflows(turn: Turn, world: Turn) {
    Sub(world.0, turn.0).Panic? || Sub(world.1, turn.1).Panic? || Sub(world.2, turn.2).Panic?
  }

  // ---------------------------------------------------------------------
  // `is_possible`

  /** `is_possible`: the turns are checked in order; the three differences
      of a turn are computed first (a subtraction that overflows panics), and
      a negative one makes the game impossible. */
  function Possible(turns: seq<Turn>, world: Turn): Result<bool>
    decreases |turns|
  {
    if |turns| == 0 then Ok(true)
    else
      var turn := turns[0];
      var red :- Sub(world.0, turn.0);
      var green :- Sub(world.1, turn.1);
      var blue :- Sub(world.2, turn.2);
      if red < 0 || green < 0 || blue < 0 then Ok(false) else Possible(turns[1..], world)
  }

  /** `true` means every turn fits in the world, `false` that some turn
      does not, and a panic that some difference overflowed. */
  lemma {:induction false} PossibleMeaning(turns: seq<Turn>, world: Turn)
    ensures Possible(turns, world) == Ok(true) ==> forall i | 0 <= i < |turns| :: Within(turns[i], world)
    ensures Possible(turns, world) == Ok(false) ==> exists i | 0 <= i < |turns| :: !Within(turns[i], world)
    ensures Possible(turns, world).Panic? ==>
      Possible(turns, world).reason == SubOverflow && exists i | 0 <= i < |turns| :: Overflows(turns[i], world)
    decreases |turns|
  {
    if |turns| > 0 {
      PossibleMeaning(turns[1..], world);
      assert forall i | 1 <= i < |turns| :: turns[i] == turns[1..][i - 1];
    }
  }

  /** With counts that are not negative nothing overflows, and a game is
      possible exactly when each of its turns fits in the world. */
  lemma {:induction false} PossibleIff(turns: seq<Turn>, world: Turn)
    requires NonNegative(world) && forall i | 0 <= i < |turns| :: NonNegative(turns[i])
    ensures Possible(turns, world) == Ok(forall i | 0 <= i < |turns| :: Within(turns[i], world))
    decreases |turns|
  {
    if |turns| > 0 {
      PossibleIff(turns[1..], world);
      assert forall i | 1 <= i < |turns| :: turns[i] == turns[1..][i - 1];
    }
  }

  // ---------------------------------------------------------------------
  // `calc_min_world`

  /** The larger of each pair of counts. */
  function Larger(a: Turn, b: Turn): Turn {
    (if b.0 > a.0 then b.0 else a.0, if b.1 > a.1 then b.1 else a.1, if b.2 > a.2 then b.2 else a.2)
  }

  /** `calc_min_world`: starting from no cubes, each turn raises a count
      that it exceeds. */
  function MinWorld(turns: seq<Turn>): Turn
    decreases |turns|
  {
    if |turns| == 0 then (0, 0, 0) else Larger(MinWorld(turns[..|turns| - 1]), turns[|turns| - 1])
  }

  /** The minimum world holds no negative count, every turn fits in it,
      and it fits in every world that holds all the turns and no negative
      count: it is the least such world. */
  lemma {:induction false} MinWorldLeast(turns: seq<Turn>)
    ensures NonNegative(MinWorld(turns))
    ensures forall i | 0 <= i < |turns| :: Within(turns[i], MinWorld(turns))
    ensures forall world: Turn | NonNegative(world) && (forall i | 0 <= i < |turns| :: Within(turns[i], world)) ::
      Within(MinWorld(turns), world)
    decreases |turns|
  {
    if |turns| > 0 {
      var init := turns[..|turns| - 1];
      MinWorldLeast(init);
      assert forall i | 0 <= i < |init| :: init[i] == turns[i];
    }
  }

  /** Every count of the minimum world is 0 or the count of some turn. */
  lemma {:induction false} MinWorldAttained(turns: seq<Turn>)
    ensures var w := MinWorld(turns);
      && (w.0 == 0 || exists i | 0 <= i < |turns| :: w.0 == turns[i].0)
      && (w.1 == 0 || exists i | 0 <= i < |turns| :: w.1 == turns[i].1)
      && (w.2 == 0 || exists i | 0 <= i < |turns| :: w.2 == turns[i].2)
    decreases |turns|
  {
    if |turns| > 0 {
      var init := turns[..|turns| - 1];
      MinWorldAttained(init);
      assert forall i | 0 <= i < |init| :: init[i] == turns[i];
    }
  }

  /** A game whose counts are not negative is possible in its minimum
      world. */
  lemma MinWorldPossible(turns: seq<Turn>)
    requires forall i | 0 <= i < |turns| :: NonNegative(turns[i])
    ensures Possible(turns, MinWorld(turns)) == Ok(true)
  {
    MinWorldLeast(turns);
    PossibleIff(turns, MinWorld(turns));
  }

  /** A negative count, which the parser never produces, breaks this: the
      largest red count minus a negative red count overflows. */
  lemma NegativeTurnOverflows(turns: seq<Turn>)
    requires turns == [(0x7FFF_FFFF, 0, 0), (-1, 0, 0)]
    ensures MinWorld(turns) == (0x7FFF_FFFF, 0, 0)
    ensures Possible(turns, MinWorld(turns)) == Panic(SubOverflow)
  {
    assert turns[..1] == [(0x7FFF_FFFF, 0, 0)];
    assert MinWorld(turns[..1]) == (0x7FFF_FFFF, 0, 0);
    assert turns[1..] == [(-1, 0, 0)];
  }

  // ---------------------------------------------------------------------
  // `Game`

  /** `Game`: an id and the turns added so far. */
  class Game {
    var id: U32
    var turns: seq<Turn>

    /** `Game::new`: the id and no turns. */
    constructor (id: U32)
      ensures this.id == id && turns == []
    {
      this.id := id;
      turns := [];
    }

    /** `add_turn`: the turn is appended and the id kept. */
    method AddTurn(turn: Turn)
      modifies this
      ensures turns == old(turns) + [turn] && id == old(id)
    {
      turns := turns + [turn];
    }

    /** `is_possible`: the loop returns `false` at the first turn with a
        negative difference. */
    method IsPossible(world: Turn) returns (r: Result<bool>)
      ensures r == Possible(turns, world)
    {
      for k := 0 to |turns|
        invariant Possible(turns, world) == Possible(turns[k..], world)
      {
        var turn := turns[k];
        assert turns[k..][1..] == turns[k + 1..];
        var red := Sub(world.0, turn.0);
        if red.Panic? {
          return Panic(red.reason);
        }
        var green := Sub(world.1, turn.1);
        if green.Panic? {
          return Panic(green.reason);
        }
        var blue := Sub(world.2, turn.2);
        if blue.Panic? {
          return Panic(blue.reason);
        }
        if red.value < 0 || green.value < 0 || blue.value < 0 {
          return Ok(false);
        }
      }
      return Ok(true);
    }

    /** `calc_min_world`: a mutable tuple raised count by count. */
    method CalcMinWorld() returns (world: Turn)
      ensures world == MinWorld(turns)
    {
      world := (0, 0, 0);
      for k := 0 to |turns|
        invariant world == MinWorld(turns[..k])
      {
        var turn := turns[k];
        assert turns[..k + 1][..k] == turns[..k];
        if turn.0 > world.0 {
          world := (turn.0, world.1, world.2);
        }
        if turn.1 > world.1 {
          world := (world.0, turn.1, world.2);
        }
        if turn.2 > world.2 {
          world := (world.0, world.1, turn.2);
        }
      }
      assert turns[..|turns|] == turns;
    }
  }

  // ---------------------------------------------------------------------
  // `parse_turn`

  datatype Colour = Red | Green | Blue

  function ColourName(c: Colour): string {
    match c
    case Red => "red"
    case Green => "green"
    case Blue => "blue"
  }

  /** The colour whose name the text continues with at `q`, tried in the
      order of the alternation `red|green|blue`. */
  function ColourAt(s: string, q: nat): Option<Colour> {
    if q + 3 <= |s| && s[q..q + 3] == "red" then Some(Red)
    else if q + 5 <= |s| && s[q..q + 5] == "green" then Some(Green)
    else if q + 4 <= |s| && s[q..q + 4] == "blue" then Some(Blue)
    else None
  }

  /** The regex `(\d+)\s(red|green|blue)` matches at `p`: the run of
      digits from `p` is followed by a whitespace character and a colour.
      A shorter run would be followed by a digit, so the run is taken
      whole. */
  predicate MatchAt(s: string, p: nat) {
    && p < |s| && IsDecimalDigit(s[p])
    && var q := DigitRunEnd(s, p); q < |s| && IsWhitespace(s[q]) && ColourAt(s, q + 1).Some?
  }

  /** The leftmost position from `p` on where the regex matches. */
  function MatchFrom(s: string, p: nat): (r: Option<nat>)
    requires p <= |s|
    ensures r.Some? ==> p <= r.value < |s| && MatchAt(s, r.value)
    ensures r.Some? ==> forall k | p <= k < r.value :: !MatchAt(s, k)
    ensures r.None? ==> forall k | p <= k < |s| :: !MatchAt(s, k)
    decreases |s| - p
  {
    if p == |s| then None else if MatchAt(s, p) then Some(p) else MatchFrom(s, p + 1)
  }

  /** The digits and the colour captured by `captures`. */
  function Capture(s: string): Option<(string, Colour)> {
    match MatchFrom(s, 0)
    case None => None
    case Some(p) =>
      var q := DigitRunEnd(s, p);
      Some((s[p..q], ColourAt(s, q + 1).value))
  }

  /** One comma-separated piece: `captures(..).unwrap()` panics without a
      match, and the `parse::<i32>().unwrap()` of the digits panics on a
      digit that is not ASCII or a number too large for an `i32`. */
  function DrawOf(piece: string): Result<(nat, Colour)> {
    match Capture(piece)
    case None => Panic(UnwrapNone)
    case Some((digits, colour)) =>
      match ParseUnsigned(digits, I32Limit)
      case None => Panic(UnwrapErr)
      case Some(n) => Ok((n, colour))
  }

  /** The turn with the count of one colour replaced. */
  function SetCount(turn: Turn, colour: Colour, n: nat): Turn
    requires n < I32Limit
  {
    match colour
    case Red => (n, turn.1, turn.2)
    case Green => (turn.0, n, turn.2)
    case Blue => (turn.0, turn.1, n)
  }

  /** The pieces from the first on, each setting the count of its
      colour. */
  function TallyPieces(turn: Turn, pieces: seq<string>): Result<Turn>
    decreases |pieces|
  {
    if |pieces| == 0 then Ok(turn)
    else
      var draw :- DrawOf(pieces[0]);
      assert draw.0 < I32Limit by { ParseBelowLimit(pieces[0]); }
      TallyPieces(SetCount(turn, draw.1, draw.0), pieces[1..])
  }

  lemma ParseBelowLimit(piece: string)
    requires DrawOf(piece).Ok?
    ensures DrawOf(piece).value.0 < I32Limit
  {
  }

  /** `parse_turn`: no cubes for the empty text, otherwise the pieces
      between commas in order. */
  function TurnOf(turn: string): Result<Turn> {
    if |turn| == 0 then Ok((0, 0, 0)) else TallyPieces((0, 0, 0), Split(turn, ','))
  }

  /** `parse_turn`: a mutable turn whose slots the loop assigns. */
  method ParseTurn(turn: string) returns (r: Result<Turn>)
    ensures r == TurnOf(turn)
  {
    var result: Turn := (0, 0, 0);
    if |turn| == 0 {
      return Ok(result);
    }
    var pieces := Split(turn, ',');
    for k := 0 to |pieces|
      invariant TurnOf(turn) == TallyPieces(result, pieces[k..])
    {
      assert pieces[k..][1..] == pieces[k + 1..];
      var draw := DrawOf(pieces[k]);
      if draw.Panic? {
        return Panic(draw.reason);
      }
      ParseBelowLimit(pieces[k]);
      var (n, colour) := draw.value;
      match colour
      case Red => result := (n, result.1, result.2);
      case Green => result := (result.0, n, result.2);
      case Blue => result := (result.0, result.1, n);
    }
    return Ok(result);
  }

  // ---------------------------------------------------------------------
  // What a turn written out reads back as

  /** A count of cubes of one colour, as written in a turn. */
  type Draw = (nat, Colour)

  predicate Fits(draws: seq<Draw>) {
    forall i | 0 <= i < |draws| :: draws[i].0 < I32Limit
  }

  /** "N colour". */
  function DrawText(d: Draw): string {
    Decimal(d.0) + " " + ColourName(d.1)
  }

  /** The pieces of a turn written with ", " between its draws; the first
      piece starts with `lead`. */
  function Pieces(draws: seq<Draw>, lead: string): (r: seq<string>)
    ensures |r| == |draws|
  {
    seq(|draws|, i requires 0 <= i < |draws| => (if i == 0 then lead else " ") + DrawText(draws[i]))
  }

  /** The turn as written: the draws separated by ", ", after `lead`. */
  function TurnText(draws: seq<Draw>, lead: string): string
    requires |draws| > 0
  {
    JoinWith(Pieces(draws, lead), ',')
  }

  /** The count of a colour after the draws, `count` before them: the
      draws are applied from the first on. */
  function Pick(draws: seq<Draw>, colour: Colour, count: nat): nat
    decreases |draws|
  {
    if |draws| == 0 then count
    else Pick(draws[1..], colour, if draws[0].1 == colour then draws[0].0 else count)
  }

  /** The turn that the draws give, from `turn` on. */
  function Apply(turn: Turn, draws: seq<Draw>): Turn
    requires NonNegative(turn) && Fits(draws)
  {
    PickFits(draws, Red, turn.0);
    PickFits(draws, Green, turn.1);
    PickFits(draws, Blue, turn.2);
    (Pick(draws, Red, turn.0), Pick(draws, Green, turn.1), Pick(draws, Blue, turn.2))
  }

  lemma {:induction false} PickFits(draws: seq<Draw>, colour: Colour, count: nat)
    requires Fits(draws) && count < I32Limit
    ensures Pick(draws, colour, count) < I32Limit
    decreases |draws|
  {
    if |draws| > 0 {
      PickFits(draws[1..], colour, if draws[0].1 == colour then draws[0].0 else count);
    }
  }

  /** The last draw of a colour gives its count, and a colour not drawn
      keeps the count it had. */
  lemma {:induction false} PickLastWins(draws: seq<Draw>, colour: Colour, count: nat)
    ensures (forall i | 0 <= i < |draws| :: draws[i].1 != colour) ==> Pick(draws, colour, count) == count
    ensures forall i | 0 <= i < |draws| && draws[i].1 == colour && (forall j | i < j < |draws| :: draws[j].1 != colour) ::
      Pick(draws, colour, count) == draws[i].0
    decreases |draws|
  {
    if |draws| > 0 {
      var rest := draws[1..];
      var next := if draws[0].1 == colour then draws[0].0 else count;
      PickLastWins(rest, colour, next);
      assert Pick(draws, colour, count) == Pick(rest, colour, next);
      forall i | 0 <= i < |draws| && draws[i].1 == colour && (forall j | i < j < |draws| :: draws[j].1 != colour)
        ensures Pick(draws, colour, count) == draws[i].0
      {
        forall j | i <= j < |rest| ensures rest[j].1 != colour {
          assert rest[j] == draws[j + 1];
        }
        if i > 0 {
          assert rest[i - 1] == draws[i];
        }
      }
    }
  }

  /** The colour whose name the text continues with is found. */
  lemma ColourAtName(s: string, q: nat, colour: Colour)
    requires q <= |s| && s[q..] == ColourName(colour)
    ensures ColourAt(s, q) == Some(colour)
  {
    assert s[q] == ColourName(colour)[0];
  }

  /** In a written draw the regex matches at its first digit. */
  lemma MatchOfText(s: string, p: nat, digits: string, colour: Colour)
    requires |digits| > 0 && forall c | c in digits :: IsAsciiDigit(c)
    requires p + |digits| < |s| && s[p..p + |digits|] == digits && s[p + |digits|] == ' '
    requires s[p + |digits| + 1..] == ColourName(colour)
    ensures MatchAt(s, p) && DigitRunEnd(s, p) == p + |digits|
    ensures ColourAt(s, p + |digits| + 1) == Some(colour)
  {
    var q := p + |digits|;
    assert forall k | p <= k < q :: s[k] == digits[k - p] && digits[k - p] in digits;
    RunEndsAt(s, p, q);
    ColourAtName(s, q + 1, colour);
  }

  /** A match at the start, or just after a first character where there
      is none, is the leftmost one. */
  lemma LeftmostAt(s: string, p: nat)
    requires p <= 1 && MatchAt(s, p) && (p == 1 ==> !MatchAt(s, 0))
    ensures MatchFrom(s, 0) == Some(p)
  {
    if p == 1 {
      assert MatchFrom(s, 1) == Some(1);
    }
  }

  /** The regex captures the digits and the colour of "N colour" when
      nothing or one space comes before it. */
  lemma CaptureOfDraw(s: string, p: nat, digits: string, colour: Colour)
    requires |digits| > 0 && forall c | c in digits :: IsAsciiDigit(c)
    requires p + |digits| < |s| && s[p..p + |digits|] == digits && s[p + |digits|] == ' '
    requires p <= 1 && (p == 1 ==> s[0] == ' ')
    requires s[p + |digits| + 1..] == ColourName(colour)
    ensures Capture(s) == Some((digits, colour))
  {
    MatchOfText(s, p, digits, colour);
    LeftmostAt(s, p);
  }

  /** The regex captures the digits and the colour of a written draw. */
  lemma CaptureOfText(d: Draw, prefix: string)
    requires prefix == "" || prefix == " "
    ensures Capture(prefix + DrawText(d)) == Some((Decimal(d.0), d.1))
  {
    var digits, name := Decimal(d.0), ColourName(d.1);
    var s := prefix + DrawText(d);
    var p, q := |prefix|, |prefix| + |digits|;
    assert s == prefix + digits + " " + name;
    assert s[p..q] == digits && s[q] == ' ' && s[q + 1..] == name;
    CaptureOfDraw(s, p, digits, d.1);
  }

  /** A written draw, after an empty or a one-space prefix, is read back. */
  lemma DrawOfText(d: Draw, prefix: string)
    requires d.0 < I32Limit && (prefix == "" || prefix == " ")
    ensures DrawOf(prefix + DrawText(d)) == Ok(d)
  {
    CaptureOfText(d, prefix);
    ParseDecimal(d.0, I32Limit);
  }

  /** Applying the first draw and then the rest is applying them all. */
  lemma ApplyFirst(turn: Turn, draws: seq<Draw>)
    requires NonNegative(turn) && Fits(draws) && |draws| > 0
    ensures Apply(turn, draws) == Apply(SetCount(turn, draws[0].1, draws[0].0), draws[1..])
  {
  }

  lemma PiecesFirst(draws: seq<Draw>, lead: string)
    requires |draws| > 0
    ensures Pieces(draws, lead)[0] == lead + DrawText(draws[0])
    ensures Pieces(draws, lead)[1..] == Pieces(draws[1..], " ")
  {
  }

  /** The pieces of a written turn are read back as its draws. */
  lemma {:induction false} TallyOfPieces(turn: Turn, draws: seq<Draw>, lead: string)
    requires NonNegative(turn) && Fits(draws) && (lead == "" || lead == " ")
    ensures TallyPieces(turn, Pieces(draws, lead)) == Ok(Apply(turn, draws))
    decreases |draws|
  {
    if |draws| > 0 {
      var pieces := Pieces(draws, lead);
      var d := draws[0];
      PiecesFirst(draws, lead);
      DrawOfText(d, lead);
      var next := SetCount(turn, d.1, d.0);
      TallyOfPieces(next, draws[1..], " ");
      ApplyFirst(turn, draws);
    }
  }

  lemma DrawTextAvoids(d: Draw, x: char)
    requires !IsAsciiDigit(x) && x != ' ' && x !in "redgreenblue"
    ensures x !in DrawText(d)
  {
    assert forall c | c in Decimal(d.0) :: IsAsciiDigit(c);
  }

  /** The join avoids a character that neither the pieces nor the
      separator hold. */
  lemma {:induction false} JoinAvoids(pieces: seq<string>, sep: char, x: char)
    requires |pieces| > 0 && x != sep && forall k | 0 <= k < |pieces| :: x !in pieces[k]
    ensures x !in JoinWith(pieces, sep)
    decreases |pieces|
  {
    if |pieces| > 1 {
      JoinAvoids(pieces[1..], sep, x);
    }
  }

  /** No written piece holds `x`. */
  lemma PiecesAvoid(draws: seq<Draw>, lead: string, x: char)
    requires (lead == "" || lead == " ") && !IsAsciiDigit(x) && x != ' ' && x !in "redgreenblue"
    ensures forall k | 0 <= k < |draws| :: x !in Pieces(draws, lead)[k]
  {
    forall k | 0 <= k < |draws| ensures x !in Pieces(draws, lead)[k] {
      DrawTextAvoids(draws[k], x);
    }
  }

  /** `parse_turn` reads a written turn back: each colour has the count of
      its last draw, and a colour not drawn has none. */
  lemma TurnRoundTrip(draws: seq<Draw>, lead: string)
    requires |draws| > 0 && Fits(draws) && (lead == "" || lead == " ")
    ensures TurnOf(TurnText(draws, lead)) == Ok(Apply((0, 0, 0), draws))
  {
    var pieces := Pieces(draws, lead);
    PiecesAvoid(draws, lead, ',');
    SplitJoin(pieces, ',');
    assert |pieces[0]| > 0;
    assert |TurnText(draws, lead)| > 0;
    TallyOfPieces((0, 0, 0), draws, lead);
  }

  // ---------------------------------------------------------------------
  // `parse_game_line`

  /** The regex `^Game (\d+): (.*)$`: "Game ", a run of digits, ": " and
      the rest of the text, which `.` only matches without a line break.
      Gives the digits and the rest. */
  function Header(line: string): Option<(string, string)> {
    if |line| >= 5 && line[..5] == "Game " then
      var q := DigitRunEnd(line, 5);
      if q > 5 && q + 2 <= |line| && line[q..q + 2] == ": " && '\n' !in line[q + 2..]
      then Some((line[5..q], line[q + 2..]))
      else None
    else None
  }

  /** The turns of the segments between semicolons, in order; a blank
      segment is skipped. */
  function TurnsOf(segments: seq<string>): Result<seq<Turn>>
    decreases |segments|
  {
    if |segments| == 0 then Ok([])
    else if Blank(segments[0]) then TurnsOf(segments[1..])
    else
      var turn :- TurnOf(segments[0]);
      var turns :- TurnsOf(segments[1..]);
      Ok([turn] + turns)
  }

  /** `parse_game_line`: `captures(..).unwrap()` panics on a line not of
      the shape, the id is parsed as a `u32` with `unwrap`, and the turns
      follow. */
  function GameOf(line: string): Result<(U32, seq<Turn>)> {
    match Header(line)
    case None => Panic(UnwrapNone)
    case Some((digits, rest)) =>
      match ParseUnsigned(digits, U32Limit)
      case None => Panic(UnwrapErr)
      case Some(id) =>
        var turns :- TurnsOf(Split(rest, ';'));
        Ok((id, turns))
  }

  /** The turns parsed so far, then those of the remaining segments. */
  function After(turns: seq<Turn>, rest: Result<seq<Turn>>): Result<seq<Turn>> {
    match rest
    case Ok(more) => Ok(turns + more)
    case Panic(reason) => Panic(reason)
  }

  /** `parse_game_line` and `Game::from_game_line`: a new game gets the
      id, and each segment that is not blank is parsed and added as a
      turn. */
  method ParseGameLine(line: string) returns (r: Result<Game>)
    ensures r.Panic? <==> GameOf(line).Panic?
    ensures r.Panic? ==> r.reason == GameOf(line).reason
    ensures r.Ok? ==> fresh(r.value) && r.value.id == GameOf(line).value.0 && r.value.turns == GameOf(line).value.1
  {
    var header := Header(line);
    if header.None? {
      return Panic(UnwrapNone);
    }
    var (digits, rest) := header.value;
    var parsed := ParseUnsigned(digits, U32Limit);
    if parsed.None? {
      return Panic(UnwrapErr);
    }
    var game := new Game(parsed.value);
    var segments := Split(rest, ';');
    assert segments[0..] == segments;
    assert After([], TurnsOf(segments)) == TurnsOf(segments) by {
      if TurnsOf(segments).Ok? {
        assert [] + TurnsOf(segments).value == TurnsOf(segments).value;
      }
    }
    for k := 0 to |segments|
      invariant fresh(game) && game.id == parsed.value
      invariant TurnsOf(segments) == After(game.turns, TurnsOf(segments[k..]))
    {
      TurnsOfStep(segments, k);
      if Blank(segments[k]) {
        continue;
      }
      var turn := ParseTurn(segments[k]);
      if turn.Panic? {
        return Panic(turn.reason);
      }
      AfterAppend(game.turns, turn.value, TurnsOf(segments[k + 1..]));
      game.AddTurn(turn.value);
    }
    assert segments[|segments|..] == [];
    return Ok(game);
  }

  /** One segment more: a blank one adds nothing, another adds its turn
      or its panic. */
  lemma TurnsOfStep(segments: seq<string>, k: nat)
    requires k < |segments|
    ensures TurnsOf(segments[k..]) ==
      if Blank(segments[k]) then TurnsOf(segments[k + 1..])
      else match TurnOf(segments[k])
        case Panic(reason) => Panic(reason)
        case Ok(turn) => After([turn], TurnsOf(segments[k + 1..]))
  {
    assert segments[k..][1..] == segments[k + 1..];
  }

  lemma AfterAppend(turns: seq<Turn>, turn: Turn, rest: Result<seq<Turn>>)
    ensures After(turns, After([turn], rest)) == After(turns + [turn], rest)
  {
    if rest.Ok? {
      assert turns + ([turn] + rest.value) == turns + [turn] + rest.value;
    }
  }

  // ---------------------------------------------------------------------
  // What a game written out reads back as

  /** The segments of a game written with "; " between its turns. */
  function Segments(turns: seq<seq<Draw>>): (r: seq<string>)
    requires forall i | 0 <= i < |turns| :: |turns[i]| > 0
    ensures |r| == |turns|
  {
    seq(|turns|, i requires 0 <= i < |turns| => TurnText(turns[i], if i == 0 then "" else " "))
  }

  /** "Game N: " and the turns. */
  function GameText(id: nat, turns: seq<seq<Draw>>): string
    requires forall i | 0 <= i < |turns| :: |turns[i]| > 0
  {
    "Game " + Decimal(id) + ": " + (if |turns| == 0 then "" else JoinWith(Segments(turns), ';'))
  }

  /** The header of a written game gives its id and the text after ": ". */
  lemma HeaderOfText(id: nat, rest: string)
    requires '\n' !in rest
    ensures Header("Game " + Decimal(id) + ": " + rest) == Some((Decimal(id), rest))
  {
    var digits := Decimal(id);
    var line := "Game " + digits + ": " + rest;
    var q := 5 + |digits|;
    assert line[..5] == "Game " && line[5..q] == digits && line[q..q + 2] == ": " && line[q + 2..] == rest;
    assert forall k | 5 <= k < q :: line[k] == digits[k - 5] && digits[k - 5] in digits;
    RunEndsAt(line, 5, q);
  }

  /** Segments that are not blank give one turn each, in order. */
  lemma TurnsOfEach(segments: seq<string>, turns: seq<Turn>)
    requires |segments| == |turns|
    requires forall i | 0 <= i < |segments| :: !Blank(segments[i]) && TurnOf(segments[i]) == Ok(turns[i])
    ensures TurnsOf(segments) == Ok(turns)
  {
    TurnsOfEachFrom(segments, turns, 0);
    assert segments[0..] == segments && turns[0..] == turns;
  }

  lemma {:induction false} TurnsOfEachFrom(segments: seq<string>, turns: seq<Turn>, k: nat)
    requires |segments| == |turns| && k <= |segments|
    requires forall i | 0 <= i < |segments| :: !Blank(segments[i]) && TurnOf(segments[i]) == Ok(turns[i])
    ensures TurnsOf(segments[k..]) == Ok(turns[k..])
    decreases |segments| - k
  {
    if k < |segments| {
      TurnsOfStep(segments, k);
      TurnsOfEachFrom(segments, turns, k + 1);
      assert turns[k..] == [turns[k]] + turns[k + 1..];
    }
  }


  /** A written turn is not blank: its first count has a digit. */
  lemma TurnTextNotBlank(draws: seq<Draw>, lead: string)
    requires |draws| > 0 && (lead == "" || lead == " ")
    ensures !Blank(TurnText(draws, lead))
  {
    var pieces := Pieces(draws, lead);
    var digits := Decimal(draws[0].0);
    assert pieces[0] == lead + DrawText(draws[0]);
    assert TurnText(draws, lead)[|lead|] == digits[0];
    assert digits[0] in digits;
  }

  /** The written turns, as read back. */
  function Expected(turns: seq<seq<Draw>>): seq<Turn>
    requires forall i | 0 <= i < |turns| :: Fits(turns[i])
  {
    seq(|turns|, i requires 0 <= i < |turns| => Apply((0, 0, 0), turns[i]))
  }

  /** The text after "Game N: ". */
  function TurnsText(turns: seq<seq<Draw>>): string
    requires forall i | 0 <= i < |turns| :: |turns[i]| > 0
  {
    if |turns| == 0 then "" else JoinWith(Segments(turns), ';')
  }

  /** Each written segment is read back as its turn and holds neither a
      semicolon nor a line break. */
  lemma SegmentRoundTrip(turns: seq<seq<Draw>>, i: nat)
    requires forall i | 0 <= i < |turns| :: |turns[i]| > 0 && Fits(turns[i])
    requires i < |turns|
    ensures !Blank(Segments(turns)[i]) && TurnOf(Segments(turns)[i]) == Ok(Expected(turns)[i])
    ensures ';' !in Segments(turns)[i] && '\n' !in Segments(turns)[i]
  {
    var lead := if i == 0 then "" else " ";
    TurnTextNotBlank(turns[i], lead);
    TurnRoundTrip(turns[i], lead);
    PiecesAvoid(turns[i], lead, ';');
    PiecesAvoid(turns[i], lead, '\n');
    JoinAvoids(Pieces(turns[i], lead), ',', ';');
    JoinAvoids(Pieces(turns[i], lead), ',', '\n');
  }

  /** The segments of the written turns are read back as the turns. */
  lemma TurnsRoundTrip(turns: seq<seq<Draw>>)
    requires forall i | 0 <= i < |turns| :: |turns[i]| > 0 && Fits(turns[i])
    ensures '\n' !in TurnsText(turns)
    ensures TurnsOf(Split(TurnsText(turns), ';')) == Ok(Expected(turns))
  {
    if |turns| == 0 {
      assert TurnsText(turns) == "" && Split("", ';') == [""];
      assert Blank("") && [""][1..] == [];
      assert TurnsOf([""]) == Ok([]) && Expected(turns) == [];
    } else {
      var segments := Segments(turns);
      forall i | 0 <= i < |turns|
        ensures !Blank(segments[i]) && TurnOf(segments[i]) == Ok(Expected(turns)[i])
        ensures ';' !in segments[i] && '\n' !in segments[i]
      {
        SegmentRoundTrip(turns, i);
      }
      JoinAvoids(segments, ';', '\n');
      SplitJoin(segments, ';');
      TurnsOfEach(segments, Expected(turns));
    }
  }

  /** `parse_game_line` reads a written game back: its id, and for each
      turn the counts of its last draws. */
  lemma GameRoundTrip(id: nat, turns: seq<seq<Draw>>)
    requires id < U32Limit
    requires forall i | 0 <= i < |turns| :: |turns[i]| > 0 && Fits(turns[i])
    ensures GameOf(GameText(id, turns)) == Ok((id, Expected(turns)))
  {
    TurnsRoundTrip(turns);
    assert GameText(id, turns) == "Game " + Decimal(id) + ": " + TurnsText(turns);
    HeaderOfText(id, TurnsText(turns));
    ParseDecimal(id, U32Limit);
  }

  /** Blank segments give no turns. */
  lemma {:induction false} TurnsOfBlank(segments: seq<string>)
    requires forall i | 0 <= i < |segments| :: Blank(segments[i])
    ensures TurnsOf(segments) == Ok([])
    decreases |segments|
  {
    if |segments| > 0 {
      TurnsOfBlank(segments[1..]);
    }
  }

  /** A game whose segments are all blank, or that has nothing after
      "Game N: ", has no turns. */
  lemma BlankSegments(id: nat, blanks: seq<string>)
    requires id < U32Limit && |blanks| > 0
    requires forall i | 0 <= i < |blanks| :: Blank(blanks[i]) && ';' !in blanks[i] && '\n' !in blanks[i]
    ensures GameOf("Game " + Decimal(id) + ": " + JoinWith(blanks, ';')) == Ok((id as U32, []))
  {
    JoinAvoids(blanks, ';', '\n');
    SplitJoin(blanks, ';');
    TurnsOfBlank(blanks);
    HeaderOfText(id, JoinWith(blanks, ';'));
    ParseDecimal(id, U32Limit);
  }

  /** A line that does not start with "Game " does not match, and the
      `unwrap` of the captures panics. */
  lemma NotAGamePanics(line: string)
    requires |line| < 5 || line[..5] != "Game "
    ensures GameOf(line) == Panic(UnwrapNone)
  {
  }

  /** An id too large for a `u32` panics in its `unwrap`. */
  lemma LargeIdPanics(id: nat, rest: string)
    requires id >= U32Limit && '\n' !in rest
    ensures GameOf("Game " + Decimal(id) + ": " + rest) == Panic(UnwrapErr)
  {
    HeaderOfText(id, rest);
    ParseTooLarge(id, U32Limit);
  }

  /** A count too large for an `i32` panics in its `unwrap`. */
  lemma LargeCountPanics(d: Draw, prefix: string)
    requires d.0 >= I32Limit && (prefix == "" || prefix == " ")
    ensures DrawOf(prefix + DrawText(d)) == Panic(UnwrapErr)
  {
    CaptureOfText(d, prefix);
    ParseTooLarge(d.0, I32Limit);
  }

  /** A colour other than red, green and blue is not matched, and the
      `unwrap` of the captures panics. */
  lemma UnknownColourPanics(piece: string)
    requires piece == "18 purple"
    ensures DrawOf(piece) == Panic(UnwrapNone)
  {
    assert DigitRunEnd(piece, 1) == 2;
    assert DigitRunEnd(piece, 0) == 2;
    assert piece[3..6][0] == 'p' && piece[3..8][0] == 'p' && piece[3..7][0] == 'p';
    assert ColourAt(piece, 3) == None;
    assert !MatchAt(piece, 0) && !MatchAt(piece, 1);
    forall p | 2 <= p < |piece| ensures !MatchAt(piece, p) {
      assert !IsDecimalDigit(piece[p]);
    }
    assert MatchFrom(piece, 0) == None;
  }

  // ---------------------------------------------------------------------
  // The test cases

  /** `is_possible` on the two games of the tests, in the world
      (15, 11, 10). */
  lemma ExamplePossible(game1: seq<Turn>, game2: seq<Turn>)
    requires game1 == [(14, 8, 7), (15, 11, 4), (12, 5, 9)]
    requires game2 == [(16, 8, 7), (15, 11, 4), (12, 5, 9)]
    ensures Possible(game1, (15, 11, 10)) == Ok(true)
    ensures Possible(game2, (15, 11, 10)) == Ok(false)
  {
    PossibleIff(game1, (15, 11, 10));
    PossibleIff(game2, (15, 11, 10));
    assert !Within(game2[0], (15, 11, 10));
  }

  /** `calc_min_world` of the first game is (15, 11, 9). */
  lemma ExampleMinWorld(game1: seq<Turn>)
    requires game1 == [(14, 8, 7), (15, 11, 4), (12, 5, 9)]
    ensures MinWorld(game1) == (15, 11, 9)
  {
    assert game1[..2][..1] == [(14, 8, 7)];
    assert MinWorld(game1[..2][..1]) == (14, 8, 7);
    assert MinWorld(game1[..2]) == (15, 11, 7);
  }

  /** Three draws, one of each colour, give their three counts. */
  lemma ApplyEachColour(draws: seq<Draw>, red: nat, green: nat, blue: nat)
    requires |draws| == 3 && Fits(draws) && red < I32Limit && green < I32Limit && blue < I32Limit
    requires draws[0].1 != draws[1].1 && draws[0].1 != draws[2].1 && draws[1].1 != draws[2].1
    requires (red, Red) in draws && (green, Green) in draws && (blue, Blue) in draws
    ensures Apply((0, 0, 0), draws) == (red, green, blue)
  {
    PickLastWins(draws, Red, 0);
    PickLastWins(draws, Green, 0);
    PickLastWins(draws, Blue, 0);
  }

  /** `parse_turn` of "18 red, 8 green, 7 blue" and of
      "0 red, 0 green, 0 blue". */
  lemma ExampleTurns(sample: seq<Draw>, zeros: seq<Draw>)
    requires sample == [(18, Red), (8, Green), (7, Blue)]
    requires zeros == [(0, Red), (0, Green), (0, Blue)]
    ensures TurnOf(TurnText(sample, "")) == Ok((18, 8, 7))
    ensures TurnOf(TurnText(zeros, "")) == Ok((0, 0, 0))
  {
    TurnOfThree(sample, 18, 8, 7);
    TurnOfThree(zeros, 0, 0, 0);
  }

  /** A turn of one red, one green and one blue draw is read back as
      their counts. */
  lemma TurnOfThree(draws: seq<Draw>, red: nat, green: nat, blue: nat)
    requires red < I32Limit && green < I32Limit && blue < I32Limit
    requires draws == [(red, Red), (green, Green), (blue, Blue)]
    ensures TurnOf(TurnText(draws, "")) == Ok((red, green, blue))
  {
    TurnRoundTrip(draws, "");
    ApplyEachColour(draws, red, green, blue);
  }

  /** `parse_turn` of the empty text. */
  lemma ExampleEmptyTurn()
    ensures TurnOf("") == Ok((0, 0, 0))
  {
  }

  /** `parse_game_line` of "Game 1: 18 red, 8 green, 7 blue; 15 red,
      4 blue, 1 green; 16 red, 5 green". */
  lemma ExampleGame(turns: seq<seq<Draw>>)
    requires turns == [[(18, Red), (8, Green), (7, Blue)], [(15, Red), (4, Blue), (1, Green)], [(16, Red), (5, Green)]]
    ensures GameOf(GameText(1, turns)) == Ok((1, [(18, 8, 7), (15, 1, 4), (16, 5, 0)]))
  {
    GameRoundTrip(1, turns);
    ExpectedGame(turns);
  }

  lemma ExpectedGame(turns: seq<seq<Draw>>)
    requires turns == [[(18, Red), (8, Green), (7, Blue)], [(15, Red), (4, Blue), (1, Green)], [(16, Red), (5, Green)]]
    ensures Expected(turns) == [(18, 8, 7), (15, 1, 4), (16, 5, 0)]
  {
    ApplyEachColour(turns[0], 18, 8, 7);
    ApplyEachColour(turns[1], 15, 1, 4);
    PickLastWins(turns[2], Red, 0);
    PickLastWins(turns[2], Green, 0);
    PickLastWins(turns[2], Blue, 0);
  }

  /** `parse_game_line` of "Game 1: ; ; " and of "Game 1: ". */
  lemma ExampleNoTurns()
    ensures GameOf("Game " + Decimal(1) + ": " + JoinWith(["", " ", " "], ';')) == Ok((1, []))
    ensures GameOf("Game " + Decimal(1) + ": " + JoinWith([""], ';')) == Ok((1, []))
  {
    BlankSegments(1, ["", " ", " "]);
    BlankSegments(1, [""]);
  }
}
