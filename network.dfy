/** The network walk of day8/src/bin/part1.rs: the input holds a line of
    left/right instructions, a blank line, and rules "AAA = (BBB, CCC)"
    naming the left and right neighbours of a node; `find_path` follows
    the instructions, cyclically, from a start node until it reaches the
    end node. */
module Network {
  import opened Outcomes

  type Node = string

  /** A rule: a node and its (left, right) neighbours. */
  type Rule = (Node, (Node, Node))

  /** The message of the `expect` in `find_path`. */
  const ExpectNode: string := "Expected a valid node"

  // ---------------------------------------------------------------------
  // `parse_instructions`

  /** A blank line, "\n\n", starts at position `k`. */
  predicate BlankAt(s: string, k: nat) {
    k + 1 < |s| && s[k] == '\n' && s[k + 1] == '\n'
  }

  predicate NoBlank(s: string) {
    forall k: nat | k < |s| :: !BlankAt(s, k)
  }

  /** The first position from `i` on where a blank line starts. */
  function BlankFrom(s: string, i: nat): (r: Option<nat>)
    ensures r.Some? ==> i <= r.value && r.value + 1 < |s|
    decreases |s| - i
  {
    if i + 1 >= |s| then None
    else if s[i] == '\n' && s[i + 1] == '\n' then Some(i)
    else BlankFrom(s, i + 1)
  }

  /** `parse_instructions`: the first two pieces of `split("\n\n")`; the
      second `unwrap` panics when the text has no blank line. */
  function ParseInstructions(s: string): Result<(string, string)> {
    match BlankFrom(s, 0)
    case None => Panic(UnwrapNone)
    case Some(k) =>
      var rest := s[k + 2..];
      match BlankFrom(rest, 0)
      case None => Ok((s[..k], rest))
      case Some(j) => Ok((s[..k], rest[..j]))
  }

  /** The blank line found is the first one from `i` on; there is none
      when none is found. */
  lemma {:induction false} BlankFromFirst(s: string, i: nat)
    ensures BlankFrom(s, i).Some? ==>
      var k := BlankFrom(s, i).value;
      i <= k && BlankAt(s, k) && forall t: nat | i <= t < k :: !BlankAt(s, t)
    ensures BlankFrom(s, i).None? ==> forall t: nat | i <= t :: !BlankAt(s, t)
    decreases |s| - i
  {
    if i + 1 < |s| {
      BlankFromFirst(s, i + 1);
    }
  }

  /** `parse_instructions` panics exactly when the text has no blank
      line. */
  lemma ParseInstructionsPanics(s: string)
    ensures ParseInstructions(s).Panic? <==> NoBlank(s)
    ensures ParseInstructions(s).Panic? ==> ParseInstructions(s).reason == UnwrapNone
  {
    BlankFromFirst(s, 0);
  }

  /** Otherwise the text starts with the instructions, a blank line and
      the rules, and neither piece holds a blank line. */
  lemma ParseInstructionsPieces(s: string)
    requires ParseInstructions(s).Ok?
    ensures var (moves, nodes) := ParseInstructions(s).value;
      && |moves| + 2 + |nodes| <= |s|
      && s[..|moves| + 2 + |nodes|] == moves + "\n\n" + nodes
      && NoBlank(moves) && NoBlank(nodes)
  {
    BlankFromFirst(s, 0);
    var k := BlankFrom(s, 0).value;
    var rest := s[k + 2..];
    BlankFromFirst(rest, 0);
    var (moves, nodes) := ParseInstructions(s).value;
    assert moves == s[..k];
    forall t: nat ensures BlankAt(moves, t) ==> BlankAt(s, t) {
    }
    forall t: nat ensures BlankAt(nodes, t) ==> BlankAt(rest, t) {
    }
    assert s == s[..k] + "\n\n" + rest;
    assert rest[..|nodes|] == nodes;
  }

  /** The instructions and the rules, joined by a blank line, are read
      back when neither holds a blank line and the instructions do not
      end with a line break. */
  lemma ParseInstructionsJoined(moves: string, nodes: string)
    requires NoBlank(moves) && (|moves| == 0 || moves[|moves| - 1] != '\n')
    requires NoBlank(nodes)
    ensures ParseInstructions(moves + "\n\n" + nodes) == Ok((moves, nodes))
  {
    var s := moves + "\n\n" + nodes;
    BlankFromFirst(s, 0);
    assert BlankAt(s, |moves|);
    forall t: nat | t < |moves| ensures !BlankAt(s, t) {
      if t + 1 < |moves| {
        assert !BlankAt(moves, t);
      }
    }
    assert BlankFrom(s, 0) == Some(|moves|);
    assert s[|moves| + 2..] == nodes;
    BlankFromFirst(nodes, 0);
    assert s[..|moves|] == moves;
  }

  // ---------------------------------------------------------------------
  // `build_adjacency_list`

  predicate IsUpper(c: char) {
    'A' <= c <= 'Z'
  }

  /** Three upper-case letters start at position `p`: `[A-Z]{3}`. */
  predicate NameAt(s: string, p: nat) {
    p + 3 <= |s| && IsUpper(s[p]) && IsUpper(s[p + 1]) && IsUpper(s[p + 2])
  }

  /** The regex `([A-Z]{3}) = \(([A-Z]{3}), ([A-Z]{3})\)` matches the
      sixteen characters from position `p` on. */
  predicate RuleAt(s: string, p: nat) {
    && p + 16 <= |s|
    && NameAt(s, p)
    && s[p + 3] == ' ' && s[p + 4] == '=' && s[p + 5] == ' ' && s[p + 6] == '('
    && NameAt(s, p + 7)
    && s[p + 10] == ',' && s[p + 11] == ' '
    && NameAt(s, p + 12)
    && s[p + 15] == ')'
  }

  /** The rule captured by a match at `p`. */
  function RuleOf(s: string, p: nat): Rule
    requires RuleAt(s, p)
  {
    (s[p..p + 3], (s[p + 7..p + 10], s[p + 12..p + 15]))
  }

  /** `captures_iter` from position `p`: the leftmost match, then the
      matches after its end; text between matches is skipped. */
  function Rules(s: string, p: nat): seq<Rule>
    decreases |s| - p
  {
    if p + 16 > |s| then []
    else if RuleAt(s, p) then [RuleOf(s, p)] + Rules(s, p + 16)
    else Rules(s, p + 1)
  }

  /** The `(root, (left, right))` pairs as they reach `collect`. */
  function Entries(rules: seq<Rule>): (r: seq<Option<Result<Rule>>>)
    ensures |r| == |rules| && forall i | 0 <= i < |r| :: r[i] == Some(Ok(rules[i]))
  {
    seq(|rules|, i requires 0 <= i < |rules| => Some(Ok(rules[i])))
  }

  /** `build_adjacency_list`: the matches collected into a map, a later
      rule for the same node replacing an earlier one. */
  function BuildAdjacencyList(rules: string): map<Node, (Node, Node)> {
    var entries := Entries(Rules(rules, 0));
    CollectMapPanics(entries);
    CollectMap(entries).value
  }

  /** `adjacency` holds exactly the nodes of `rules`, and a node has the
      neighbours of the last rule for it. */
  predicate IsAdjacencyOf(rules: seq<Rule>, adjacency: map<Node, (Node, Node)>) {
    && (forall i | 0 <= i < |rules| :: rules[i].0 in adjacency)
    && (forall node | node in adjacency :: exists i | 0 <= i < |rules| :: rules[i].0 == node)
    && (forall i | 0 <= i < |rules| && (forall j | i < j < |rules| :: rules[j].0 != rules[i].0) ::
          adjacency[rules[i].0] == rules[i].1)
  }

  /** The map holds exactly the nodes of the rules found, and a node has
      the neighbours of the last rule for it. */
  lemma AdjacencyLastWins(text: string)
    ensures IsAdjacencyOf(Rules(text, 0), BuildAdjacencyList(text))
  {
    var rules := Rules(text, 0);
    var entries := Entries(rules);
    CollectMapPanics(entries);
    CollectMapLastWins(entries);
    var adjacency := BuildAdjacencyList(text);
    assert adjacency == CollectMap(entries).value;
    AdjacencyHasRoots(rules, adjacency);
    AdjacencyOnlyRoots(rules, adjacency);
    AdjacencyLastRule(rules, adjacency);
  }

  /** Every rule's node is a key of the collected map. */
  lemma AdjacencyHasRoots(rules: seq<Rule>, adjacency: map<Node, (Node, Node)>)
    requires forall i, k | 0 <= i < |rules| && Kept(Entries(rules)[i], k) :: k in adjacency
    ensures forall i | 0 <= i < |rules| :: rules[i].0 in adjacency
  {
    var entries := Entries(rules);
    forall i | 0 <= i < |rules| ensures rules[i].0 in adjacency {
      assert Kept(entries[i], rules[i].0);
    }
  }

  /** Every key of the collected map is some rule's node. */
  lemma AdjacencyOnlyRoots(rules: seq<Rule>, adjacency: map<Node, (Node, Node)>)
    requires forall k | k in adjacency :: exists i :: LastKept(Entries(rules), i, k, adjacency[k])
    ensures forall node | node in adjacency :: exists i | 0 <= i < |rules| :: rules[i].0 == node
  {
    var entries := Entries(rules);
    forall node | node in adjacency ensures exists i | 0 <= i < |rules| :: rules[i].0 == node {
      var k :| LastKept(entries, k, node, adjacency[node]);
      assert rules[k].0 == node;
    }
  }

  /** A node's last rule gives its neighbours in the collected map. */
  lemma AdjacencyLastRule(rules: seq<Rule>, adjacency: map<Node, (Node, Node)>)
    requires forall i | 0 <= i < |rules| :: rules[i].0 in adjacency
    requires forall k | k in adjacency :: exists i :: LastKept(Entries(rules), i, k, adjacency[k])
    ensures forall i | 0 <= i < |rules| && (forall j | i < j < |rules| :: rules[j].0 != rules[i].0) ::
      adjacency[rules[i].0] == rules[i].1
  {
    var entries := Entries(rules);
    forall i | 0 <= i < |rules| && (forall j | i < j < |rules| :: rules[j].0 != rules[i].0)
      ensures adjacency[rules[i].0] == rules[i].1
    {
      var node := rules[i].0;
      var k :| LastKept(entries, k, node, adjacency[node]);
      assert k == i;
    }
  }

  /** A node name of three upper-case letters. */
  predicate IsName(n: Node) {
    |n| == 3 && IsUpper(n[0]) && IsUpper(n[1]) && IsUpper(n[2])
  }

  predicate WellFormed(r: Rule) {
    IsName(r.0) && IsName(r.1.0) && IsName(r.1.1)
  }

  /** A rule as written in the input, "AAA = (BBB, CCC)". */
  function RuleText(r: Rule): string {
    r.0 + " = (" + r.1.0 + ", " + r.1.1 + ")"
  }

  /** Rules written one per line, each line ended by a line break. */
  function RuleLines(rules: seq<Rule>): string {
    if |rules| == 0 then "" else RuleText(rules[0]) + "\n" + RuleLines(rules[1..])
  }

  /** A well-formed rule is matched where it is written, and captured
      back. */
  lemma RuleTextMatches(r: Rule, rest: string)
    requires WellFormed(r)
    ensures RuleAt(RuleText(r) + rest, 0) && RuleOf(RuleText(r) + rest, 0) == r
  {
    var t := RuleText(r) + rest;
    assert |RuleText(r)| == 16;
    forall k | 0 <= k < 3 ensures t[k] == r.0[k] && t[7 + k] == r.1.0[k] && t[12 + k] == r.1.1[k] {
    }
    assert t[..3] == r.0;
    assert t[7..10] == r.1.0;
    assert t[12..15] == r.1.1;
  }

  /** Reading `a + b` past `a` is reading `b`. */
  lemma {:induction false} RulesShift(a: string, b: string, j: nat)
    requires j <= |b|
    ensures Rules(a + b, |a| + j) == Rules(b, j)
    decreases |b| - j
  {
    var s := a + b;
    if j + 16 <= |b| {
      RulesShift(a, b, j + 1);
      RulesShift(a, b, j + 16);
      if RuleAt(b, j) {
        assert s[|a| + j..|a| + j + 3] == b[j..j + 3];
        assert s[|a| + j + 7..|a| + j + 10] == b[j + 7..j + 10];
        assert s[|a| + j + 12..|a| + j + 15] == b[j + 12..j + 15];
      }
    }
  }

  lemma {:induction false} RuleLinesLength(rules: seq<Rule>)
    requires forall i | 0 <= i < |rules| :: WellFormed(rules[i])
    ensures |RuleLines(rules)| == 17 * |rules|
    decreases |rules|
  {
    if |rules| > 0 {
      RuleLinesLength(rules[1..]);
    }
  }

  /** Rules written one per line are found again, in order. */
  lemma {:induction false} RulesOfLines(rules: seq<Rule>)
    requires forall i | 0 <= i < |rules| :: WellFormed(rules[i])
    ensures Rules(RuleLines(rules), 0) == rules
    decreases |rules|
  {
    if |rules| > 0 {
      var head := RuleText(rules[0]) + "\n";
      var tail := RuleLines(rules[1..]);
      var s := RuleLines(rules);
      assert s == RuleText(rules[0]) + ("\n" + tail);
      RuleTextMatches(rules[0], "\n" + tail);
      RulesOfLines(rules[1..]);
      RuleLinesLength(rules[1..]);
      assert s == head + tail;
      assert s[16] == '\n';
      RulesShift(head, tail, 0);
      assert [rules[0]] + rules[1..] == rules;
    }
  }

  /** Rules without line breaks in their names leave no blank line. */
  lemma {:induction false} RuleLinesNoBlank(rules: seq<Rule>)
    requires forall i | 0 <= i < |rules| :: WellFormed(rules[i])
    ensures NoBlank(RuleLines(rules))
    ensures |rules| > 0 ==> RuleLines(rules)[0] != '\n'
    decreases |rules|
  {
    if |rules| > 0 {
      var s := RuleLines(rules);
      var tail := RuleLines(rules[1..]);
      RuleLinesNoBlank(rules[1..]);
      RuleLinesLength(rules[1..]);
      assert s == RuleText(rules[0]) + "\n" + tail;
      forall k: nat | k < |s| ensures !BlankAt(s, k) {
        if k >= 17 {
          assert !BlankAt(tail, k - 17);
        }
      }
    }
  }

  /** No two rules are for the same node. */
  predicate DistinctNodes(rules: seq<Rule>) {
    forall i, j | 0 <= i < j < |rules| :: rules[i].0 != rules[j].0
  }

  /** When the rules found name distinct nodes, the adjacency list maps
      each node to its neighbours and has one entry per rule. */
  lemma AdjacencyDistinct(text: string)
    requires DistinctNodes(Rules(text, 0))
    ensures var rules, adjacency := Rules(text, 0), BuildAdjacencyList(text);
      && |adjacency| == |rules|
      && forall i | 0 <= i < |rules| :: rules[i].0 in adjacency && adjacency[rules[i].0] == rules[i].1
  {
    var rules, adjacency := Rules(text, 0), BuildAdjacencyList(text);
    AdjacencyLastWins(text);
    DistinctRoots(rules);
    AdjacencyKeys(rules, adjacency);
    AdjacencyValues(rules, adjacency);
  }

  /** The keys of an adjacency list are the nodes of its rules. */
  lemma AdjacencyKeys(rules: seq<Rule>, adjacency: map<Node, (Node, Node)>)
    requires IsAdjacencyOf(rules, adjacency)
    ensures adjacency.Keys == set i | 0 <= i < |rules| :: rules[i].0
  {
    var roots := set i | 0 <= i < |rules| :: rules[i].0;
    forall node ensures node in adjacency <==> node in roots {
      if node in roots {
        var i :| 0 <= i < |rules| && rules[i].0 == node;
        assert node in adjacency;
      }
    }
  }

  /** With distinct nodes every rule is its node's last one. */
  lemma AdjacencyValues(rules: seq<Rule>, adjacency: map<Node, (Node, Node)>)
    requires IsAdjacencyOf(rules, adjacency) && DistinctNodes(rules)
    ensures forall i | 0 <= i < |rules| :: rules[i].0 in adjacency && adjacency[rules[i].0] == rules[i].1
  {
    forall i | 0 <= i < |rules| ensures adjacency[rules[i].0] == rules[i].1 {
      assert forall j | i < j < |rules| :: rules[j].0 != rules[i].0;
    }
  }


  /** Rules with distinct nodes, written one per line, give an adjacency
      list with one entry per rule, each node mapped to its neighbours. */
  lemma AdjacencyOfLines(rules: seq<Rule>)
    requires forall i | 0 <= i < |rules| :: WellFormed(rules[i])
    requires DistinctNodes(rules)
    ensures var adjacency := BuildAdjacencyList(RuleLines(rules));
      && |adjacency| == |rules|
      && forall i | 0 <= i < |rules| :: rules[i].0 in adjacency && adjacency[rules[i].0] == rules[i].1
  {
    RulesOfLines(rules);
    AdjacencyDistinct(RuleLines(rules));
  }

  lemma {:induction false} DistinctRoots(rules: seq<Rule>)
    requires DistinctNodes(rules)
    ensures |set i | 0 <= i < |rules| :: rules[i].0| == |rules|
    decreases |rules|
  {
    if |rules| > 0 {
      var init := rules[..|rules| - 1];
      DistinctRoots(init);
      var last := rules[|rules| - 1].0;
      var before := set i | 0 <= i < |init| :: init[i].0;
      assert (set i | 0 <= i < |rules| :: rules[i].0) == before + {last};
      assert last !in before;
    }
  }

  // ---------------------------------------------------------------------
  // `find_path`

  /** What a walk comes to: it arrives with its path, panics, or is still
      walking when the number of steps allowed runs out. */
  datatype Walk = Arrived(path: string) | Panicked(reason: string) | Walking

  /** The number of bytes of the UTF-8 encoding, `str::len`. */
  function ByteLen(s: string): (n: nat)
    ensures n >= |s|
  {
    if |s| == 0 then 0
    else ByteLen(s[..|s| - 1]) + (if s[|s| - 1] < '\U{80}' then 1 else if s[|s| - 1] < '\U{800}' then 2 else if s[|s| - 1] < '\U{10000}' then 3 else 4)
  }

  /** The node a direction leads to: left on 'L', right on 'R', none
      otherwise. */
  function Follow(direction: char, neighbours: (Node, Node)): Option<Node> {
    if direction == 'L' then Some(neighbours.0)
    else if direction == 'R' then Some(neighbours.1)
    else None
  }

  /** The loop of `find_path` from the state (`current`, `i`, `path`),
      allowed `fuel` more iterations. An iteration takes the `i`-th
      character of the instructions (`nth(i).unwrap()`), the current node
      (`expect`) and its neighbours (`get(...).unwrap()`), in that order,
      then pushes the direction, advances `i` modulo the byte length and
      moves. */
  function WalkFrom(adjacency: map<Node, (Node, Node)>, moves: string, end: Node,
                    current: Option<Node>, i: nat, path: string, fuel: nat): Walk
    decreases fuel
  {
    if current == Some(end) then Arrived(path)
    else if fuel == 0 then Walking
    else if i >= |moves| then Panicked(UnwrapNone)
    else if current.None? then Panicked(ExpectNode)
    else if current.value !in adjacency then Panicked(UnwrapNone)
    else
      var direction := moves[i];
      WalkFrom(adjacency, moves, end, Follow(direction, adjacency[current.value]),
               (i + 1) % ByteLen(moves), path + [direction], fuel - 1)
  }

  /** `find_path` from `start`, allowed `fuel` iterations. */
  function Walked(adjacency: map<Node, (Node, Node)>, moves: string, start: Node, end: Node, fuel: nat): Walk {
    WalkFrom(adjacency, moves, end, Some(start), 0, "", fuel)
  }

  /** `find_path`, run for at most `fuel` iterations of its loop. */
  method FindPath(start: Node, end: Node, moves: string, adjacency: map<Node, (Node, Node)>, fuel: nat)
    returns (walk: Walk)
    ensures walk == Walked(adjacency, moves, start, end, fuel)
    ensures start == end ==> walk == Arrived("")
    ensures start != end && fuel > 0 && (|moves| == 0 || start !in adjacency) ==> walk == Panicked(UnwrapNone)
  {
    var i: nat := 0;
    var path := "";
    var current := Some(start);
    var steps: nat := 0;
    while current != Some(end)
      invariant steps <= fuel
      invariant WalkFrom(adjacency, moves, end, current, i, path, fuel - steps) == Walked(adjacency, moves, start, end, fuel)
      decreases fuel - steps
    {
      if steps == fuel {
        return Walking;
      }
      if i >= |moves| {
        return Panicked(UnwrapNone);
      }
      var direction := moves[i];
      if current.None? {
        return Panicked(ExpectNode);
      }
      var node := current.value;
      if node !in adjacency {
        return Panicked(UnwrapNone);
      }
      var (left, right) := adjacency[node];
      path := path + [direction];
      i := (i + 1) % ByteLen(moves);
      current := if direction == 'L' then Some(left) else if direction == 'R' then Some(right) else None;
      steps := steps + 1;
    }
    return Arrived(path);
  }

  /** Instructions in ASCII take one byte per character. */
  predicate IsAscii(s: string) {
    forall k | 0 <= k < |s| :: s[k] < '\U{80}'
  }

  lemma {:induction false} AsciiByteLen(s: string)
    requires IsAscii(s)
    ensures ByteLen(s) == |s|
    decreases |s|
  {
    if |s| > 0 {
      AsciiByteLen(s[..|s| - 1]);
    }
  }

  /** The node reached after `k` steps that follow the instructions
      cyclically, if every step so far found its node and a direction. */
  function NodeAfter(adjacency: map<Node, (Node, Node)>, moves: string, start: Node, k: nat): Option<Node>
    requires |moves| > 0
  {
    if k == 0 then Some(start)
    else match NodeAfter(adjacency, moves, start, k - 1)
      case None => None
      case Some(node) =>
        if node in adjacency then Follow(moves[(k - 1) % |moves|], adjacency[node]) else None
  }

  /** The first `k` directions taken: step `j` takes instruction `j`
      modulo the number of instructions. */
  function PathOf(moves: string, k: nat): (p: string)
    requires |moves| > 0
    ensures |p| == k && forall j | 0 <= j < k :: p[j] == moves[j % |moves|]
  {
    seq(k, j requires 0 <= j < k => moves[j % |moves|])
  }

  /** Every step of the first `k` found its node, and none of the nodes
      before the `k`-th is the end. */
  predicate OpenFor(adjacency: map<Node, (Node, Node)>, moves: string, start: Node, end: Node, k: nat)
    requires |moves| > 0
  {
    && NodeAfter(adjacency, moves, start, k).Some?
    && forall j | 0 <= j < k :: NodeAfter(adjacency, moves, start, j) != Some(end)
  }

  /** One iteration of `find_path` from the node reached after `k` steps
      moves it to the node reached after `k + 1`. */
  lemma StepAfter(adjacency: map<Node, (Node, Node)>, moves: string, start: Node, end: Node, k: nat, rest: nat)
    requires IsAscii(moves) && |moves| > 0
    requires OpenFor(adjacency, moves, start, end, k + 1)
    ensures WalkFrom(adjacency, moves, end, NodeAfter(adjacency, moves, start, k), k % |moves|, PathOf(moves, k), rest + 1)
         == WalkFrom(adjacency, moves, end, NodeAfter(adjacency, moves, start, k + 1), (k + 1) % |moves|, PathOf(moves, k + 1), rest)
  {
    var n := |moves|;
    AsciiByteLen(moves);
    var node := NodeAfter(adjacency, moves, start, k);
    assert node != Some(end);
    assert node.Some? && node.value in adjacency;
    NextIndex(k, n);
    PathStep(moves, k);
  }

  lemma MulMono(a: int, b: int, n: int)
    requires n > 0 && a < b
    ensures a * n + n <= b * n
  {
    var d := b - a;
    MulAtLeast(d, n);
    assert b * n == a * n + d * n;
  }

  lemma {:induction false} MulAtLeast(d: int, n: int)
    requires d >= 1 && n > 0
    ensures d * n >= n
    decreases d
  {
    if d > 1 {
      MulAtLeast(d - 1, n);
      assert d * n == (d - 1) * n + n;
    }
  }

  /** The remainder is determined by any quotient and remainder in range. */
  lemma ModOf(a: int, n: int, q: int, r: int)
    requires n > 0 && 0 <= r < n && a == q * n + r
    ensures a % n == r
  {
    var q', r' := a / n, a % n;
    assert a == q' * n + r';
    if q' < q { MulMono(q', q, n); }
    else if q < q' { MulMono(q, q', n); }
  }

  /** Advancing the instruction index modulo their number is taking the
      next step count modulo it. */
  lemma NextIndex(k: nat, n: nat)
    requires n > 0
    ensures (k % n + 1) % n == (k + 1) % n
  {
    var q, r := k / n, k % n;
    assert k + 1 == q * n + (r + 1);
    if r + 1 < n {
      ModOf(k + 1, n, q, r + 1);
      ModOf(r + 1, n, 0, r + 1);
    } else {
      assert k + 1 == (q + 1) * n + 0;
      ModOf(k + 1, n, q + 1, 0);
      ModOf(r + 1, n, 1, 0);
    }
  }

  lemma PathStep(moves: string, k: nat)
    requires |moves| > 0
    ensures PathOf(moves, k) + [moves[k % |moves|]] == PathOf(moves, k + 1)
  {
  }

  /** A walk open for one more step was open before it. */
  lemma OpenForPrefix(adjacency: map<Node, (Node, Node)>, moves: string, start: Node, end: Node, k: nat)
    requires |moves| > 0
    requires OpenFor(adjacency, moves, start, end, k + 1)
    ensures OpenFor(adjacency, moves, start, end, k)
  {
    assert NodeAfter(adjacency, moves, start, k).Some?;
  }

  /** After `k` such steps `find_path` is at the node reached, at
      instruction `k` modulo their number, with the first `k` directions as
      its path. */
  lemma {:induction false} WalkAfter(adjacency: map<Node, (Node, Node)>, moves: string, start: Node, end: Node, k: nat, fuel: nat)
    requires IsAscii(moves) && |moves| > 0 && k <= fuel
    requires OpenFor(adjacency, moves, start, end, k)
    ensures Walked(adjacency, moves, start, end, fuel)
         == WalkFrom(adjacency, moves, end, NodeAfter(adjacency, moves, start, k), k % |moves|, PathOf(moves, k), fuel - k)
    decreases k
  {
    if k > 0 {
      var j, rest := k - 1, fuel - k;
      OpenForPrefix(adjacency, moves, start, end, j);
      WalkAfter(adjacency, moves, start, end, j, fuel);
      assert fuel - j == rest + 1;
      StepAfter(adjacency, moves, start, end, j, rest);
      assert j + 1 == k;
    } else {
      assert PathOf(moves, 0) == "";
    }
  }

  /** When the end is first reached after `n` steps and the walk may take
      them, `find_path` returns the `n` directions taken. */
  lemma WalkArrives(adjacency: map<Node, (Node, Node)>, moves: string, start: Node, end: Node, n: nat, fuel: nat)
    requires IsAscii(moves) && |moves| > 0 && n <= fuel
    requires NodeAfter(adjacency, moves, start, n) == Some(end)
    requires forall j | 0 <= j < n :: NodeAfter(adjacency, moves, start, j) != Some(end)
    ensures Walked(adjacency, moves, start, end, fuel) == Arrived(PathOf(moves, n))
  {
    WalkAfter(adjacency, moves, start, end, n, fuel);
  }

  lemma {:induction false} ArrivalFrom(adjacency: map<Node, (Node, Node)>, moves: string, start: Node, end: Node, k: nat, fuel: nat)
    requires IsAscii(moves) && |moves| > 0 && k <= fuel
    requires OpenFor(adjacency, moves, start, end, k)
    requires WalkFrom(adjacency, moves, end, NodeAfter(adjacency, moves, start, k), k % |moves|, PathOf(moves, k), fuel - k).Arrived?
    ensures var p := WalkFrom(adjacency, moves, end, NodeAfter(adjacency, moves, start, k), k % |moves|, PathOf(moves, k), fuel - k).path;
      && k <= |p| <= fuel && p == PathOf(moves, |p|)
      && NodeAfter(adjacency, moves, start, |p|) == Some(end)
      && forall j | 0 <= j < |p| :: NodeAfter(adjacency, moves, start, j) != Some(end)
    decreases fuel - k
  {
    if NodeAfter(adjacency, moves, start, k) != Some(end) {
      AsciiByteLen(moves);
      if NodeAfter(adjacency, moves, start, k + 1).Some? {
        StepAfter(adjacency, moves, start, end, k, fuel - k - 1);
        ArrivalFrom(adjacency, moves, start, end, k + 1, fuel);
      }
    }
  }

  /** Conversely, a path returned by `find_path` is the directions taken
      up to the first arrival at the end, and it took no more steps than
      allowed. */
  lemma ArrivalIsFirst(adjacency: map<Node, (Node, Node)>, moves: string, start: Node, end: Node, fuel: nat)
    requires IsAscii(moves) && |moves| > 0
    requires Walked(adjacency, moves, start, end, fuel).Arrived?
    ensures var p := Walked(adjacency, moves, start, end, fuel).path;
      && |p| <= fuel && p == PathOf(moves, |p|)
      && NodeAfter(adjacency, moves, start, |p|) == Some(end)
      && forall j | 0 <= j < |p| :: NodeAfter(adjacency, moves, start, j) != Some(end)
  {
    WalkAfter(adjacency, moves, start, end, 0, fuel);
    ArrivalFrom(adjacency, moves, start, end, 0, fuel);
  }

  /** A walk that has ended stays ended when more iterations are
      allowed. */
  lemma {:induction false} MoreFuel(adjacency: map<Node, (Node, Node)>, moves: string, end: Node,
                                    current: Option<Node>, i: nat, path: string, fuel: nat, more: nat)
    requires fuel <= more
    requires !WalkFrom(adjacency, moves, end, current, i, path, fuel).Walking?
    ensures WalkFrom(adjacency, moves, end, current, i, path, more) == WalkFrom(adjacency, moves, end, current, i, path, fuel)
    decreases fuel
  {
    if current != Some(end) && fuel > 0 && i < |moves| && current.Some? && current.value in adjacency {
      var direction := moves[i];
      MoreFuel(adjacency, moves, end, Follow(direction, adjacency[current.value]),
               (i + 1) % ByteLen(moves), path + [direction], fuel - 1, more - 1);
    }
  }

  /** `find_path` returns the same result however many more iterations
      it is allowed once it has returned. */
  lemma FuelMonotone(adjacency: map<Node, (Node, Node)>, moves: string, start: Node, end: Node, fuel: nat, more: nat)
    requires fuel <= more
    requires !Walked(adjacency, moves, start, end, fuel).Walking?
    ensures Walked(adjacency, moves, start, end, more) == Walked(adjacency, moves, start, end, fuel)
  {
    MoreFuel(adjacency, moves, end, Some(start), 0, "", fuel, more);
  }

  /** When the end is never reached and no step fails, `find_path` never
      returns: however many iterations are allowed, it is still walking. */
  lemma NeverArrives(adjacency: map<Node, (Node, Node)>, moves: string, start: Node, end: Node, fuel: nat)
    requires IsAscii(moves) && |moves| > 0
    requires forall j: nat :: NodeAfter(adjacency, moves, start, j).Some? && NodeAfter(adjacency, moves, start, j).value != end
    ensures Walked(adjacency, moves, start, end, fuel) == Walking
  {
    WalkAfter(adjacency, moves, start, end, fuel, fuel);
  }

  /** A direction other than 'L' or 'R' leaves no current node, and the
      next iteration panics in its `expect`. */
  lemma BadDirectionPanics(adjacency: map<Node, (Node, Node)>, moves: string, start: Node, end: Node, k: nat, fuel: nat)
    requires IsAscii(moves) && |moves| > 0 && k + 2 <= fuel
    requires OpenFor(adjacency, moves, start, end, k)
    requires NodeAfter(adjacency, moves, start, k) != Some(end)
    requires NodeAfter(adjacency, moves, start, k).value in adjacency
    requires moves[k % |moves|] != 'L' && moves[k % |moves|] != 'R'
    ensures Walked(adjacency, moves, start, end, fuel) == Panicked(ExpectNode)
  {
    WalkAfter(adjacency, moves, start, end, k, fuel);
    AsciiByteLen(moves);
  }

  /** A node whose two neighbours are itself is never left. */
  lemma {:induction false} StaysAt(adjacency: map<Node, (Node, Node)>, moves: string, start: Node, k: nat)
    requires |moves| > 0 && start in adjacency && adjacency[start] == (start, start)
    requires forall t | 0 <= t < |moves| :: moves[t] == 'L' || moves[t] == 'R'
    ensures NodeAfter(adjacency, moves, start, k) == Some(start)
    decreases k
  {
    if k > 0 {
      StaysAt(adjacency, moves, start, k - 1);
    }
  }

  /** `find_path` does not terminate on a node that only leads back to
      itself: "AAA = (AAA, AAA)" with the instruction "L" never reaches
      "ZZZ". */
  lemma ExampleCycle(adjacency: map<Node, (Node, Node)>, fuel: nat)
    requires adjacency == map["AAA" := ("AAA", "AAA")]
    ensures Walked(adjacency, "L", "AAA", "ZZZ", fuel) == Walking
  {
    forall j: nat ensures NodeAfter(adjacency, "L", "AAA", j) == Some("AAA") {
      StaysAt(adjacency, "L", "AAA", j);
    }
    NeverArrives(adjacency, "L", "AAA", "ZZZ", fuel);
  }

  // ---------------------------------------------------------------------
  // `main`

  /** What `main` computes before printing: the instructions and the
      rules of the input, and the path from "AAA" to "ZZZ" within `fuel`
      iterations. */
  function SolvePart1(data: string, fuel: nat): Walk {
    match ParseInstructions(data)
    case Panic(reason) => Panicked(reason)
    case Ok((moves, nodes)) => Walked(BuildAdjacencyList(nodes), moves, "AAA", "ZZZ", fuel)
  }

  /** The seven rules of the tests are well formed and name distinct
      nodes. */
  lemma RulesRL(rules: seq<Rule>)
    requires rules == [("AAA", ("BBB", "CCC")), ("BBB", ("DDD", "EEE")), ("CCC", ("ZZZ", "GGG")),
                       ("DDD", ("DDD", "DDD")), ("EEE", ("EEE", "EEE")), ("GGG", ("GGG", "GGG")),
                       ("ZZZ", ("ZZZ", "ZZZ"))]
    ensures forall i | 0 <= i < |rules| :: WellFormed(rules[i])
    ensures DistinctNodes(rules)
    ensures rules[0] == ("AAA", ("BBB", "CCC")) && rules[2] == ("CCC", ("ZZZ", "GGG"))
  {
  }

  /** Test case: the adjacency list of the seven rules has seven entries,
      each node with its neighbours. */
  lemma AdjacencyRL(rules: seq<Rule>, adjacency: map<Node, (Node, Node)>)
    requires rules == [("AAA", ("BBB", "CCC")), ("BBB", ("DDD", "EEE")), ("CCC", ("ZZZ", "GGG")),
                       ("DDD", ("DDD", "DDD")), ("EEE", ("EEE", "EEE")), ("GGG", ("GGG", "GGG")),
                       ("ZZZ", ("ZZZ", "ZZZ"))]
    requires adjacency == BuildAdjacencyList(RuleLines(rules))
    ensures |adjacency| == 7
    ensures forall i | 0 <= i < 7 :: rules[i].0 in adjacency && adjacency[rules[i].0] == rules[i].1
  {
    RulesRL(rules);
    AdjacencyOfLines(rules);
  }

  /** Test case: from "AAA", R leads to "CCC" and L to "ZZZ". */
  lemma WalkRL(adjacency: map<Node, (Node, Node)>, fuel: nat)
    requires "AAA" in adjacency && adjacency["AAA"] == ("BBB", "CCC")
    requires "CCC" in adjacency && adjacency["CCC"] == ("ZZZ", "GGG")
    requires fuel >= 2
    ensures Walked(adjacency, "RL", "AAA", "ZZZ", fuel) == Arrived("RL")
  {
    var moves := "RL";
    AsciiByteLen(moves);
    assert moves[0] == 'R' && moves[1] == 'L' && ByteLen(moves) == 2;
    assert "" + [moves[0]] == "R" && "R" + [moves[1]] == "RL";
    assert Some("AAA") != Some("ZZZ") && Some("CCC") != Some("ZZZ");
    assert Walked(adjacency, "RL", "AAA", "ZZZ", fuel) == WalkFrom(adjacency, "RL", "ZZZ", Some("CCC"), 1, "R", fuel - 1);
    assert WalkFrom(adjacency, "RL", "ZZZ", Some("CCC"), 1, "R", fuel - 1) == WalkFrom(adjacency, "RL", "ZZZ", Some("ZZZ"), 0, "RL", fuel - 2);
  }

  /** Test case: the input "RL", a blank line and the seven rules is read
      back, and `main` finds the path R then L. */
  lemma ExampleRL(rules: seq<Rule>, data: string, fuel: nat)
    requires rules == [("AAA", ("BBB", "CCC")), ("BBB", ("DDD", "EEE")), ("CCC", ("ZZZ", "GGG")),
                       ("DDD", ("DDD", "DDD")), ("EEE", ("EEE", "EEE")), ("GGG", ("GGG", "GGG")),
                       ("ZZZ", ("ZZZ", "ZZZ"))]
    requires data == "RL\n\n" + RuleLines(rules)
    requires fuel >= 2
    ensures ParseInstructions(data) == Ok(("RL", RuleLines(rules)))
    ensures SolvePart1(data, fuel) == Arrived("RL")
  {
    var nodes := RuleLines(rules);
    RulesRL(rules);
    RuleLinesNoBlank(rules);
    assert data == "RL" + "\n\n" + nodes;
    ParseInstructionsJoined("RL", nodes);
    var adjacency := BuildAdjacencyList(nodes);
    AdjacencyRL(rules, adjacency);
    WalkRL(adjacency, fuel);
  }

  /** The three rules of the test with repeated steps. */
  lemma RulesLLR(rules: seq<Rule>)
    requires rules == [("AAA", ("BBB", "BBB")), ("BBB", ("AAA", "ZZZ")), ("ZZZ", ("ZZZ", "ZZZ"))]
    ensures forall i | 0 <= i < |rules| :: WellFormed(rules[i])
    ensures DistinctNodes(rules)
    ensures rules[0] == ("AAA", ("BBB", "BBB")) && rules[1] == ("BBB", ("AAA", "ZZZ"))
  {
  }

  /** The first three steps of the walk with "LLR": AAA, BBB, AAA, BBB. */
  lemma WalkLLRFirst(adjacency: map<Node, (Node, Node)>, fuel: nat)
    requires "AAA" in adjacency && adjacency["AAA"] == ("BBB", "BBB")
    requires "BBB" in adjacency && adjacency["BBB"] == ("AAA", "ZZZ")
    requires fuel >= 3
    ensures Walked(adjacency, "LLR", "AAA", "ZZZ", fuel) == WalkFrom(adjacency, "LLR", "ZZZ", Some("BBB"), 0, "LLR", fuel - 3)
  {
    var moves := "LLR";
    AsciiByteLen(moves);
    assert moves[0] == 'L' && moves[1] == 'L' && moves[2] == 'R' && ByteLen(moves) == 3;
    assert Some("AAA") != Some("ZZZ") && Some("BBB") != Some("ZZZ");
    var a, b := Some("AAA"), Some("BBB");
    assert "" + [moves[0]] == "L";
    assert Walked(adjacency, moves, "AAA", "ZZZ", fuel) == WalkFrom(adjacency, moves, "ZZZ", b, 1, "L", fuel - 1);
    assert "L" + [moves[1]] == "LL";
    assert WalkFrom(adjacency, moves, "ZZZ", b, 1, "L", fuel - 1) == WalkFrom(adjacency, moves, "ZZZ", a, 2, "LL", fuel - 2);
    assert "LL" + [moves[2]] == "LLR";
  }

  /** The last three steps: BBB, AAA, BBB, ZZZ. */
  lemma WalkLLRSecond(adjacency: map<Node, (Node, Node)>, rest: nat)
    requires "AAA" in adjacency && adjacency["AAA"] == ("BBB", "BBB")
    requires "BBB" in adjacency && adjacency["BBB"] == ("AAA", "ZZZ")
    requires rest >= 3
    ensures WalkFrom(adjacency, "LLR", "ZZZ", Some("BBB"), 0, "LLR", rest) == Arrived("LLRLLR")
  {
    var moves := "LLR";
    AsciiByteLen(moves);
    assert moves[0] == 'L' && moves[1] == 'L' && moves[2] == 'R' && ByteLen(moves) == 3;
    assert Some("AAA") != Some("ZZZ") && Some("BBB") != Some("ZZZ");
    var a, b, z := Some("AAA"), Some("BBB"), Some("ZZZ");
    assert "LLR" + [moves[0]] == "LLRL";
    assert WalkFrom(adjacency, moves, "ZZZ", b, 0, "LLR", rest) == WalkFrom(adjacency, moves, "ZZZ", a, 1, "LLRL", rest - 1);
    assert "LLRL" + [moves[1]] == "LLRLL";
    assert WalkFrom(adjacency, moves, "ZZZ", a, 1, "LLRL", rest - 1) == WalkFrom(adjacency, moves, "ZZZ", b, 2, "LLRLL", rest - 2);
    assert "LLRLL" + [moves[2]] == "LLRLLR";
    assert WalkFrom(adjacency, moves, "ZZZ", b, 2, "LLRLL", rest - 2) == WalkFrom(adjacency, moves, "ZZZ", z, 0, "LLRLLR", rest - 3);
  }

  /** Test case: the input "LLR", a blank line and the three rules; `main`
      finds the six-step path L, L, R, L, L, R. */
  lemma ExampleLLR(rules: seq<Rule>, data: string, fuel: nat)
    requires rules == [("AAA", ("BBB", "BBB")), ("BBB", ("AAA", "ZZZ")), ("ZZZ", ("ZZZ", "ZZZ"))]
    requires data == "LLR\n\n" + RuleLines(rules)
    requires fuel >= 6
    ensures SolvePart1(data, fuel) == Arrived("LLRLLR")
  {
    var nodes := RuleLines(rules);
    RulesLLR(rules);
    RuleLinesNoBlank(rules);
    assert data == "LLR" + "\n\n" + nodes;
    ParseInstructionsJoined("LLR", nodes);
    var adjacency := BuildAdjacencyList(nodes);
    AdjacencyOfLines(rules);
    WalkLLRFirst(adjacency, fuel);
    WalkLLRSecond(adjacency, fuel - 3);
  }
}
