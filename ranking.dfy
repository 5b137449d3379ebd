/** Orderings shared by the three Camel Cards engines: Rust's `Ordering`,
    the seven hand types, the lexicographic comparison of `Vec`, the
    zipped card-by-card comparison of `Hand::cmp`, the stable sort behind
    `sort_by`/`sorted_by`, and the rank-weighted winnings fold. */
module Ranking {

  datatype Ordering = Less | Equal | Greater {
    function Reverse(): Ordering {
      match this
      case Less => Greater
      case Equal => Equal
      case Greater => Less
    }
  }

  /** `Ord::cmp` on integers. */
  function CompareInt(a: int, b: int): Ordering {
    if a < b then Less else if a == b then Equal else Greater
  }

  /** The seven hand types, weakest first; the derived `Ord` follows
      declaration order. */
  datatype HandType =
    | HighCard
    | OnePair
    | TwoPair
    | ThreeOfAKind
    | FullHouse
    | FourOfAKind
    | FiveOfAKind

  function Strength(t: HandType): nat {
    match t
    case HighCard => 0
    case OnePair => 1
    case TwoPair => 2
    case ThreeOfAKind => 3
    case FullHouse => 4
    case FourOfAKind => 5
    case FiveOfAKind => 6
  }

  function CompareTypes(a: HandType, b: HandType): Ordering {
    CompareInt(Strength(a), Strength(b))
  }

  lemma StrengthInjective(a: HandType, b: HandType)
    ensures CompareTypes(a, b) == Equal <==> a == b
  {
  }

  // ---------------------------------------------------------------------
  // The seven count patterns

  /** How often `x` occurs in `s`. */
  function Count<T(==)>(s: seq<T>, x: T): nat {
    multiset(s)[x]
  }

  function OneIf(b: bool): nat {
    if b then 1 else 0
  }

  /** The count of `x` in five elements, element by element. */
  lemma CountFive<T>(a: T, b: T, c: T, d: T, e: T, x: T)
    ensures Count([a, b, c, d, e], x) == OneIf(a == x) + OneIf(b == x) + OneIf(c == x) + OneIf(d == x) + OneIf(e == x)
  {
  }

  /** Two different cards never occur more often, together, than there are
      cards. */
  lemma {:induction false} CountPair<T>(s: seq<T>, x: T, y: T)
    requires x != y
    ensures Count(s, x) + Count(s, y) <= |s|
    decreases |s|
  {
    if |s| != 0 {
      var init := s[..|s| - 1];
      CountPair(init, x, y);
      assert s == init + [s[|s| - 1]];
    }
  }

  ghost predicate HasCount<T>(s: seq<T>, k: nat) {
    exists x | x in s :: Count(s, x) == k
  }

  ghost predicate HasTwoPairs<T>(s: seq<T>) {
    exists x, y | x in s && y in s && x != y :: Count(s, x) == 2 && Count(s, y) == 2
  }

  /** The hand type a hand of five cards has by the rules of the game,
      stated on the multiplicities of its cards: 5, 4, 3+2, 3, 2+2, 2,
      and all different. */
  ghost function PatternType<T>(s: seq<T>): HandType {
    if HasCount(s, 5) then FiveOfAKind
    else if HasCount(s, 4) then FourOfAKind
    else if HasCount(s, 3) && HasCount(s, 2) then FullHouse
    else if HasCount(s, 3) then ThreeOfAKind
    else if HasTwoPairs(s) then TwoPair
    else if HasCount(s, 2) then OnePair
    else HighCard
  }

  // ---------------------------------------------------------------------
  // Comparing card sequences

  /** `Vec::cmp`: lexicographic, a proper prefix is smaller. */
  function LexCompare(a: seq<int>, b: seq<int>): Ordering
    decreases |a|
  {
    if |a| == 0 then (if |b| == 0 then Equal else Less)
    else if |b| == 0 then Greater
    else if a[0] != b[0] then CompareInt(a[0], b[0])
    else LexCompare(a[1..], b[1..])
  }

  /** The loop of `Hand::cmp` over `zip`: the first differing position
      within the shorter length decides, otherwise `Equal`. */
  function ZipCompare(a: seq<int>, b: seq<int>): Ordering
    decreases |a|
  {
    if |a| == 0 || |b| == 0 then Equal
    else if a[0] != b[0] then CompareInt(a[0], b[0])
    else ZipCompare(a[1..], b[1..])
  }

  function Min(a: int, b: int): int {
    if a < b then a else b
  }

  /** Position `k` is the first one below the shorter length where the
      sequences differ, and there `a` holds the smaller card. */
  predicate FirstLessAt(a: seq<int>, b: seq<int>, k: int) {
    0 <= k < Min(|a|, |b|) && a[..k] == b[..k] && a[k] < b[k]
  }

  /** ZipCompare is decided by the first position below the shorter length
      where the sequences differ, and is Equal when there is none. */
  lemma ZipCompareMeaning(a: seq<int>, b: seq<int>)
    ensures ZipCompare(a, b) == Equal <==> a[..Min(|a|, |b|)] == b[..Min(|a|, |b|)]
    ensures ZipCompare(a, b) == Less <==> exists k :: FirstLessAt(a, b, k)
  {
    ZipCompareEqualMeaning(a, b);
    ZipCompareLessMeaning(a, b);
  }

  lemma {:induction false} ZipCompareEqualMeaning(a: seq<int>, b: seq<int>)
    ensures ZipCompare(a, b) == Equal <==> a[..Min(|a|, |b|)] == b[..Min(|a|, |b|)]
    decreases |a|
  {
    if |a| != 0 && |b| != 0 {
      var m := Min(|a|, |b|);
      if a[0] != b[0] {
        assert a[..m][0] != b[..m][0];
      } else {
        ZipCompareEqualMeaning(a[1..], b[1..]);
        var m' := Min(|a[1..]|, |b[1..]|);
        assert m == m' + 1;
        assert a[..m] == [a[0]] + a[1..][..m'];
        assert b[..m] == [b[0]] + b[1..][..m'];
      }
    }
  }

  lemma {:induction false} ZipCompareLessMeaning(a: seq<int>, b: seq<int>)
    ensures ZipCompare(a, b) == Less <==> exists k :: FirstLessAt(a, b, k)
    decreases |a|
  {
    if |a| == 0 || |b| == 0 {
      forall k ensures !FirstLessAt(a, b, k) {}
    } else if a[0] != b[0] {
      if a[0] < b[0] {
        assert FirstLessAt(a, b, 0);
      } else {
        forall k | 0 < k <= Min(|a|, |b|) ensures a[..k] != b[..k] {
          assert a[..k][0] != b[..k][0];
        }
        forall k ensures !FirstLessAt(a, b, k) {}
      }
    } else {
      ZipCompareLessMeaning(a[1..], b[1..]);
      if ZipCompare(a, b) == Less {
        var k' :| FirstLessAt(a[1..], b[1..], k');
        assert a[..k' + 1] == [a[0]] + a[1..][..k'];
        assert b[..k' + 1] == [b[0]] + b[1..][..k'];
        assert FirstLessAt(a, b, k' + 1);
      }
      if exists k :: FirstLessAt(a, b, k) {
        var k :| FirstLessAt(a, b, k);
        assert k > 0;
        assert a[1..][..k - 1] == a[..k][1..];
        assert b[1..][..k - 1] == b[..k][1..];
        assert FirstLessAt(a[1..], b[1..], k - 1);
      }
    }
  }

  lemma {:induction false} ZipCompareReverse(a: seq<int>, b: seq<int>)
    ensures ZipCompare(b, a) == ZipCompare(a, b).Reverse()
    decreases |a|
  {
    if |a| != 0 && |b| != 0 && a[0] == b[0] {
      ZipCompareReverse(a[1..], b[1..]);
    }
  }

  /** On sequences of one length ZipCompare is a total order: Equal only
      for equal sequences, and transitive. */
  lemma {:induction false} ZipCompareEqualLength(a: seq<int>, b: seq<int>, c: seq<int>)
    requires |a| == |b| == |c|
    ensures ZipCompare(a, b) == Equal <==> a == b
    ensures ZipCompare(a, b) != Greater && ZipCompare(b, c) != Greater ==> ZipCompare(a, c) != Greater
    decreases |a|
  {
    if |a| != 0 {
      ZipCompareEqualLength(a[1..], b[1..], c[1..]);
      if a[0] == b[0] {
        assert a == [a[0]] + a[1..] && b == [b[0]] + b[1..];
        if a[1..] == b[1..] {
          assert a == b;
        }
      }
    }
  }

  /** Across lengths the zipped comparison is not transitive: a shorter
      sequence that is a prefix of two others is Equal to both while they
      differ. */
  lemma ZipCompareNotTransitive()
    ensures ZipCompare([3, 2], [3]) == Equal
    ensures ZipCompare([3], [3, 4]) == Equal
    ensures ZipCompare([3, 2], [3, 4]) == Less
  {
    assert [3, 2][1..] == [2];
    assert [3, 4][1..] == [4];
    assert [3][1..] == [];
  }

  /** The loop of `Hand::cmp` (for over `zip` with an early return). */
  method CompareZipped(a: seq<int>, b: seq<int>) returns (o: Ordering)
    ensures o == ZipCompare(a, b)
  {
    var i := 0;
    while i < |a| && i < |b|
      invariant 0 <= i <= |a| && i <= |b|
      invariant ZipCompare(a, b) == ZipCompare(a[i..], b[i..])
    {
      assert a[i..][1..] == a[i + 1..];
      assert b[i..][1..] == b[i + 1..];
      if a[i] != b[i] {
        return CompareInt(a[i], b[i]);
      }
      i := i + 1;
    }
    return Equal;
  }

  lemma {:induction false} LexCompareReverse(a: seq<int>, b: seq<int>)
    ensures LexCompare(b, a) == LexCompare(a, b).Reverse()
    decreases |a|
  {
    if |a| != 0 && |b| != 0 && a[0] == b[0] {
      LexCompareReverse(a[1..], b[1..]);
    }
  }

  /** `Vec::cmp` is Equal only on equal sequences. */
  lemma {:induction false} LexCompareEqual(a: seq<int>, b: seq<int>)
    ensures LexCompare(a, b) == Equal <==> a == b
    decreases |a|
  {
    if |a| != 0 && |b| != 0 && a[0] == b[0] {
      LexCompareEqual(a[1..], b[1..]);
      assert a == [a[0]] + a[1..] && b == [b[0]] + b[1..];
    }
  }

  /** `Vec::cmp` is transitive. */
  lemma {:induction false} LexCompareTransitive(a: seq<int>, b: seq<int>, c: seq<int>)
    requires LexCompare(a, b) != Greater && LexCompare(b, c) != Greater
    ensures LexCompare(a, c) != Greater
    decreases |a|
  {
    if |a| != 0 && |b| != 0 && |c| != 0 && a[0] == b[0] && b[0] == c[0] {
      LexCompareTransitive(a[1..], b[1..], c[1..]);
    }
  }

  // ---------------------------------------------------------------------
  // The stable sort behind `sort_by` and `sorted_by`

  /** `cmp` orders the elements of `xs` consistently: swapping the
      arguments reverses the answer and "not greater" is transitive. */
  ghost predicate TotalPreorderOn<T(!new)>(xs: set<T>, cmp: (T, T) -> Ordering) {
    && (forall x, y | x in xs && y in xs :: cmp(y, x) == cmp(x, y).Reverse())
    && (forall x, y, z | x in xs && y in xs && z in xs ::
          cmp(x, y) != Greater && cmp(y, z) != Greater ==> cmp(x, z) != Greater)
  }

  /** Moreover no two distinct elements compare Equal. */
  ghost predicate TotalOrderOn<T(!new)>(xs: set<T>, cmp: (T, T) -> Ordering) {
    && TotalPreorderOn(xs, cmp)
    && (forall x, y | x in xs && y in xs :: cmp(x, y) == Equal ==> x == y)
  }

  /** `Ord::cmp` on integers is a total order. */
  lemma CompareIntTotal(xs: set<int>)
    ensures TotalOrderOn(xs, CompareInt)
  {
  }

  ghost predicate SortedBy<T>(s: seq<T>, cmp: (T, T) -> Ordering) {
    forall i, j | 0 <= i < j < |s| :: cmp(s[i], s[j]) != Greater
  }

  function Elements<T>(s: seq<T>): set<T> {
    set x | x in s
  }

  /** Inserts `x` after every element that is not greater than it, which
      keeps equal elements in their original order. */
  function Insert<T>(x: T, s: seq<T>, cmp: (T, T) -> Ordering): (r: seq<T>)
    ensures multiset(r) == multiset(s) + multiset{x}
    ensures |r| == |s| + 1
  {
    if |s| == 0 then [x]
    else if cmp(s[0], x) == Greater then [x] + s
    else
      assert s == [s[0]] + s[1..];
      [s[0]] + Insert(x, s[1..], cmp)
  }

  /** A stable insertion sort: the order `sort_by` produces for a
      consistent comparator. */
  function SortBy<T>(s: seq<T>, cmp: (T, T) -> Ordering): (r: seq<T>)
    ensures multiset(r) == multiset(s)
    ensures |r| == |s|
  {
    if |s| == 0 then []
    else
      assert s == s[..|s| - 1] + [s[|s| - 1]];
      Insert(s[|s| - 1], SortBy(s[..|s| - 1], cmp), cmp)
  }

  lemma {:induction false} InsertSorted<T(!new)>(x: T, s: seq<T>, cmp: (T, T) -> Ordering)
    requires SortedBy(s, cmp)
    requires TotalPreorderOn(Elements(s) + {x}, cmp)
    ensures SortedBy(Insert(x, s, cmp), cmp)
    decreases |s|
  {
    if |s| != 0 && cmp(s[0], x) != Greater {
      var t := s[1..];
      assert Elements(t) + {x} <= Elements(s) + {x};
      InsertSorted(x, t, cmp);
      var r := Insert(x, s, cmp);
      var rt := Insert(x, t, cmp);
      assert r == [s[0]] + rt;
      forall j | 0 < j < |r|
        ensures cmp(s[0], r[j]) != Greater
      {
        assert r[j] in multiset(rt);
        assert r[j] in multiset(t) + multiset{x};
        if r[j] != x {
          assert r[j] in t;
          var k :| 0 <= k < |t| && t[k] == r[j];
          assert s[k + 1] == r[j];
        }
      }
    }
  }

  /** With a comparator consistent on its elements, SortBy yields a sorted
      permutation. */
  lemma {:induction false} SortBySorted<T(!new)>(s: seq<T>, cmp: (T, T) -> Ordering)
    requires TotalPreorderOn(Elements(s), cmp)
    ensures SortedBy(SortBy(s, cmp), cmp)
    ensures multiset(SortBy(s, cmp)) == multiset(s)
    decreases |s|
  {
    if |s| != 0 {
      var init, last := s[..|s| - 1], s[|s| - 1];
      assert s == init + [last];
      PreorderSubset(Elements(init), Elements(s), cmp);
      SortBySorted(init, cmp);
      var sorted := SortBy(init, cmp);
      SameElements(sorted, init);
      assert Elements(sorted) + {last} == Elements(s);
      InsertSorted(last, sorted, cmp);
    }
  }

  lemma SameElements<T>(a: seq<T>, b: seq<T>)
    requires multiset(a) == multiset(b)
    ensures Elements(a) == Elements(b)
  {
    forall y
      ensures y in a <==> y in b
    {
      assert y in a <==> y in multiset(a);
      assert y in b <==> y in multiset(b);
    }
  }

  lemma PreorderSubset<T(!new)>(xs: set<T>, ys: set<T>, cmp: (T, T) -> Ordering)
    requires xs <= ys && TotalPreorderOn(ys, cmp)
    ensures TotalPreorderOn(xs, cmp)
  {
  }

  lemma OrderSubset<T(!new)>(xs: set<T>, ys: set<T>, cmp: (T, T) -> Ordering)
    requires xs <= ys && TotalOrderOn(ys, cmp)
    ensures TotalOrderOn(xs, cmp)
  {
  }

  /** Under a comparator that is a total order on the elements, there is
      only one sorted arrangement of a multiset. */
  lemma {:induction false} SortedUnique<T(!new)>(a: seq<T>, b: seq<T>, cmp: (T, T) -> Ordering)
    requires multiset(a) == multiset(b)
    requires SortedBy(a, cmp) && SortedBy(b, cmp)
    requires TotalOrderOn(Elements(a), cmp)
    ensures a == b
    decreases |a|
  {
    assert |a| == |multiset(a)| == |b|;
    if |a| != 0 {
      SortedHeadsEqual(a, b, cmp);
      var ta, tb := a[1..], b[1..];
      assert SortedBy(ta, cmp) && SortedBy(tb, cmp) && multiset(ta) == multiset(tb) by {
        SortedTail(a, cmp);
        SortedTail(b, cmp);
      }
      assert TotalOrderOn(Elements(ta), cmp) by {
        SortedTail(a, cmp);
        OrderSubset(Elements(ta), Elements(a), cmp);
      }
      SortedUnique(ta, tb, cmp);
      assert forall i | 0 < i < |a| :: a[i] == ta[i - 1] && b[i] == tb[i - 1];
    }
  }

  /** Without its head a sorted sequence is still sorted, and holds the
      other elements. */
  lemma SortedTail<T>(a: seq<T>, cmp: (T, T) -> Ordering)
    requires |a| != 0 && SortedBy(a, cmp)
    ensures SortedBy(a[1..], cmp)
    ensures multiset(a[1..]) == multiset(a) - multiset{a[0]}
    ensures Elements(a[1..]) <= Elements(a)
  {
    assert a == [a[0]] + a[1..];
  }

  lemma SortedHeadsEqual<T(!new)>(a: seq<T>, b: seq<T>, cmp: (T, T) -> Ordering)
    requires |a| != 0 && multiset(a) == multiset(b)
    requires SortedBy(a, cmp) && SortedBy(b, cmp)
    requires TotalOrderOn(Elements(a), cmp)
    ensures |b| != 0 && a[0] == b[0]
  {
    assert a[0] in multiset(b);
    var m :| 0 <= m < |b| && b[m] == a[0];
    assert b[0] in multiset(a);
    var k :| 0 <= k < |a| && a[k] == b[0];
    var x, y := a[0], b[0];
    assert x in Elements(a) && y in Elements(a);
    assert cmp(x, y) != Greater by {
      if k != 0 {
        assert cmp(a[0], a[k]) != Greater;
      }
    }
    assert cmp(y, x) != Greater by {
      if m != 0 {
        assert cmp(b[0], b[m]) != Greater;
      }
    }
    assert cmp(y, x) == cmp(x, y).Reverse();
  }

  function Reversed<T>(s: seq<T>): (r: seq<T>)
    ensures |r| == |s|
    ensures forall k | 0 <= k < |s| :: r[k] == s[|s| - 1 - k]
  {
    if |s| == 0 then [] else Reversed(s[1..]) + [s[0]]
  }

  /** Reversing an ascending arrangement gives a descending one, with the
      same elements, and reversing twice gives the original back. */
  lemma ReversedDescending<T(!new)>(s: seq<T>, cmp: (T, T) -> Ordering)
    requires SortedBy(s, cmp)
    ensures forall i, j | 0 <= i < j < |s| :: cmp(Reversed(s)[j], Reversed(s)[i]) != Greater
    ensures multiset(Reversed(s)) == multiset(s)
    ensures Reversed(Reversed(s)) == s
  {
    var r := Reversed(s);
    forall i, j | 0 <= i < j < |s|
      ensures cmp(r[j], r[i]) != Greater
    {
      assert r[j] == s[|s| - 1 - j] && r[i] == s[|s| - 1 - i];
    }
    ReversedMultiset(s);
  }

  /** Sorting integers ascending and reversing the result lists them from
      the largest down. */
  lemma SortedDescending(s: seq<int>)
    ensures multiset(Reversed(SortBy(s, CompareInt))) == multiset(s)
    ensures forall i, j | 0 <= i < j < |s| ::
      Reversed(SortBy(s, CompareInt))[i] >= Reversed(SortBy(s, CompareInt))[j]
  {
    var sorted := SortBy(s, CompareInt);
    assert SortedBy(sorted, CompareInt) by {
      CompareIntTotal(Elements(s));
      SortBySorted(s, CompareInt);
    }
    ReversedDescending(sorted, CompareInt);
    var r := Reversed(sorted);
    forall i, j | 0 <= i < j < |r| ensures r[i] >= r[j] {
      assert CompareInt(r[j], r[i]) != Greater;
    }
  }

  lemma {:induction false} ReversedMultiset<T>(s: seq<T>)
    ensures multiset(Reversed(s)) == multiset(s)
  {
    if |s| != 0 {
      ReversedMultiset(s[1..]);
      assert s == [s[0]] + s[1..];
    }
  }

  // ---------------------------------------------------------------------
  // Mapping and enumerating

  /** `iter().map(f).collect()`. */
  function Project<A, B>(s: seq<A>, f: A -> B): (r: seq<B>)
    ensures |r| == |s|
    ensures forall i | 0 <= i < |s| :: r[i] == f(s[i])
  {
    seq(|s|, i requires 0 <= i < |s| => f(s[i]))
  }

  lemma ProjectConcat<A, B>(a: seq<A>, b: seq<A>, f: A -> B)
    ensures Project(a + b, f) == Project(a, f) + Project(b, f)
  {
  }

  /** Mapping two rearrangements of the same elements gives two
      rearrangements of the same images. */
  lemma {:induction false} ProjectMultiset<A, B>(a: seq<A>, b: seq<A>, f: A -> B)
    requires multiset(a) == multiset(b)
    ensures multiset(Project(a, f)) == multiset(Project(b, f))
    decreases |a|
  {
    assert |a| == |multiset(a)| == |b|;
    if |a| != 0 {
      var x := a[0];
      assert x in multiset(b);
      var k :| 0 <= k < |b| && b[k] == x;
      var front, back := b[..k], b[k + 1..];
      assert b == front + [x] + back;
      assert a == [x] + a[1..];
      assert multiset(a[1..]) == multiset(front + back) by {
        assert multiset(a[1..]) == multiset(a) - multiset{x};
        assert multiset(front + back) == multiset(b) - multiset{x} by {
          assert multiset(b) == multiset(front + [x]) + multiset(back);
          assert multiset(front + [x]) == multiset(front) + multiset{x};
          assert multiset(front + back) == multiset(front) + multiset(back);
        }
      }
      ProjectMultiset(a[1..], front + back, f);
      ProjectHead(a, f);
      ProjectMiddle(front, x, back, f);
    }
  }

  lemma ProjectHead<A, B>(a: seq<A>, f: A -> B)
    requires |a| != 0
    ensures multiset(Project(a, f)) == multiset{f(a[0])} + multiset(Project(a[1..], f))
  {
    var p, t := Project(a, f), Project(a[1..], f);
    assert p == [f(a[0])] + t;
  }

  lemma ProjectMiddle<A, B>(front: seq<A>, x: A, back: seq<A>, f: A -> B)
    ensures multiset(Project(front + [x] + back, f)) == multiset{f(x)} + multiset(Project(front + back, f))
  {
    var p, pf, pk := Project(front + [x] + back, f), Project(front, f), Project(back, f);
    assert p == pf + [f(x)] + pk;
    assert Project(front + back, f) == pf + pk;
  }

  /** `order` lists every element of `keys` exactly once: one iteration
      order of a hash map's keys. */
  ghost predicate Enumerates<K(!new)>(order: seq<K>, keys: set<K>) {
    && (forall i, j | 0 <= i < j < |order| :: order[i] != order[j])
    && (forall k :: k in order <==> k in keys)
  }

  /** In a sequence without repetitions every element occurs once. */
  lemma {:induction false} DistinctOnce<K>(a: seq<K>, y: K)
    requires forall i, j | 0 <= i < j < |a| :: a[i] != a[j]
    ensures multiset(a)[y] == if y in a then 1 else 0
    decreases |a|
  {
    if |a| != 0 {
      var init := a[..|a| - 1];
      DistinctOnce(init, y);
      assert a == init + [a[|a| - 1]];
    }
  }

  /** An enumeration is as long as the set of keys it lists. */
  lemma {:induction false} EnumerationLength<K(!new)>(order: seq<K>, keys: set<K>)
    requires Enumerates(order, keys)
    ensures |order| == |keys|
    decreases |order|
  {
    if |order| != 0 {
      var init, last := order[..|order| - 1], order[|order| - 1];
      assert order == init + [last];
      DistinctLast(order);
      EnumerationLength(init, keys - {last});
    }
  }

  /** The last element of a sequence without repetitions is not among the
      others. */
  lemma DistinctLast<K>(order: seq<K>)
    requires |order| > 0
    requires forall i, j | 0 <= i < j < |order| :: order[i] != order[j]
    ensures order[|order| - 1] !in order[..|order| - 1]
  {
    var init := order[..|order| - 1];
    forall i | 0 <= i < |init| ensures init[i] != order[|order| - 1] {
      assert order[i] != order[|order| - 1];
    }
  }

  /** Two enumerations of the same keys are rearrangements of each other. */
  lemma EnumerationsAgree<K(!new)>(a: seq<K>, b: seq<K>, keys: set<K>)
    requires Enumerates(a, keys) && Enumerates(b, keys)
    ensures multiset(a) == multiset(b)
  {
    forall y ensures multiset(a)[y] == multiset(b)[y] {
      DistinctOnce(a, y);
      DistinctOnce(b, y);
    }
  }

  /** The sum of a sequence of integers; one of naturals is a natural. */
  function Sum(xs: seq<int>): (r: int)
    ensures (forall i | 0 <= i < |xs| :: xs[i] >= 0) ==> r >= 0
  {
    if |xs| == 0 then 0 else Sum(xs[..|xs| - 1]) + xs[|xs| - 1]
  }

  lemma {:induction false} SumConcat(a: seq<int>, b: seq<int>)
    ensures Sum(a + b) == Sum(a) + Sum(b)
    decreases |b|
  {
    if |b| != 0 {
      var init := b[..|b| - 1];
      SumConcat(a, init);
      assert (a + b)[..|a + b| - 1] == a + init;
    } else {
      assert a + b == a;
    }
  }

  /** Rearranging a sequence keeps its sum. */
  lemma {:induction false} SumPermutation(a: seq<int>, b: seq<int>)
    requires multiset(a) == multiset(b)
    ensures Sum(a) == Sum(b)
    decreases |a|
  {
    assert |a| == |multiset(a)| == |b|;
    if |a| != 0 {
      var init, x := a[..|a| - 1], a[|a| - 1];
      assert a == init + [x];
      assert x in multiset(b);
      var k :| 0 <= k < |b| && b[k] == x;
      var front, back := b[..k], b[k + 1..];
      assert b == front + [x] + back;
      RemoveOne(init, x, front, back);
      SumPermutation(init, front + back);
      SumRemove(front, x, back);
    }
  }

  lemma RemoveOne<T>(init: seq<T>, x: T, front: seq<T>, back: seq<T>)
    requires multiset(init + [x]) == multiset(front + [x] + back)
    ensures multiset(init) == multiset(front + back)
  {
    assert multiset(init + [x]) == multiset(init) + multiset{x};
    assert multiset(front + [x] + back) == multiset(front) + multiset{x} + multiset(back);
    assert multiset(front + back) == multiset(front) + multiset(back);
    assert multiset(init) == multiset(init + [x]) - multiset{x};
    assert multiset(front + back) == multiset(front + [x] + back) - multiset{x};
  }

  lemma SumRemove(front: seq<int>, x: int, back: seq<int>)
    ensures Sum(front + [x] + back) == Sum(front + back) + x
  {
    SumConcat(front, back);
    SumConcat(front + [x], back);
    SumConcat(front, [x]);
    assert [x][..0] == [];
  }

  // ---------------------------------------------------------------------
  // Winnings

  /** The fold `acc + wager * (i + 1)` over the hands in ascending order:
      the weakest hand has rank 1. */
  function Winnings<K>(ranked: seq<K>, wager: map<K, nat>): nat
    requires forall h | h in ranked :: h in wager
  {
    if |ranked| == 0 then 0
    else Winnings(ranked[..|ranked| - 1], wager) + wager[ranked[|ranked| - 1]] * |ranked|
  }

  /** 1 + 2 + ... + n. */
  function Triangle(n: nat): nat {
    if n == 0 then 0 else Triangle(n - 1) + n
  }

  /** The winnings never exceed the largest wager times 1 + 2 + ... + n;
      with wagers and ranks held in `u32`, this is the bound that decides
      whether the fold can overflow. */
  lemma {:induction false} WinningsBound<K>(ranked: seq<K>, wager: map<K, nat>, most: nat)
    requires forall h | h in ranked :: h in wager && wager[h] <= most
    ensures Winnings(ranked, wager) <= most * Triangle(|ranked|)
    decreases |ranked|
  {
    var n := |ranked|;
    if n != 0 {
      WinningsBound(ranked[..n - 1], wager, most);
      var w := wager[ranked[n - 1]];
      assert ranked[n - 1] in ranked;
      MulMonotone(w, most, n);
      assert most * Triangle(n) == most * Triangle(n - 1) + most * n by {
        MulDistributes(most, Triangle(n - 1), n);
      }
    }
  }

  lemma MulMonotone(a: nat, b: nat, c: nat)
    requires a <= b
    ensures a * c <= b * c
  {
  }

  lemma MulDistributes(a: nat, b: nat, c: nat)
    ensures a * (b + c) == a * b + a * c
  {
  }

  /** The winnings of five ranked hands, written out. */
  lemma WinningsFive<K>(a: K, b: K, c: K, d: K, e: K, wager: map<K, nat>)
    requires a in wager && b in wager && c in wager && d in wager && e in wager
    ensures Winnings([a, b, c, d, e], wager)
      == wager[a] + wager[b] * 2 + wager[c] * 3 + wager[d] * 4 + wager[e] * 5
  {
    assert [a][..0] == [];
    assert Winnings([a], wager) == wager[a];
    assert [a, b][..1] == [a];
    assert Winnings([a, b], wager) == wager[a] + wager[b] * 2;
    assert [a, b, c][..2] == [a, b];
    assert Winnings([a, b, c], wager) == wager[a] + wager[b] * 2 + wager[c] * 3;
    assert [a, b, c, d][..3] == [a, b, c];
    assert Winnings([a, b, c, d], wager) == wager[a] + wager[b] * 2 + wager[c] * 3 + wager[d] * 4;
    assert [a, b, c, d, e][..4] == [a, b, c, d];
  }
}
