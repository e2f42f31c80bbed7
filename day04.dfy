/**
 * Scratchcards (day-04/src/main.rs): each card lists winning numbers and the
 * numbers one has; matches score points (part 1) and win copies of the
 * following cards (part 2). Cards are taken as already parsed.
 */
module Scratchcards {
  import opened Common

  /** A card: how many instances one holds, its winning numbers and the
      numbers one has. */
  datatype Card = Card(instances: nat, winning: seq<nat>, actual: seq<nat>)

  /** A parsed card starts with one instance. */
  function NewCard(winning: seq<nat>, actual: seq<nat>): (c: Card)
    ensures c.instances == 1 && c.winning == winning && c.actual == actual
  {
    Card(1, winning, actual)
  }

  // ------------------------------------------------------------- matches

  /** The numbers of actual[i..] that are winning numbers, in order. */
  function MatchesFrom(winning: seq<nat>, actual: seq<nat>, i: nat): seq<nat>
    decreases |actual| - i
  {
    if i >= |actual| then []
    else (if actual[i] in winning then [actual[i]] else []) + MatchesFrom(winning, actual, i + 1)
  }

  /** `get_matches`: the numbers one has that are among the winning ones. */
  function Matches(card: Card): seq<nat>
  {
    MatchesFrom(card.winning, card.actual, 0)
  }

  /** Every match is a winning number, and each number occurs among the
      matches exactly as often as among the numbers one has when it is a
      winning number, and not at all otherwise. */
  lemma {:induction false} MatchesFromCount(winning: seq<nat>, actual: seq<nat>, i: nat)
    requires i <= |actual|
    ensures |MatchesFrom(winning, actual, i)| <= |actual| - i
    ensures forall v ::
      multiset(MatchesFrom(winning, actual, i))[v] == (if v in winning then multiset(actual[i..])[v] else 0)
    decreases |actual| - i
  {
    if i < |actual| {
      MatchesFromCount(winning, actual, i + 1);
      var head: seq<nat> := if actual[i] in winning then [actual[i]] else [];
      var rest := MatchesFrom(winning, actual, i + 1);
      assert MatchesFrom(winning, actual, i) == head + rest;
      assert multiset(head + rest) == multiset(head) + multiset(rest);
      assert actual[i..] == [actual[i]] + actual[i + 1..];
      assert multiset(actual[i..]) == multiset([actual[i]]) + multiset(actual[i + 1..]);
    } else {
      assert actual[i..] == [];
    }
  }

  lemma {:induction false} MatchesCount(card: Card)
    ensures |Matches(card)| <= |card.actual|
    ensures forall v :: multiset(Matches(card))[v] == (if v in card.winning then multiset(card.actual)[v] else 0)
  {
    MatchesFromCount(card.winning, card.actual, 0);
    assert card.actual[0..] == card.actual;
  }

  /** The matches of concatenated lists are the concatenated matches: the
      filter keeps the order of the numbers one has. */
  lemma {:induction false} MatchesFromAppend(winning: seq<nat>, a: seq<nat>, b: seq<nat>, i: nat)
    requires i <= |a|
    ensures MatchesFrom(winning, a + b, i) == MatchesFrom(winning, a, i) + MatchesFrom(winning, b, 0)
    decreases |a| - i
  {
    if i < |a| {
      MatchesFromAppend(winning, a, b, i + 1);
      assert (a + b)[i] == a[i];
    } else {
      MatchesFromShift(winning, a, b, 0);
    }
  }

  lemma {:induction false} MatchesFromShift(winning: seq<nat>, a: seq<nat>, b: seq<nat>, j: nat)
    requires j <= |b|
    ensures MatchesFrom(winning, a + b, |a| + j) == MatchesFrom(winning, b, j)
    decreases |b| - j
  {
    var ab := a + b;
    if j < |b| {
      assert ab[|a| + j] == b[j];
      var head: seq<nat> := if b[j] in winning then [b[j]] else [];
      assert MatchesFrom(winning, ab, |a| + j) == head + MatchesFrom(winning, ab, |a| + j + 1);
      assert MatchesFrom(winning, b, j) == head + MatchesFrom(winning, b, j + 1);
      MatchesFromShift(winning, a, b, j + 1);
    } else {
      assert |a| + j >= |ab|;
    }
  }

  // --------------------------------------------------------------- points

  /** The fold of `get_value`: the first match sets the score to 1, each
      further one doubles it. */
  function Score(k: nat): (s: nat)
    ensures s == 0 <==> k == 0
  {
    if k == 0 then 0 else if Score(k - 1) == 0 then 1 else 2 * Score(k - 1)
  }

  function Value(card: Card): nat
  {
    Score(|Matches(card)|)
  }

  /** The score is 0 without matches and 2^(k-1) with k matches. */
  lemma {:induction false} ScoreIsPower(k: nat)
    ensures Score(k) == if k == 0 then 0 else Pow(2, k - 1)
  {
    if k > 1 {
      ScoreIsPower(k - 1);
      PowPositive(2, k - 2);
    }
  }

  /** `task_1`: the sum of the card values. No card is worth more than the
      sum, and the sum is 0 exactly when no card has a match. */
  function Task1(cards: seq<Card>): (r: nat)
    ensures forall m | 0 <= m < |cards| :: Value(cards[m]) <= r
    ensures r == 0 <==> forall m | 0 <= m < |cards| :: |Matches(cards[m])| == 0
  {
    if cards == [] then 0 else Task1(cards[..|cards| - 1]) + Value(cards[|cards| - 1])
  }

  // ------------------------------------------------------------- copies

  /** Card i with k matches adds its instance count to cards i+1..i+k; a
      target past the last card is an error. */
  function Win(counts: seq<nat>, i: nat, k: nat): Option<seq<nat>>
    requires i < |counts|
  {
    if i + k < |counts| then
      Some(seq(|counts|, m requires 0 <= m < |counts| => if i < m <= i + k then counts[m] + counts[i] else counts[m]))
    else None
  }

  /** The instance counts of the cards as dealt. */
  function Initial(cards: seq<Card>): (counts: seq<nat>)
    ensures |counts| == |cards|
  {
    seq(|cards|, m requires 0 <= m < |cards| => cards[m].instances)
  }

  /** The counts after processing cards 0..n-1, or None once a copy target
      lies past the last card. */
  function Cascade(cards: seq<Card>, n: nat): (r: Option<seq<nat>>)
    requires n <= |cards|
    ensures r.Some? ==> |r.value| == |cards|
  {
    if n == 0 then Some(Initial(cards))
    else match Cascade(cards, n - 1)
      case None => None
      case Some(counts) => Win(counts, n - 1, |Matches(cards[n - 1])|)
  }

  /** Part 2's answer: the total number of instances, or None on error,
      which happens exactly when some card's copy target lies past the last
      card. */
  function Task2(cards: seq<Card>): (r: Option<int>)
    ensures r.None? <==> exists i | 0 <= i < |cards| :: i + |Matches(cards[i])| >= |cards|
  {
    CascadeFails(cards, |cards|);
    match Cascade(cards, |cards|)
    case None => None
    case Some(counts) => Some(Sum(counts))
  }

  /** A win adds the winner's count once for each of its k matches. */
  lemma {:induction false} WinSum(counts: seq<nat>, i: nat, k: nat)
    requires i + k < |counts|
    ensures Sum(Win(counts, i, k).value) == Sum(counts) + k * counts[i]
  {
    var after := Win(counts, i, k).value;
    SumDiff(counts, after, i, k, |counts|);
    assert after[..|after|] == after && counts[..|counts|] == counts;
  }

  lemma {:induction false} SumDiff(counts: seq<nat>, after: seq<nat>, i: nat, k: nat, n: nat)
    requires |after| == |counts| && i + k < |counts| && n <= |counts|
    requires forall m | 0 <= m < |counts| :: after[m] == if i < m <= i + k then counts[m] + counts[i] else counts[m]
    ensures Sum(after[..n]) == Sum(counts[..n]) + (Min(n, i + k + 1) - Min(n, i + 1)) * counts[i]
  {
    if n > 0 {
      SumDiff(counts, after, i, k, n - 1);
      assert after[..n][..n - 1] == after[..n - 1];
      assert counts[..n][..n - 1] == counts[..n - 1];
    }
    if n == |counts| {
      assert after[..n] == after && counts[..n] == counts;
    }
  }

  /** The cascade fails exactly when some card among the first n has a
      copy target past the last card. */
  lemma {:induction false} CascadeFails(cards: seq<Card>, n: nat)
    requires n <= |cards|
    ensures Cascade(cards, n).None? <==> exists i | 0 <= i < n :: i + |Matches(cards[i])| >= |cards|
  {
    if n > 0 {
      CascadeFails(cards, n - 1);
    }
  }

  /** Processing a card changes only later cards, and only upwards: once
      the loop reaches card n, its count and those before it are final. */
  lemma {:induction false} CascadeFinal(cards: seq<Card>, n: nat, n': nat)
    requires n <= n' <= |cards| && Cascade(cards, n').Some?
    ensures Cascade(cards, n).Some?
    ensures forall m | 0 <= m < |cards| :: Cascade(cards, n').value[m] >= Cascade(cards, n).value[m]
    ensures forall m | 0 <= m <= n && m < |cards| :: Cascade(cards, n').value[m] == Cascade(cards, n).value[m]
    decreases n' - n
  {
    if n < n' {
      CascadeFinal(cards, n, n' - 1);
    }
  }

  /** When every card starts with at least one instance, the total is at
      least the number of cards. */
  lemma {:induction false} AtLeastOnePerCard(cards: seq<Card>)
    requires forall m | 0 <= m < |cards| :: cards[m].instances >= 1
    requires Task2(cards).Some?
    ensures Task2(cards).value >= |cards|
  {
    var counts := Cascade(cards, |cards|).value;
    CascadeFinal(cards, 0, |cards|);
    SumAtLeast(counts);
  }

  lemma {:induction false} SumAtLeast(xs: seq<nat>)
    requires forall m | 0 <= m < |xs| :: xs[m] >= 1
    ensures Sum(xs) >= |xs|
  {
    if xs != [] {
      SumAtLeast(xs[..|xs| - 1]);
    }
  }

  /** The nested loops of `task_2` over a mutable vector of counts. */
  method Copies(cards: seq<Card>) returns (r: Option<int>)
    ensures r == Task2(cards)
  {
    var counts := new nat[|cards|](m requires 0 <= m < |cards| reads {} => cards[m].instances);
    assert counts[..] == Initial(cards);
    for i := 0 to |cards|
      invariant Cascade(cards, i) == Some(counts[..])
    {
      var k := |Matches(cards[i])|;
      ghost var before := counts[..];
      for j := 1 to k + 1
        invariant counts.Length == |before| && i + j - 1 < counts.Length
        invariant forall m | 0 <= m < |before| ::
          counts[m] == if i < m < i + j then before[m] + before[i] else before[m]
      {
        var cardInstances := counts[i];
        if i + j >= counts.Length {
          CascadeStepFails(cards, i, before);
          return None;
        }
        counts[i + j] := counts[i + j] + cardInstances;
      }
      assert counts[..] == Win(before, i, k).value;
    }
    assert Cascade(cards, |cards|) == Some(counts[..]);
    r := Some(Sum(counts[..]));
  }

  lemma {:induction false} CascadeStepFails(cards: seq<Card>, i: nat, before: seq<nat>)
    requires i < |cards| && Cascade(cards, i) == Some(before)
    requires i + |Matches(cards[i])| >= |cards|
    ensures Task2(cards) == None
  {
    CascadeFails(cards, |cards|);
  }

  // ------------------------------------------------------ worked example

  function ExampleCards(): seq<Card>
  {
    [ NewCard([41, 48, 83, 86, 17], [83, 86, 6, 31, 17, 9, 48, 53]),
      NewCard([13, 32, 20, 16, 61], [61, 30, 68, 82, 17, 32, 24, 19]),
      NewCard([1, 21, 53, 59, 44], [69, 82, 63, 72, 16, 21, 14, 1]),
      NewCard([41, 92, 73, 84, 69], [59, 84, 76, 51, 58, 5, 54, 83]),
      NewCard([87, 83, 26, 28, 32], [88, 30, 70, 12, 93, 22, 82, 36]),
      NewCard([31, 18, 13, 56, 72], [74, 77, 10, 23, 35, 67, 36, 11]) ]
  }

  lemma {:induction false} CountMatches1()
    ensures |MatchesFrom([41, 48, 83, 86, 17], [83, 86, 6, 31, 17, 9, 48, 53], 0)| == 4
  {
  }

  lemma {:induction false} MatchesOfCard1(cards: seq<Card>)
    requires cards == ExampleCards()
    ensures |Matches(cards[0])| == 4
  {
    CountMatches1();
  }

  lemma {:induction false} CountMatches2()
    ensures |MatchesFrom([13, 32, 20, 16, 61], [61, 30, 68, 82, 17, 32, 24, 19], 0)| == 2
  {
  }

  lemma {:induction false} MatchesOfCard2(cards: seq<Card>)
    requires cards == ExampleCards()
    ensures |Matches(cards[1])| == 2
  {
    CountMatches2();
  }

  lemma {:induction false} CountMatches3()
    ensures |MatchesFrom([1, 21, 53, 59, 44], [69, 82, 63, 72, 16, 21, 14, 1], 0)| == 2
  {
  }

  lemma {:induction false} MatchesOfCard3(cards: seq<Card>)
    requires cards == ExampleCards()
    ensures |Matches(cards[2])| == 2
  {
    CountMatches3();
  }

  lemma {:induction false} CountMatches4()
    ensures |MatchesFrom([41, 92, 73, 84, 69], [59, 84, 76, 51, 58, 5, 54, 83], 0)| == 1
  {
  }

  lemma {:induction false} MatchesOfCard4(cards: seq<Card>)
    requires cards == ExampleCards()
    ensures |Matches(cards[3])| == 1
  {
    CountMatches4();
  }

  lemma {:induction false} CountMatches5()
    ensures |MatchesFrom([87, 83, 26, 28, 32], [88, 30, 70, 12, 93, 22, 82, 36], 0)| == 0
  {
  }

  lemma {:induction false} MatchesOfCard5(cards: seq<Card>)
    requires cards == ExampleCards()
    ensures |Matches(cards[4])| == 0
  {
    CountMatches5();
  }

  lemma {:induction false} CountMatches6()
    ensures |MatchesFrom([31, 18, 13, 56, 72], [74, 77, 10, 23, 35, 67, 36, 11], 0)| == 0
  {
  }

  lemma {:induction false} MatchesOfCard6(cards: seq<Card>)
    requires cards == ExampleCards()
    ensures |Matches(cards[5])| == 0
  {
    CountMatches6();
  }

  /** Every example card starts with one instance. */
  lemma {:induction false} ExampleInstances(cards: seq<Card>)
    requires cards == ExampleCards()
    ensures |cards| == 6 && forall m | 0 <= m < 6 :: cards[m].instances == 1
  {
  }

  /** The example cards have 4, 2, 2, 1, 0 and 0 matches. */
  lemma {:induction false} ExampleMatches(cards: seq<Card>)
    requires cards == ExampleCards()
    ensures |Matches(cards[0])| == 4 && |Matches(cards[1])| == 2 && |Matches(cards[2])| == 2 && |Matches(cards[3])| == 1 && |Matches(cards[4])| == 0 && |Matches(cards[5])| == 0
  {
    MatchesOfCard1(cards);
    MatchesOfCard2(cards);
    MatchesOfCard3(cards);
    MatchesOfCard4(cards);
    MatchesOfCard5(cards);
    MatchesOfCard6(cards);
  }

  /** Part 1 on six cards with 4, 2, 2, 1, 0 and 0 matches: 8 + 2 + 2 + 1 points. */
  lemma {:induction false} Points(cards: seq<Card>)
    requires |cards| == 6 && |Matches(cards[0])| == 4 && |Matches(cards[1])| == 2 && |Matches(cards[2])| == 2 && |Matches(cards[3])| == 1 && |Matches(cards[4])| == 0 && |Matches(cards[5])| == 0
    ensures Task1(cards) == 13
  {
    assert Score(4) == 8 && Score(2) == 2 && Score(1) == 1 && Score(0) == 0;
    var empty: seq<Card> := [];
    assert cards[..1][..0] == empty;
    assert Task1(cards[..1]) == 8;
    assert cards[..2][..1] == cards[..1];
    assert Task1(cards[..2]) == 10;
    assert cards[..3][..2] == cards[..2];
    assert Task1(cards[..3]) == 12;
    assert cards[..4][..3] == cards[..3];
    assert Task1(cards[..4]) == 13;
    assert cards[..5][..4] == cards[..4];
    assert Task1(cards[..5]) == 13;
    assert cards[..6][..5] == cards[..5];
    assert cards[..6] == cards;
  }

  /** Part 2 on the same six cards: 1, 2, 4, 8, 14 and 1 instances. */
  lemma {:induction false} Instances(cards: seq<Card>)
    requires |cards| == 6 && forall m | 0 <= m < 6 :: cards[m].instances == 1
    requires |Matches(cards[0])| == 4 && |Matches(cards[1])| == 2 && |Matches(cards[2])| == 2 && |Matches(cards[3])| == 1 && |Matches(cards[4])| == 0 && |Matches(cards[5])| == 0
    ensures Task2(cards) == Some(30)
  {
    assert Cascade(cards, 0).Some?;
    SixOf(Cascade(cards, 0).value, 1, 1, 1, 1, 1, 1);
    assert Cascade(cards, 1).Some?;
    SixOf(Cascade(cards, 1).value, 1, 2, 2, 2, 2, 1);
    assert Cascade(cards, 2).Some?;
    SixOf(Cascade(cards, 2).value, 1, 2, 4, 4, 2, 1);
    assert Cascade(cards, 3).Some?;
    SixOf(Cascade(cards, 3).value, 1, 2, 4, 8, 6, 1);
    assert Cascade(cards, 4).Some?;
    SixOf(Cascade(cards, 4).value, 1, 2, 4, 8, 14, 1);
    assert Cascade(cards, 5).Some?;
    SixOf(Cascade(cards, 5).value, 1, 2, 4, 8, 14, 1);
    assert Cascade(cards, 6).Some?;
    SixOf(Cascade(cards, 6).value, 1, 2, 4, 8, 14, 1);
    SumOfSix(1, 2, 4, 8, 14, 1);
  }

  /** A sequence of six given elements, index by index. */
  lemma {:induction false} SixOf(xs: seq<nat>, a: nat, b: nat, c: nat, d: nat, e: nat, f: nat)
    requires |xs| == 6 && xs[0] == a && xs[1] == b && xs[2] == c && xs[3] == d && xs[4] == e && xs[5] == f
    ensures xs == [a, b, c, d, e, f]
  {
  }

  lemma {:induction false} SumOfSix(a: int, b: int, c: int, d: int, e: int, f: int)
    ensures Sum([a, b, c, d, e, f]) == a + b + c + d + e + f
  {
    var xs := [a, b, c, d, e, f];
    var empty: seq<int> := [];
    assert xs[..1][..0] == empty;
    assert Sum(xs[..1]) == a;
    assert xs[..2][..1] == xs[..1];
    assert Sum(xs[..2]) == a + b;
    assert xs[..3][..2] == xs[..2];
    assert Sum(xs[..3]) == a + b + c;
    assert xs[..4][..3] == xs[..3];
    assert Sum(xs[..4]) == a + b + c + d;
    assert xs[..5][..4] == xs[..4];
    assert Sum(xs[..5]) == a + b + c + d + e;
    assert xs[..6][..5] == xs[..5];
    assert xs[..6] == xs;
  }

  /** The worked example: 13 points and 30 instances. */
  lemma {:induction false} Example(cards: seq<Card>)
    requires cards == ExampleCards()
    ensures Task1(cards) == 13 && Task2(cards) == Some(30)
  {
    ExampleInstances(cards);
    ExampleMatches(cards);
    Points(cards);
    Instances(cards);
  }
}
