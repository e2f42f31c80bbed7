/**
 * Camel Cards with jokers (day-07/src/part2.rs): J is the weakest card,
 * worth 1, and the type of a hand holding jokers is the best type reached
 * by turning every joker into one and the same value 1..13. Ties are still
 * broken on the cards as dealt, so a joker keeps its value 1 there. The
 * classification, comparison, sort and winnings are those of part 1.
 */
module JokerCards {
  import opened Common
  import opened CamelCards

  /** `parse_card` of part 2: J is 1, T, Q, K, A are 10..13, and any other
      character must parse as a one-digit number. */
  function JokerCardValue(c: char): (v: Option<nat>)
    ensures v.Some? <==> IsDecimal(c) || c in "TJQKA"
    ensures v.Some? ==> v.value <= 13
    ensures v == Some(Joker) <==> c == 'J' || c == '1'
  {
    match c
      case 'T' => Some(10)
      case 'J' => Some(1)
      case 'Q' => Some(11)
      case 'K' => Some(12)
      case 'A' => Some(13)
      case _ => if IsDecimal(c) then Some(c as int - '0' as int) else None
  }

  /** The value a joker is dealt with. */
  const Joker: nat := 1

  /** The faces of the game from weakest to strongest once J is a joker. */
  const JokerFaces := "J23456789TQKA"

  /** Card values rise strictly along J, 2, 3, ..., 9, T, Q, K, A. */
  lemma {:induction false} JokerFacesAscend(i: nat, j: nat)
    requires i < j < |JokerFaces|
    ensures JokerCardValue(JokerFaces[i]).Some? && JokerCardValue(JokerFaces[j]).Some?
    ensures JokerCardValue(JokerFaces[i]).value < JokerCardValue(JokerFaces[j]).value
  {
    assert forall k | 0 <= k < |JokerFaces| ::
      JokerCardValue(JokerFaces[k]).Some? && JokerCardValue(JokerFaces[k]).value == k + 1;
  }

  // -------------------------------------------------------- substitution

  /** cards[i..] with every joker rewritten to v, the other cards kept. */
  function SubstituteFrom(cards: seq<nat>, v: nat, i: nat): seq<nat>
    decreases |cards| - i
  {
    if i >= |cards| then []
    else [if cards[i] == Joker then v else cards[i]] + SubstituteFrom(cards, v, i + 1)
  }

  /** The rewrite of a clone of the hand in which every joker becomes v. */
  function Substitute(cards: seq<nat>, v: nat): seq<nat>
  {
    SubstituteFrom(cards, v, 0)
  }

  lemma {:induction false} SubstituteFromAt(cards: seq<nat>, v: nat, i: nat)
    requires i <= |cards|
    ensures |SubstituteFrom(cards, v, i)| == |cards| - i
    ensures forall k | i <= k < |cards| ::
      SubstituteFrom(cards, v, i)[k - i] == if cards[k] == Joker then v else cards[k]
    decreases |cards| - i
  {
    if i < |cards| {
      SubstituteFromAt(cards, v, i + 1);
      var s, rest := SubstituteFrom(cards, v, i), SubstituteFrom(cards, v, i + 1);
      assert s == [if cards[i] == Joker then v else cards[i]] + rest;
      forall k | i < k < |cards|
        ensures s[k - i] == if cards[k] == Joker then v else cards[k]
      {
        assert s[k - i] == rest[k - (i + 1)];
      }
    }
  }

  /** The rewrite keeps the length and every card that is not a joker, and
      puts v where the jokers were. */
  lemma {:induction false} SubstituteAt(cards: seq<nat>, v: nat)
    ensures |Substitute(cards, v)| == |cards|
    ensures forall k | 0 <= k < |cards| && cards[k] != Joker :: Substitute(cards, v)[k] == cards[k]
    ensures forall k | 0 <= k < |cards| && cards[k] == Joker :: Substitute(cards, v)[k] == v
  {
    SubstituteFromAt(cards, v, 0);
  }

  /** Turning jokers into jokers changes nothing. */
  lemma {:induction false} SubstituteJokerIdentity(cards: seq<nat>)
    ensures Substitute(cards, Joker) == cards
  {
    SubstituteAt(cards, Joker);
  }

  lemma {:induction false} SliceMultiset(cards: seq<nat>, i: nat)
    requires i < |cards|
    ensures multiset(cards[i..]) == multiset{cards[i]} + multiset(cards[i + 1..])
  {
    assert cards[i..] == [cards[i]] + cards[i + 1..];
  }

  lemma {:induction false} SubstituteFromGathers(cards: seq<nat>, v: nat, i: nat)
    requires v != Joker && i <= |cards|
    ensures multiset(SubstituteFrom(cards, v, i))[Joker] == 0
    ensures multiset(SubstituteFrom(cards, v, i))[v] == multiset(cards[i..])[v] + multiset(cards[i..])[Joker]
    ensures forall x | x != Joker && x != v :: multiset(SubstituteFrom(cards, v, i))[x] == multiset(cards[i..])[x]
    decreases |cards| - i
  {
    if i < |cards| {
      SubstituteFromGathers(cards, v, i + 1);
      var c := if cards[i] == Joker then v else cards[i];
      var ms := multiset(SubstituteFrom(cards, v, i + 1));
      assert multiset(SubstituteFrom(cards, v, i)) == multiset{c} + ms;
      SliceMultiset(cards, i);
      if c == v {
        assert multiset(SubstituteFrom(cards, v, i))[v] == 1 + ms[v];
      }
    } else {
      assert cards[i..] == [];
    }
  }

  /** With v other than the joker, no joker is left and v occurs as often
      as v and the jokers together did; every other value keeps its
      multiplicity. */
  lemma {:induction false} SubstituteGathers(cards: seq<nat>, v: nat)
    requires v != Joker
    ensures multiset(Substitute(cards, v))[Joker] == 0
    ensures multiset(Substitute(cards, v))[v] == multiset(cards)[v] + multiset(cards)[Joker]
    ensures forall x | x != Joker && x != v :: multiset(Substitute(cards, v))[x] == multiset(cards)[x]
  {
    SubstituteFromGathers(cards, v, 0);
    assert cards[0..] == cards;
  }

  // ------------------------------------------------------------ best type

  /** The stronger of two types (`max` on the derived ordering). */
  function Stronger(s: HandType, t: HandType): (r: HandType)
    ensures Rank(r) >= Rank(s) && Rank(r) >= Rank(t)
    ensures r == s || r == t
  {
    if Rank(t) >= Rank(s) then t else s
  }

  /** The strongest of ts[i..]: `max()` over the candidate types. */
  function Strongest(ts: seq<HandType>, i: nat): HandType
    requires i < |ts|
    decreases |ts| - i
  {
    if i == |ts| - 1 then ts[i] else Stronger(ts[i], Strongest(ts, i + 1))
  }

  lemma {:induction false} StrongestIsMax(ts: seq<HandType>, i: nat)
    requires i < |ts|
    ensures forall k | i <= k < |ts| :: Rank(ts[k]) <= Rank(Strongest(ts, i))
    ensures exists k | i <= k < |ts| :: Strongest(ts, i) == ts[k]
    decreases |ts| - i
  {
    if i < |ts| - 1 {
      StrongestIsMax(ts, i + 1);
      if Strongest(ts, i) != ts[i] {
        var k :| i + 1 <= k < |ts| && Strongest(ts, i + 1) == ts[k];
        assert Strongest(ts, i) == ts[k];
      } else {
        assert Strongest(ts, i) == ts[i];
      }
    } else {
      assert Strongest(ts, i) == ts[i];
    }
  }

  /** The types of the hand with every joker turned into v, for v in
      `1..14` in order. */
  function Candidates(cards: seq<nat>): seq<HandType>
  {
    seq(13, k requires 0 <= k < 13 => TypeOf(Substitute(cards, k + 1)))
  }

  /** The type `parse_hand` gives a hand in part 2. */
  function JokerType(cards: seq<nat>): HandType
  {
    if Joker in cards then Strongest(Candidates(cards), 0) else TypeOf(cards)
  }

  /** With a joker, no value the jokers can jointly become gives a
      stronger type. */
  lemma {:induction false} JokerTypeIsBest(cards: seq<nat>)
    requires Joker in cards
    ensures forall v | 1 <= v <= 13 :: Rank(TypeOf(Substitute(cards, v))) <= Rank(JokerType(cards))
  {
    var ts := Candidates(cards);
    StrongestIsMax(ts, 0);
    forall v | 1 <= v <= 13
      ensures Rank(TypeOf(Substitute(cards, v))) <= Rank(JokerType(cards))
    {
      assert ts[v - 1] == TypeOf(Substitute(cards, v));
    }
  }

  /** With a joker, the type is that of one of the 13 substitutions. */
  lemma {:induction false} JokerTypeAttained(cards: seq<nat>)
    requires Joker in cards
    ensures exists v | 1 <= v <= 13 :: JokerType(cards) == TypeOf(Substitute(cards, v))
  {
    var ts := Candidates(cards);
    StrongestIsMax(ts, 0);
    var k :| 0 <= k < 13 && Strongest(ts, 0) == ts[k];
    CandidateAt(cards, k);
  }

  lemma {:induction false} CandidateAt(cards: seq<nat>, k: nat)
    requires k < 13
    ensures Candidates(cards)[k] == TypeOf(Substitute(cards, k + 1))
  {
  }

  /** Jokers never make a hand weaker than its cards as dealt, because
      turning them into 1 leaves the cards as they are. */
  lemma {:induction false} JokerNeverLowers(cards: seq<nat>)
    ensures Rank(TypeOf(cards)) <= Rank(JokerType(cards))
  {
    if Joker in cards {
      JokerTypeIsBest(cards);
      SubstituteJokerIdentity(cards);
      assert Rank(TypeOf(Substitute(cards, 1))) <= Rank(JokerType(cards));
    }
  }

  /** A hand with a joker is four of a kind when one substitution reaches
      four and two of its other cards differ, so that none reaches five. */
  lemma {:induction false} JokerFour(cards: seq<nat>, v: nat, i: nat, j: nat)
    requires Joker in cards && 1 <= v <= 13
    requires i < |cards| && j < |cards| && cards[i] != Joker && cards[j] != Joker && cards[i] != cards[j]
    requires TypeOf(Substitute(cards, v)) == FourOfAKind
    ensures JokerType(cards) == FourOfAKind
  {
    JokerTypeIsBest(cards);
    JokerTypeAttained(cards);
    var w :| 1 <= w <= 13 && JokerType(cards) == TypeOf(Substitute(cards, w));
    SubstituteAt(cards, w);
    MixedNotFive(Substitute(cards, w), i, j);
    assert Rank(JokerType(cards)) >= 5;
  }

  /** A hand as part 2's `parse_hand` builds it: typed with jokers, cards
      kept as dealt for breaking ties. */
  function JokerHand(cards: seq<nat>, bid: nat): Hand
  {
    Hand(cards, JokerType(cards), bid)
  }

  /** `parse_hands` of part 2 on the dealt cards and bids. */
  function JokerHands(deal: seq<(seq<nat>, nat)>): seq<Hand>
  {
    seq(|deal|, k requires 0 <= k < |deal| => JokerHand(deal[k].0, deal[k].1))
  }

  predicate DealSize(deal: seq<(seq<nat>, nat)>, n: nat)
  {
    forall k | 0 <= k < |deal| :: |deal[k].0| == n
  }

  /** The sum of the dealt bids. */
  function DealBids(deal: seq<(seq<nat>, nat)>): nat
  {
    if deal == [] then 0 else DealBids(deal[..|deal| - 1]) + deal[|deal| - 1].1
  }

  /** Re-typing the hands keeps every bid. */
  lemma {:induction false} JokerBids(deal: seq<(seq<nat>, nat)>)
    ensures BidSum(JokerHands(deal)) == DealBids(deal)
  {
    if deal != [] {
      var front := deal[..|deal| - 1];
      assert JokerHands(deal)[..|deal| - 1] == JokerHands(front);
      JokerBids(front);
    }
  }

  /** `task_2` on a deal of hands of n cards: part 1's sort and winnings.
      Every hand keeps its bid and gets a rank in 1..|deal|, so the total
      lies between the sum of the bids and |deal| times it. */
  function Task2(deal: seq<(seq<nat>, nat)>, n: nat): (r: nat)
    requires DealSize(deal, n)
    ensures DealBids(deal) <= r <= |deal| * DealBids(deal)
  {
    JokerBids(deal);
    Task1(JokerHands(deal), n)
  }

  // ------------------------------------------------------- worked example

  lemma {:induction false} ExampleDistinct32T3K()
    ensures Distinct([3, 2, 10, 3, 12]) == [3, 2, 10, 12]
  {
  }

  lemma {:induction false} ExampleCounts32T3K()
    ensures Counts([3, 2, 10, 3, 12]) == [2, 1, 1, 1]
  {
    ExampleDistinct32T3K();
  }

  lemma {:induction false} ExampleType32T3K()
    ensures TypeOf([3, 2, 10, 3, 12]) == OnePair
  {
    ExampleCounts32T3K();
    ExampleSortedOnePair();
  }

  lemma {:induction false} Example32T3K(cards: seq<nat>)
    requires cards == [3, 2, 10, 3, 12]
    ensures JokerType(cards) == OnePair
  {
    assert Joker !in cards;
    ExampleType32T3K();
  }

  lemma {:induction false} ExampleDistinctKK677()
    ensures Distinct([12, 12, 6, 7, 7]) == [12, 6, 7]
  {
  }

  lemma {:induction false} ExampleCountsKK677()
    ensures Counts([12, 12, 6, 7, 7]) == [2, 1, 2]
  {
    ExampleDistinctKK677();
  }

  lemma {:induction false} ExampleTypeKK677()
    ensures TypeOf([12, 12, 6, 7, 7]) == TwoPair
  {
    ExampleCountsKK677();
    ExampleSortedTwoPair1();
  }

  lemma {:induction false} ExampleKK677(cards: seq<nat>)
    requires cards == [12, 12, 6, 7, 7]
    ensures JokerType(cards) == TwoPair
  {
    assert Joker !in cards;
    ExampleTypeKK677();
  }

  /** Four cards of one value and one other card. */
  lemma {:induction false} FourAndOne(cards: seq<nat>, x: nat, y: nat)
    requires |cards| == 5 && x != y
    requires multiset(cards)[x] == 4 && multiset(cards)[y] == 1
    ensures TypeOf(cards) == FourOfAKind
  {
    TypeByMultiplicity(cards);
    MaxOverIsMax(cards, cards, 0);
    assert x in cards;
    var m :| 0 <= m < |cards| && multiset(cards)[cards[m]] == MaxOver(cards, cards, 0);
    if cards[m] != x {
      TwoValues(multiset(cards), cards[m], x);
    }
  }

  lemma {:induction false} ExampleT55J5(cards: seq<nat>)
    requires cards == [10, 5, 5, 1, 5]
    ensures JokerType(cards) == FourOfAKind
  {
    SubstituteAt(cards, 5);
    var s := Substitute(cards, 5);
    assert s == [10, 5, 5, 5, 5];
    FourAndOne(s, 5, 10);
    JokerFour(cards, 5, 0, 1);
  }

  lemma {:induction false} ExampleKTJJT(cards: seq<nat>)
    requires cards == [12, 10, 1, 1, 10]
    ensures JokerType(cards) == FourOfAKind
  {
    SubstituteAt(cards, 10);
    var s := Substitute(cards, 10);
    assert s == [12, 10, 10, 10, 10];
    FourAndOne(s, 10, 12);
    JokerFour(cards, 10, 0, 1);
  }

  lemma {:induction false} ExampleQQQJA(cards: seq<nat>)
    requires cards == [11, 11, 11, 1, 13]
    ensures JokerType(cards) == FourOfAKind
  {
    SubstituteAt(cards, 11);
    var s := Substitute(cards, 11);
    assert s == [11, 11, 11, 11, 13];
    FourAndOne(s, 11, 13);
    JokerFour(cards, 11, 0, 4);
  }

  /** 32T3K, T55J5, KK677, KTJJT and QQQJA with their bids. */
  function ExampleDeal(): seq<(seq<nat>, nat)>
  {
    [([3, 2, 10, 3, 12], 765), ([10, 5, 5, 1, 5], 684), ([12, 12, 6, 7, 7], 28),
     ([12, 10, 1, 1, 10], 220), ([11, 11, 11, 1, 13], 483)]
  }

  function TypedJokerExampleHands(): seq<Hand>
  {
    [Hand([3, 2, 10, 3, 12], OnePair, 765), Hand([10, 5, 5, 1, 5], FourOfAKind, 684),
     Hand([12, 12, 6, 7, 7], TwoPair, 28), Hand([12, 10, 1, 1, 10], FourOfAKind, 220),
     Hand([11, 11, 11, 1, 13], FourOfAKind, 483)]
  }

  lemma {:induction false} JokerExampleHand(deal: seq<(seq<nat>, nat)>, k: nat)
    requires deal == ExampleDeal() && k < 5
    ensures JokerHands(deal)[k] == TypedJokerExampleHands()[k]
  {
    assert JokerHands(deal)[k] == JokerHand(deal[k].0, deal[k].1);
    if k == 0 {
      Example32T3K(deal[0].0);
    } else if k == 1 {
      ExampleT55J5(deal[1].0);
    } else if k == 2 {
      ExampleKK677(deal[2].0);
    } else if k == 3 {
      ExampleKTJJT(deal[3].0);
    } else {
      ExampleQQQJA(deal[4].0);
    }
  }

  /** With jokers the example hands are one pair, four of a kind, two pair,
      four of a kind and four of a kind. */
  lemma {:induction false} JokerExampleTypes(deal: seq<(seq<nat>, nat)>)
    requires deal == ExampleDeal()
    ensures JokerHands(deal) == TypedJokerExampleHands()
  {
    forall k | 0 <= k < 5
      ensures JokerHands(deal)[k] == TypedJokerExampleHands()[k]
    {
      JokerExampleHand(deal, k);
    }
  }

  function RankedJokerExampleHands(): seq<Hand>
  {
    var hs := TypedJokerExampleHands();
    [hs[0], hs[2], hs[1], hs[4], hs[3]]
  }

  lemma {:induction false} JokerRankedAscend(r: seq<Hand>)
    requires r == RankedJokerExampleHands()
    ensures SameSize(r, 5) && forall k | 0 <= k < |r| - 1 :: Lt(r[k], r[k + 1])
  {
    assert Lt(r[0], r[1]) && Lt(r[1], r[2]) && Lt(r[2], r[3]) && Lt(r[3], r[4]);
  }

  lemma {:induction false} JokerRankPermutes(hs: seq<Hand>, r: seq<Hand>)
    requires |hs| == 5 && r == [hs[0], hs[2], hs[1], hs[4], hs[3]]
    ensures multiset(r) == multiset(hs)
  {
    var h := hs[1 := hs[2]][2 := hs[1]];
    assert r == h[3 := h[4]][4 := h[3]];
    SwapKeepsHands(hs, 1, 2);
    SwapKeepsHands(h, 3, 4);
  }

  lemma {:induction false} JokerExampleSorted(hs: seq<Hand>)
    requires hs == TypedJokerExampleHands()
    ensures SameSize(hs, 5) && SortHands(hs, 5) == RankedJokerExampleHands()
  {
    var r := RankedJokerExampleHands();
    JokerTypedSize(hs);
    assert r == [hs[0], hs[2], hs[1], hs[4], hs[3]];
    JokerRankedAscend(r);
    JokerRankPermutes(hs, r);
    AscendingIsSorted(hs, r, 5);
  }

  lemma {:induction false} JokerTypedSize(hs: seq<Hand>)
    requires hs == TypedJokerExampleHands()
    ensures |hs| == 5 && SameSize(hs, 5)
  {
  }

  /** Ranked 32T3K, KK677, T55J5, QQQJA, KTJJT, the winnings are 5905. */
  lemma {:induction false} JokerExampleWinnings(deal: seq<(seq<nat>, nat)>)
    requires deal == ExampleDeal()
    ensures DealSize(deal, 5) && Task2(deal, 5) == 5905
  {
    assert DealSize(deal, 5);
    JokerExampleTypes(deal);
    var t := TypedJokerExampleHands();
    JokerExampleSorted(t);
    var r := RankedJokerExampleHands();
    WinningsOfFive(r);
    calc {
      Task2(deal, 5);
      Task1(t, 5);
      Winnings(r);
    }
  }
}
