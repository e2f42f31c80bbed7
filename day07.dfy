/**
 * Camel Cards (day-07/src/part1.rs): hands of cards are typed by the
 * multiplicities of their card values, ordered by type and then card by
 * card, sorted, and paid their bid times their rank. The hand-written
 * comparison is what `hands.sort()` uses, through `<`.
 */
module CamelCards {
  import opened Common

  /** Declared from weakest to strongest; the derived ordering follows the
      declaration order. */
  datatype HandType = HighCard | OnePair | TwoPair | ThreeOfAKind | FullHouse | FourOfAKind | FiveOfAKind

  function Rank(t: HandType): (r: nat)
    ensures r <= 6
  {
    match t
      case HighCard => 0
      case OnePair => 1
      case TwoPair => 2
      case ThreeOfAKind => 3
      case FullHouse => 4
      case FourOfAKind => 5
      case FiveOfAKind => 6
  }

  datatype Hand = Hand(cards: seq<nat>, t: HandType, bid: nat)

  datatype Ordering = Less | Equal | Greater

  /** `parse_card`: T, J, Q, K, A are 10..14; any other character must
      parse as a one-digit number, so '0' and '1' are accepted too. */
  function CardValue(c: char): (v: Option<nat>)
    ensures v.Some? <==> IsDecimal(c) || c in "TJQKA"
    ensures v.Some? ==> v.value <= 14
    ensures v.Some? ==> (v.value >= 10 <==> c in "TJQKA")
  {
    match c
      case 'T' => Some(10)
      case 'J' => Some(11)
      case 'Q' => Some(12)
      case 'K' => Some(13)
      case 'A' => Some(14)
      case _ => if IsDecimal(c) then Some(c as int - '0' as int) else None
  }

  /** The faces of the game from weakest to strongest. */
  const Faces := "23456789TJQKA"

  /** Card values rise strictly along 2, 3, ..., 9, T, J, Q, K, A. */
  lemma {:induction false} FacesAscend(i: nat, j: nat)
    requires i < j < |Faces|
    ensures CardValue(Faces[i]).Some? && CardValue(Faces[j]).Some?
    ensures CardValue(Faces[i]).value < CardValue(Faces[j]).value
  {
    assert forall k | 0 <= k < |Faces| :: CardValue(Faces[k]).Some? && CardValue(Faces[k]).value == k + 2;
  }

  // ------------------------------------------------------ multiplicities

  /** Number of occurrences of v in cards[i..]. */
  function CountFrom(cards: seq<nat>, v: nat, i: nat): nat
    decreases |cards| - i
  {
    if i >= |cards| then 0 else (if cards[i] == v then 1 else 0) + CountFrom(cards, v, i + 1)
  }

  function Count(cards: seq<nat>, v: nat): nat
  {
    CountFrom(cards, v, 0)
  }

  lemma {:induction false} CountFromIsMultiplicity(cards: seq<nat>, v: nat, i: nat)
    requires i <= |cards|
    ensures CountFrom(cards, v, i) == multiset(cards[i..])[v]
    decreases |cards| - i
  {
    if i < |cards| {
      assert cards[i..] == [cards[i]] + cards[i + 1..];
      CountFromIsMultiplicity(cards, v, i + 1);
    }
  }

  /** `counts()` counts each value as many times as it occurs. */
  lemma {:induction false} CountIsMultiplicity(cards: seq<nat>, v: nat)
    ensures Count(cards, v) == multiset(cards)[v]
  {
    CountFromIsMultiplicity(cards, v, 0);
    assert cards[0..] == cards;
  }

  /** v occurs among the first i cards. */
  predicate SeenBefore(cards: seq<nat>, v: nat, i: nat)
    requires i <= |cards|
  {
    i > 0 && (cards[i - 1] == v || SeenBefore(cards, v, i - 1))
  }

  lemma {:induction false} SeenBeforeIsIn(cards: seq<nat>, v: nat, i: nat)
    requires i <= |cards|
    ensures SeenBefore(cards, v, i) <==> v in cards[..i]
  {
    if i > 0 {
      SeenBeforeIsIn(cards, v, i - 1);
      assert cards[..i] == cards[..i - 1] + [cards[i - 1]];
    }
  }

  /** The distinct values of cards[i..] at their first occurrence, in order:
      the keys of the `counts()` map. */
  function DistinctFrom(cards: seq<nat>, i: nat): seq<nat>
    decreases |cards| - i
  {
    if i >= |cards| then []
    else (if SeenBefore(cards, cards[i], i) then [] else [cards[i]]) + DistinctFrom(cards, i + 1)
  }

  function Distinct(cards: seq<nat>): seq<nat>
  {
    DistinctFrom(cards, 0)
  }

  predicate NoDuplicates(xs: seq<nat>)
  {
    forall i, j | 0 <= i < j < |xs| :: xs[i] != xs[j]
  }

  lemma {:induction false} DistinctFromProperties(cards: seq<nat>, i: nat)
    requires i <= |cards|
    ensures NoDuplicates(DistinctFrom(cards, i))
    ensures forall x :: x in DistinctFrom(cards, i) <==> exists j | i <= j < |cards| :: cards[j] == x && !SeenBefore(cards, x, j)
    decreases |cards| - i
  {
    if i < |cards| {
      DistinctFromProperties(cards, i + 1);
      var rest := DistinctFrom(cards, i + 1);
      if !SeenBefore(cards, cards[i], i) {
        forall j | i + 1 <= j < |cards| && cards[j] == cards[i]
          ensures SeenBefore(cards, cards[i], j)
        {
          SeenBeforeIsIn(cards, cards[i], j);
        }
        assert cards[i] !in rest;
        assert DistinctFrom(cards, i) == [cards[i]] + rest;
      }
    }
  }

  /** The keys are exactly the values of the hand, each once. */
  lemma {:induction false} DistinctProperties(cards: seq<nat>)
    ensures NoDuplicates(Distinct(cards))
    ensures forall x :: x in Distinct(cards) <==> x in cards
  {
    DistinctFromProperties(cards, 0);
    forall x | x in cards
      ensures x in Distinct(cards)
    {
      var j :| 0 <= j < |cards| && cards[j] == x;
      FirstOccurrence(cards, x, j);
    }
  }

  lemma {:induction false} FirstOccurrence(cards: seq<nat>, x: nat, j: nat)
    requires j < |cards| && cards[j] == x
    ensures exists k | 0 <= k < |cards| :: cards[k] == x && !SeenBefore(cards, x, k)
    decreases j
  {
    SeenBeforeIsIn(cards, x, j);
    if SeenBefore(cards, x, j) {
      var k :| 0 <= k < j && cards[..j][k] == x;
      FirstOccurrence(cards, x, k);
    }
  }

  /** The counts of the keys ds[k..]: `into_values()` of the counts map. */
  function CountsOf(cards: seq<nat>, ds: seq<nat>, k: nat): (cs: seq<nat>)
    ensures |cs| == |ds| - k || (k > |ds| && cs == [])
    decreases |ds| - k
  {
    if k >= |ds| then [] else [Count(cards, ds[k])] + CountsOf(cards, ds, k + 1)
  }

  function Counts(cards: seq<nat>): seq<nat>
  {
    CountsOf(cards, Distinct(cards), 0)
  }

  lemma {:induction false} CountsOfAt(cards: seq<nat>, ds: seq<nat>, k: nat)
    requires k <= |ds|
    ensures forall m | k <= m < |ds| :: CountsOf(cards, ds, k)[m - k] == Count(cards, ds[m])
    decreases |ds| - k
  {
    if k < |ds| {
      CountsOfAt(cards, ds, k + 1);
    }
  }

  /** One count per distinct value, each its multiplicity, so each at least 1. */
  lemma {:induction false} CountsAreMultiplicities(cards: seq<nat>)
    ensures |Counts(cards)| == |Distinct(cards)|
    ensures forall k | 0 <= k < |Counts(cards)| ::
      Counts(cards)[k] == multiset(cards)[Distinct(cards)[k]] && Counts(cards)[k] >= 1
  {
    var ds := Distinct(cards);
    CountsOfAt(cards, ds, 0);
    DistinctProperties(cards);
    forall k | 0 <= k < |ds|
      ensures Counts(cards)[k] == multiset(cards)[ds[k]] && Counts(cards)[k] >= 1
    {
      assert ds[k] in ds;
      CountIsMultiplicity(cards, ds[k]);
    }
  }

  // ----------------------------------------------------- sorting counts

  predicate SortedDesc(xs: seq<nat>)
  {
    forall i, j | 0 <= i < j < |xs| :: xs[i] >= xs[j]
  }

  function InsertDesc(x: nat, s: seq<nat>): (r: seq<nat>)
    requires SortedDesc(s)
    ensures SortedDesc(r) && multiset(r) == multiset(s) + multiset{x}
    ensures |r| == |s| + 1 && (r[0] == x || (|s| > 0 && r[0] == s[0]))
  {
    if s == [] then [x]
    else if x >= s[0] then [x] + s
    else
      var rest := InsertDesc(x, s[1..]);
      assert s == [s[0]] + s[1..];
      [s[0]] + rest
  }

  /** `sort_by(|a, b| b.cmp(a))`: the counts from largest to smallest. */
  function SortDesc(xs: seq<nat>): (r: seq<nat>)
    ensures SortedDesc(r) && multiset(r) == multiset(xs)
    ensures |r| == |xs|
  {
    if xs == [] then []
    else
      assert xs == [xs[0]] + xs[1..];
      InsertDesc(xs[0], SortDesc(xs[1..]))
  }

  lemma {:induction false} MultisetTail(a: seq<nat>)
    requires a != []
    ensures multiset(a[1..]) == multiset(a) - multiset{a[0]}
  {
    assert a == [a[0]] + a[1..];
  }

  /** The head of a descending sequence is its largest element. */
  lemma {:induction false} HeadIsLargest(a: seq<nat>, x: nat)
    requires SortedDesc(a) && x in multiset(a)
    ensures a != [] && a[0] >= x
  {
    var i :| 0 <= i < |a| && a[i] == x;
  }

  lemma {:induction false} SortedDescTail(a: seq<nat>)
    requires SortedDesc(a) && a != []
    ensures SortedDesc(a[1..])
  {
    forall i, j | 0 <= i < j < |a| - 1
      ensures a[1..][i] >= a[1..][j]
    {
      assert a[1..][i] == a[i + 1] && a[1..][j] == a[j + 1];
    }
  }

  lemma {:induction false} SameHeads(a: seq<nat>, b: seq<nat>)
    requires SortedDesc(a) && SortedDesc(b) && multiset(a) == multiset(b) && a != []
    ensures b != [] && a[0] == b[0]
  {
    assert a[0] in multiset(a);
    HeadIsLargest(b, a[0]);
    HeadIsLargest(a, b[0]);
  }

  /** Two descending sequences with the same elements are equal, so the
      type does not depend on the order `into_values()` yields the counts. */
  lemma {:induction false} SortedDescUnique(a: seq<nat>, b: seq<nat>)
    requires SortedDesc(a) && SortedDesc(b) && multiset(a) == multiset(b)
    ensures a == b
  {
    if a != [] {
      SameHeads(a, b);
      MultisetTail(a);
      MultisetTail(b);
      SortedDescTail(a);
      SortedDescTail(b);
      SortedDescUnique(a[1..], b[1..]);
      assert a == [a[0]] + a[1..] && b == [b[0]] + b[1..];
    } else {
      assert |b| == |multiset(b)| == 0;
    }
  }

  /** The counts sorted in any way give the same sequence. */
  lemma {:induction false} SortDescIsUnique(xs: seq<nat>, ys: seq<nat>)
    requires SortedDesc(ys) && multiset(xs) == multiset(ys)
    ensures SortDesc(xs) == ys
  {
    SortedDescUnique(SortDesc(xs), ys);
  }

  /** The slice patterns of the source, tried in order. */
  function Classify(counts: seq<nat>): HandType
  {
    if counts == [5] then FiveOfAKind
    else if |counts| >= 1 && counts[0] == 4 then FourOfAKind
    else if counts == [3, 2] then FullHouse
    else if |counts| >= 1 && counts[0] == 3 then ThreeOfAKind
    else if |counts| >= 2 && counts[0] == 2 && counts[1] == 2 then TwoPair
    else if |counts| >= 1 && counts[0] == 2 then OnePair
    else HighCard
  }

  /** The type of a hand: its multiplicities, largest first, classified. */
  function TypeOf(cards: seq<nat>): HandType
  {
    Classify(SortDesc(Counts(cards)))
  }

  /** The classification reads the largest multiplicity first: four of a
      kind exactly when the largest is 4, five of a kind only when some value
      fills the whole hand of five, and a pair type needs a largest of 2. */
  lemma {:induction false} TypeByMultiplicity(cards: seq<nat>)
    ensures TypeOf(cards) == FourOfAKind <==> MaxMultiplicity(cards) == 4
    ensures TypeOf(cards) == FiveOfAKind <==> |cards| == 5 && MaxMultiplicity(cards) == 5
    ensures TypeOf(cards) in {TwoPair, OnePair} ==> MaxMultiplicity(cards) == 2
    ensures TypeOf(cards) in {FullHouse, ThreeOfAKind} ==> MaxMultiplicity(cards) == 3
  {
    SortedCountsFacts(cards);
    FiveByMultiplicity(cards);
  }

  lemma {:induction false} FiveByMultiplicity(cards: seq<nat>)
    ensures TypeOf(cards) == FiveOfAKind <==> |cards| == 5 && MaxMultiplicity(cards) == 5
  {
    var cs := SortDesc(Counts(cards));
    SortedCountsFacts(cards);
    if TypeOf(cards) == FiveOfAKind {
      assert cs == [5];
      OnlyValue(cards);
    }
    if |cards| == 5 && MaxMultiplicity(cards) == 5 {
      if |cs| > 1 {
        SumAtLeastTwo(cards);
      }
      assert cs == [5];
    }
  }

  /** The sorted counts: one per distinct value, the largest first and
      equal to the largest multiplicity, none for an empty hand. */
  lemma {:induction false} SortedCountsFacts(cards: seq<nat>)
    ensures |SortDesc(Counts(cards))| == |Distinct(cards)|
    ensures cards == [] ==> SortDesc(Counts(cards)) == [] && MaxMultiplicity(cards) == 0
    ensures cards != [] ==> |SortDesc(Counts(cards))| >= 1 && SortDesc(Counts(cards))[0] == MaxMultiplicity(cards)
  {
    CountsAreMultiplicities(cards);
    if cards != [] {
      SortedHeadIsMax(cards);
    } else {
      DistinctProperties(cards);
      assert Distinct(cards) == [];
    }
  }

  /** The largest multiplicity of any value in the hand (0 when empty). */
  function MaxMultiplicity(cards: seq<nat>): nat
  {
    if cards == [] then 0 else MaxOver(cards, cards, 0)
  }

  function MaxOver(cards: seq<nat>, vs: seq<nat>, k: nat): nat
    decreases |vs| - k
  {
    if k >= |vs| then 0 else Max(multiset(cards)[vs[k]], MaxOver(cards, vs, k + 1))
  }

  lemma {:induction false} MaxOverIsMax(cards: seq<nat>, vs: seq<nat>, k: nat)
    requires k <= |vs|
    ensures forall m | k <= m < |vs| :: multiset(cards)[vs[m]] <= MaxOver(cards, vs, k)
    ensures k < |vs| ==> exists m | k <= m < |vs| :: multiset(cards)[vs[m]] == MaxOver(cards, vs, k)
    decreases |vs| - k
  {
    if k < |vs| {
      MaxOverIsMax(cards, vs, k + 1);
    }
  }

  /** The first sorted count is the largest multiplicity. */
  lemma {:induction false} SortedHeadIsMax(cards: seq<nat>)
    requires cards != []
    ensures |SortDesc(Counts(cards))| >= 1
    ensures SortDesc(Counts(cards))[0] == MaxMultiplicity(cards)
  {
    HeadAtLeastMax(cards);
    HeadAtMostMax(cards);
  }

  lemma {:induction false} HeadAtLeastMax(cards: seq<nat>)
    requires cards != []
    ensures |SortDesc(Counts(cards))| >= 1 && SortDesc(Counts(cards))[0] >= MaxMultiplicity(cards)
  {
    var cs := Counts(cards);
    var sorted := SortDesc(cs);
    var ds := Distinct(cards);
    CountsAreMultiplicities(cards);
    DistinctProperties(cards);
    MaxOverIsMax(cards, cards, 0);
    var m :| 0 <= m < |cards| && multiset(cards)[cards[m]] == MaxOver(cards, cards, 0);
    assert cards[m] in cards;
    var dm :| 0 <= dm < |ds| && ds[dm] == cards[m];
    assert cs[dm] in multiset(sorted);
    var p :| 0 <= p < |sorted| && sorted[p] == cs[dm];
  }

  lemma {:induction false} HeadAtMostMax(cards: seq<nat>)
    requires cards != [] && |SortDesc(Counts(cards))| >= 1
    ensures SortDesc(Counts(cards))[0] <= MaxMultiplicity(cards)
  {
    var cs := Counts(cards);
    var sorted := SortDesc(cs);
    var ds := Distinct(cards);
    CountsAreMultiplicities(cards);
    DistinctProperties(cards);
    MaxOverIsMax(cards, cards, 0);
    assert sorted[0] in multiset(cs);
    var q :| 0 <= q < |cs| && cs[q] == sorted[0];
    assert ds[q] in cards;
    var r :| 0 <= r < |cards| && cards[r] == ds[q];
  }

  /** A count of 5 as the only count means one value fills the hand. */
  lemma {:induction false} OnlyValue(cards: seq<nat>)
    requires SortDesc(Counts(cards)) == [5]
    ensures |cards| == 5
  {
    var ds := Distinct(cards);
    CountsAreMultiplicities(cards);
    DistinctProperties(cards);
    assert |ds| == 1;
    assert Counts(cards) == [5] by {
      assert multiset(Counts(cards)) == multiset{5};
      assert Counts(cards)[0] in multiset(Counts(cards));
    }
    var v := ds[0];
    assert multiset(cards)[v] == 5;
    assert forall x | x in multiset(cards) :: x == v by {
      forall x | x in multiset(cards)
        ensures x == v
      {
        assert x in cards;
        assert x in ds;
      }
    }
    SingleValueSize(cards, v);
  }

  lemma {:induction false} SingleValueSize(cards: seq<nat>, v: nat)
    requires forall x | x in multiset(cards) :: x == v
    ensures |cards| == multiset(cards)[v]
  {
    if cards != [] {
      var front := cards[..|cards| - 1];
      assert cards == front + [cards[|cards| - 1]];
      assert multiset(cards) == multiset(front) + multiset{cards[|cards| - 1]};
      assert cards[|cards| - 1] in multiset(cards);
      assert forall x | x in multiset(front) :: x in multiset(cards);
      SingleValueSize(front, v);
    }
  }

  /** With two distinct values in five cards, neither fills the hand. */
  lemma {:induction false} SumAtLeastTwo(cards: seq<nat>)
    requires |Distinct(cards)| >= 2 && |cards| == 5
    ensures MaxMultiplicity(cards) < 5
  {
    var ds := Distinct(cards);
    DistinctProperties(cards);
    assert ds[0] != ds[1];
    assert ds[0] in cards && ds[1] in cards;
    MaxOverIsMax(cards, cards, 0);
    var m :| 0 <= m < |cards| && multiset(cards)[cards[m]] == MaxOver(cards, cards, 0);
    var other := if cards[m] == ds[0] then ds[1] else ds[0];
    assert other != cards[m] && other in multiset(cards);
    assert multiset(cards)[cards[m]] + multiset(cards)[other] <= |multiset(cards)| by {
      TwoValues(multiset(cards), cards[m], other);
    }
  }

  /** A hand showing two different values is not five of a kind. */
  lemma {:induction false} MixedNotFive(cards: seq<nat>, i: nat, j: nat)
    requires i < |cards| && j < |cards| && cards[i] != cards[j]
    ensures TypeOf(cards) != FiveOfAKind
  {
    TypeByMultiplicity(cards);
    if TypeOf(cards) == FiveOfAKind {
      MaxOverIsMax(cards, cards, 0);
      var m :| 0 <= m < |cards| && multiset(cards)[cards[m]] == MaxOver(cards, cards, 0);
      var other := if cards[m] == cards[i] then cards[j] else cards[i];
      assert other in multiset(cards);
      TwoValues(multiset(cards), cards[m], other);
      assert false;
    }
  }

  lemma {:induction false} TwoValues(m: multiset<nat>, a: nat, b: nat)
    requires a != b
    ensures m[a] + m[b] <= |m|
  {
    var ma := multiset{}[a := m[a]];
    var mb := multiset{}[b := m[b]];
    assert ma + mb <= m;
    assert |ma| == m[a] && |mb| == m[b] by {
      MultiplicitySize(a, m[a]);
      MultiplicitySize(b, m[b]);
    }
    SubmultisetSize(ma + mb, m);
  }

  lemma {:induction false} MultiplicitySize(a: nat, n: nat)
    ensures |multiset{}[a := n]| == n
  {
    if n > 0 {
      MultiplicitySize(a, n - 1);
      assert multiset{}[a := n] == multiset{}[a := n - 1] + multiset{a};
    }
  }

  lemma {:induction false} SubmultisetSize(a: multiset<nat>, b: multiset<nat>)
    requires a <= b
    ensures |a| <= |b|
  {
    assert b == a + (b - a);
  }

  // --------------------------------------------------------- comparison

  /** `skip_while` over equal cards from position i, then the first
      difference decides; no difference gives None. */
  function CompareCards(a: seq<nat>, b: seq<nat>, i: nat): Option<Ordering>
    requires |a| == |b|
    decreases |a| - i
  {
    if i >= |a| then None
    else if a[i] == b[i] then CompareCards(a, b, i + 1)
    else Some(if a[i] < b[i] then Less else Greater)
  }

  /** `partial_cmp`: different types compare by type alone; equal types by
      the first differing card; identical cards give None. */
  function Cmp(h: Hand, o: Hand): Option<Ordering>
    requires |h.cards| == |o.cards|
  {
    if h.t != o.t then Some(if Rank(h.t) < Rank(o.t) then Less else Greater)
    else CompareCards(h.cards, o.cards, 0)
  }

  /** Rust's `<` on hands: `partial_cmp` is `Some(Less)`. */
  predicate Lt(h: Hand, o: Hand)
    requires |h.cards| == |o.cards|
  {
    Cmp(h, o) == Some(Less)
  }

  lemma {:induction false} RankInjective(s: HandType, t: HandType)
    ensures Rank(s) == Rank(t) <==> s == t
  {
  }

  lemma {:induction false} CompareCardsFlip(a: seq<nat>, b: seq<nat>, i: nat)
    requires |a| == |b| && i <= |a|
    ensures CompareCards(a, b, i) == Some(Less) <==> CompareCards(b, a, i) == Some(Greater)
    ensures CompareCards(a, b, i) == None <==> a[i..] == b[i..]
    ensures CompareCards(a, b, i) != Some(Equal)
    decreases |a| - i
  {
    if i < |a| {
      CompareCardsFlip(a, b, i + 1);
      assert a[i..] == [a[i]] + a[i + 1..];
      assert b[i..] == [b[i]] + b[i + 1..];
    }
  }

  lemma {:induction false} CompareCardsTransitive(a: seq<nat>, b: seq<nat>, c: seq<nat>, i: nat)
    requires |a| == |b| == |c|
    requires CompareCards(a, b, i) == Some(Less) && CompareCards(b, c, i) == Some(Less)
    ensures CompareCards(a, c, i) == Some(Less)
    decreases |a| - i
  {
    if a[i] == b[i] && b[i] == c[i] {
      CompareCardsTransitive(a, b, c, i + 1);
    }
  }

  lemma {:induction false} CompareCardsPrefix(a: seq<nat>, b: seq<nat>, i: nat)
    requires |a| == |b| && i <= |a|
    ensures CompareCards(a, b, i) == Some(Less) <==>
      exists k | i <= k < |a| :: a[i..k] == b[i..k] && a[k] < b[k]
    decreases |a| - i
  {
    if i < |a| {
      CompareCardsPrefix(a, b, i + 1);
      if a[i] == b[i] && CompareCards(a, b, i + 1) == Some(Less) {
        var k :| i + 1 <= k < |a| && a[i + 1..k] == b[i + 1..k] && a[k] < b[k];
        assert a[i..k] == [a[i]] + a[i + 1..k];
        assert b[i..k] == [b[i]] + b[i + 1..k];
      }
      if exists k | i <= k < |a| :: a[i..k] == b[i..k] && a[k] < b[k] {
        var k :| i <= k < |a| && a[i..k] == b[i..k] && a[k] < b[k];
        if k > i {
          assert a[i] == a[i..k][0] && b[i] == b[i..k][0];
          assert a[i + 1..k] == a[i..k][1..] && b[i + 1..k] == b[i..k][1..];
        }
      }
    }
  }

  /** `<` is the lexicographic order on (type, cards): a lower type, or the
      same type and a lower card at the first position where they differ. */
  lemma {:induction false} LtIsLexicographic(h: Hand, o: Hand)
    requires |h.cards| == |o.cards|
    ensures Lt(h, o) <==> (Rank(h.t) < Rank(o.t) ||
      (h.t == o.t && exists k | 0 <= k < |h.cards| :: h.cards[..k] == o.cards[..k] && h.cards[k] < o.cards[k]))
  {
    RankInjective(h.t, o.t);
    CompareCardsPrefix(h.cards, o.cards, 0);
  }

  /** `partial_cmp` is antisymmetric, never answers Equal, and answers None
      exactly for hands of the same type and cards. */
  lemma {:induction false} CmpFlip(h: Hand, o: Hand)
    requires |h.cards| == |o.cards|
    ensures Cmp(h, o) == Some(Less) <==> Cmp(o, h) == Some(Greater)
    ensures Cmp(h, o) == None <==> h.t == o.t && h.cards == o.cards
    ensures Cmp(h, o) != Some(Equal)
  {
    RankInjective(h.t, o.t);
    CompareCardsFlip(h.cards, o.cards, 0);
    CompareCardsFlip(o.cards, h.cards, 0);
  }

  /** Two hands of one size are tied, or one of them is below the other. */
  lemma {:induction false} CmpTotal(h: Hand, o: Hand)
    requires |h.cards| == |o.cards|
    ensures Cmp(h, o) == None <==> h.t == o.t && h.cards == o.cards
    ensures Cmp(h, o) == None || Lt(h, o) || Lt(o, h)
  {
    CmpFlip(h, o);
    CmpFlip(o, h);
    match Cmp(h, o)
    case None =>
    case Some(c) =>
      assert c != Equal;
  }

  /** `<` is transitive. */
  lemma {:induction false} LtTransitive(a: Hand, b: Hand, c: Hand)
    requires |a.cards| == |b.cards| == |c.cards|
    requires Lt(a, b) && Lt(b, c)
    ensures Lt(a, c)
  {
    RankInjective(a.t, b.t);
    RankInjective(b.t, c.t);
    RankInjective(a.t, c.t);
    if a.t == b.t && b.t == c.t {
      CompareCardsTransitive(a.cards, b.cards, c.cards, 0);
    }
  }

  // -------------------------------------------------------------- sorting

  predicate SameSize(hs: seq<Hand>, n: nat)
  {
    forall i | 0 <= i < |hs| :: |hs[i].cards| == n
  }

  /** No hand is `<` a hand before it. */
  predicate Sorted(hs: seq<Hand>, n: nat)
    requires SameSize(hs, n)
  {
    forall i, j | 0 <= i < j < |hs| :: !Lt(hs[j], hs[i])
  }

  /** A hand that no later hand is `<` can head a sorted sequence. */
  lemma {:induction false} ConsSorted(x: Hand, rest: seq<Hand>, n: nat)
    requires |x.cards| == n && SameSize(rest, n) && Sorted(rest, n)
    requires forall j | 0 <= j < |rest| :: !Lt(rest[j], x)
    ensures SameSize([x] + rest, n) && Sorted([x] + rest, n)
  {
    var r := [x] + rest;
    forall i, j | 0 <= i < j < |r|
      ensures !Lt(r[j], r[i])
    {
      if i > 0 {
        assert r[i] == rest[i - 1] && r[j] == rest[j - 1];
      }
    }
  }

  /** Nothing in a sorted s is `<` a hand that is `<` s[0]. */
  lemma {:induction false} BelowHead(h: Hand, s: seq<Hand>, n: nat)
    requires |h.cards| == n && SameSize(s, n) && Sorted(s, n) && s != []
    requires Lt(h, s[0])
    ensures forall j | 0 <= j < |s| :: !Lt(s[j], h)
  {
    forall j | 0 <= j < |s|
      ensures !Lt(s[j], h)
    {
      CmpFlip(h, s[0]);
      if j > 0 && Lt(s[j], h) {
        LtTransitive(s[j], h, s[0]);
      }
    }
  }

  /** Nothing in the rest of s, nor h, is `<` s[0] when h is not. */
  lemma {:induction false} AfterHead(h: Hand, s: seq<Hand>, rest: seq<Hand>, n: nat)
    requires |h.cards| == n && SameSize(s, n) && Sorted(s, n) && s != []
    requires !Lt(h, s[0]) && multiset(rest) == multiset(s[1..]) + multiset{h} && SameSize(rest, n)
    ensures forall j | 0 <= j < |rest| :: !Lt(rest[j], s[0])
  {
    forall j | 0 <= j < |rest|
      ensures !Lt(rest[j], s[0])
    {
      assert rest[j] in multiset(rest);
      if rest[j] != h {
        assert rest[j] in s[1..];
        var k :| 0 <= k < |s[1..]| && s[1..][k] == rest[j];
        assert s[k + 1] == rest[j];
      }
    }
  }

  /** Insert h before the first hand it is `<`, so after every hand it ties
      with: the sort is stable. */
  function InsertHand(h: Hand, s: seq<Hand>, n: nat): (r: seq<Hand>)
    requires |h.cards| == n && SameSize(s, n) && Sorted(s, n)
    ensures SameSize(r, n) && Sorted(r, n) && multiset(r) == multiset(s) + multiset{h}
    ensures |r| == |s| + 1
  {
    if s == [] then [h]
    else if Lt(h, s[0]) then
      BelowHead(h, s, n);
      ConsSorted(h, s, n);
      [h] + s
    else
      assert s == [s[0]] + s[1..];
      var rest := InsertHand(h, s[1..], n);
      AfterHead(h, s, rest, n);
      ConsSorted(s[0], rest, n);
      [s[0]] + rest
  }

  /** `hands.sort()`: a stable sort by `<`; the result is sorted and a
      permutation of the hands. */
  function SortHands(hs: seq<Hand>, n: nat): (r: seq<Hand>)
    requires SameSize(hs, n)
    ensures SameSize(r, n) && Sorted(r, n) && multiset(r) == multiset(hs)
    ensures |r| == |hs|
  {
    if hs == [] then []
    else
      var front := hs[..|hs| - 1];
      assert hs == front + [hs[|hs| - 1]];
      InsertHand(hs[|hs| - 1], SortHands(front, n), n)
  }

  /** No two hands tie: `partial_cmp` answers for every pair. */
  predicate NoTies(hs: seq<Hand>, n: nat)
    requires SameSize(hs, n)
  {
    forall i, j | 0 <= i < j < |hs| :: Cmp(hs[i], hs[j]) != None
  }

  lemma {:induction false} SortedTail(hs: seq<Hand>, n: nat)
    requires SameSize(hs, n) && Sorted(hs, n) && hs != []
    ensures SameSize(hs[1..], n) && Sorted(hs[1..], n)
    ensures NoTies(hs, n) ==> NoTies(hs[1..], n)
  {
    var t := hs[1..];
    forall i, j | 0 <= i < j < |t|
      ensures !Lt(t[j], t[i])
    {
      assert t[i] == hs[i + 1] && t[j] == hs[j + 1];
    }
    if NoTies(hs, n) {
      forall i, j | 0 <= i < j < |t|
        ensures Cmp(t[i], t[j]) != None
      {
        assert t[i] == hs[i + 1] && t[j] == hs[j + 1];
      }
    }
  }

  /** Two sorted arrangements of the same hands without ties start alike. */
  lemma {:induction false} SortedHeads(a: seq<Hand>, b: seq<Hand>, n: nat)
    requires SameSize(a, n) && SameSize(b, n) && Sorted(a, n) && Sorted(b, n)
    requires multiset(a) == multiset(b) && NoTies(a, n) && a != []
    ensures b != [] && a[0] == b[0]
  {
    assert |b| == |multiset(b)| == |a|;
    assert a[0] in multiset(b) && b[0] in multiset(a);
    var i :| 0 <= i < |b| && b[i] == a[0];
    var j :| 0 <= j < |a| && a[j] == b[0];
    if a[0] != b[0] {
      assert !Lt(a[0], b[0]) && !Lt(b[0], a[0]);
      CmpTotal(a[0], b[0]);
      assert false;
    }
  }

  lemma {:induction false} HandsTail(a: seq<Hand>)
    requires a != []
    ensures multiset(a[1..]) == multiset(a) - multiset{a[0]}
  {
    assert a == [a[0]] + a[1..];
  }

  /** Without ties, a sorted arrangement of the hands is unique, so the
      stable sort's result is the only sorted permutation. */
  lemma {:induction false} SortedUnique(a: seq<Hand>, b: seq<Hand>, n: nat)
    requires SameSize(a, n) && SameSize(b, n) && Sorted(a, n) && Sorted(b, n)
    requires multiset(a) == multiset(b) && NoTies(a, n)
    ensures a == b
  {
    if a == [] {
      assert |b| == |multiset(b)| == 0;
    } else {
      SortedHeads(a, b, n);
      assert a == [a[0]] + a[1..] && b == [b[0]] + b[1..];
      HandsTail(a);
      HandsTail(b);
      SortedTail(a, n);
      SortedTail(b, n);
      SortedUnique(a[1..], b[1..], n);
    }
  }

  /** Hands in strictly ascending order by `<` are exactly what the sort
      returns for any arrangement of them. */
  lemma {:induction false} AscendingIsSorted(hs: seq<Hand>, r: seq<Hand>, n: nat)
    requires SameSize(hs, n) && SameSize(r, n) && multiset(r) == multiset(hs)
    requires forall k | 0 <= k < |r| - 1 :: Lt(r[k], r[k + 1])
    ensures SortHands(hs, n) == r
  {
    forall i, j | 0 <= i < j < |r|
      ensures !Lt(r[j], r[i]) && Cmp(r[i], r[j]) != None
    {
      ChainLt(r, n, i, j);
      CmpFlip(r[i], r[j]);
    }
    SortedUnique(r, SortHands(hs, n), n);
  }

  lemma {:induction false} ChainLt(r: seq<Hand>, n: nat, i: nat, j: nat)
    requires SameSize(r, n) && i < j < |r|
    requires forall k | 0 <= k < |r| - 1 :: Lt(r[k], r[k + 1])
    ensures Lt(r[i], r[j])
    decreases j - i
  {
    if j > i + 1 {
      ChainLt(r, n, i + 1, j);
      LtTransitive(r[i], r[i + 1], r[j]);
    }
  }

  /** Σ rank × bid, the rank being the 1-based position. Every rank lies in
      1..|hs|, so the total lies between the sum of the bids and |hs| times
      it. */
  function Winnings(hs: seq<Hand>): (w: nat)
    ensures BidSum(hs) <= w <= |hs| * BidSum(hs)
  {
    if hs == [] then 0
    else
      var front, bid := hs[..|hs| - 1], hs[|hs| - 1].bid;
      RankBounds(|hs|, BidSum(front), Winnings(front), bid);
      Winnings(front) + |hs| * bid
  }

  /** Adding the hand of rank n to hands whose winnings lie between their bid
      sum x and n - 1 times it keeps the bounds. */
  lemma {:induction false} RankBounds(n: nat, x: nat, w: nat, bid: nat)
    requires n >= 1 && x <= w <= (n - 1) * x
    ensures x + bid <= w + n * bid <= n * (x + bid)
  {
    assert (n - 1) * x == n * x - x;
    assert n * (x + bid) == n * x + n * bid;
    assert bid <= n * bid;
  }

  /** The sum of the bids. */
  function BidSum(hs: seq<Hand>): nat
  {
    if hs == [] then 0 else BidSum(hs[..|hs| - 1]) + hs[|hs| - 1].bid
  }

  lemma {:induction false} BidSumAppend(a: seq<Hand>, b: seq<Hand>)
    ensures BidSum(a + b) == BidSum(a) + BidSum(b)
  {
    if b == [] {
      assert a + b == a;
    } else {
      assert (a + b)[..|a + b| - 1] == a + b[..|b| - 1];
      BidSumAppend(a, b[..|b| - 1]);
    }
  }

  /** The sum of the bids does not depend on the order of the hands. */
  lemma {:induction false} BidSumReordered(a: seq<Hand>, b: seq<Hand>)
    requires multiset(a) == multiset(b)
    ensures BidSum(a) == BidSum(b)
    decreases |a|
  {
    if a == [] {
      assert |b| == |multiset(b)| == 0;
    } else {
      var n := |a| - 1;
      var h := a[n];
      assert a == a[..n] + [h];
      assert h in multiset(a);
      var j :| 0 <= j < |b| && b[j] == h;
      var left, right := b[..j], b[j + 1..];
      assert b == left + [h] + right;
      RemoveMatching(a, b, j);
      BidSumReordered(a[..n], left + right);
      BidSumAppend(left, right);
      BidSumAppend(left + [h], right);
      BidSumAppend(left, [h]);
      assert BidSum([h]) == h.bid by {
        assert [h][..0] == [];
      }
    }
  }

  /** A hand as `parse_hand` builds it. */
  function MakeHand(cards: seq<nat>, bid: nat): Hand
  {
    Hand(cards, TypeOf(cards), bid)
  }

  /** `task_1` on parsed hands of n cards. Sorting only reorders the hands,
      so the total lies between the sum of the bids and |hs| times it. */
  function Task1(hs: seq<Hand>, n: nat): (r: nat)
    requires SameSize(hs, n)
    ensures BidSum(hs) <= r <= |hs| * BidSum(hs)
  {
    BidSumReordered(SortHands(hs, n), hs);
    Winnings(SortHands(hs, n))
  }

  // ------------------------------------------------------- worked example

  lemma {:induction false} ExampleDistinctOnePair()
    ensures Distinct([3, 2, 10, 3, 13]) == [3, 2, 10, 13]
  {
  }

  lemma {:induction false} ExampleCountsOnePair()
    ensures Counts([3, 2, 10, 3, 13]) == [2, 1, 1, 1]
  {
    ExampleDistinctOnePair();
  }

  lemma {:induction false} ExampleSortedOnePair()
    ensures SortDesc([2, 1, 1, 1]) == [2, 1, 1, 1]
  {
    assert multiset([2, 1, 1, 1]) == multiset([2, 1, 1, 1]);
    SortDescIsUnique([2, 1, 1, 1], [2, 1, 1, 1]);
  }

  lemma {:induction false} ExampleTypeOnePair()
    ensures TypeOf([3, 2, 10, 3, 13]) == OnePair
  {
    ExampleCountsOnePair();
    ExampleSortedOnePair();
  }

  lemma {:induction false} ExampleDistinctThree1()
    ensures Distinct([10, 5, 5, 11, 5]) == [10, 5, 11]
  {
  }

  lemma {:induction false} ExampleCountsThree1()
    ensures Counts([10, 5, 5, 11, 5]) == [1, 3, 1]
  {
    ExampleDistinctThree1();
  }

  lemma {:induction false} ExampleSortedThree1()
    ensures SortDesc([1, 3, 1]) == [3, 1, 1]
  {
    assert multiset([1, 3, 1]) == multiset([3, 1, 1]);
    SortDescIsUnique([1, 3, 1], [3, 1, 1]);
  }

  lemma {:induction false} ExampleTypeThree1()
    ensures TypeOf([10, 5, 5, 11, 5]) == ThreeOfAKind
  {
    ExampleCountsThree1();
    ExampleSortedThree1();
  }

  lemma {:induction false} ExampleDistinctThree2()
    ensures Distinct([12, 12, 12, 11, 14]) == [12, 11, 14]
  {
  }

  lemma {:induction false} ExampleCountsThree2()
    ensures Counts([12, 12, 12, 11, 14]) == [3, 1, 1]
  {
    ExampleDistinctThree2();
  }

  lemma {:induction false} ExampleSortedThree2()
    ensures SortDesc([3, 1, 1]) == [3, 1, 1]
  {
    assert multiset([3, 1, 1]) == multiset([3, 1, 1]);
    SortDescIsUnique([3, 1, 1], [3, 1, 1]);
  }

  lemma {:induction false} ExampleTypeThree2()
    ensures TypeOf([12, 12, 12, 11, 14]) == ThreeOfAKind
  {
    ExampleCountsThree2();
    ExampleSortedThree2();
  }

  lemma {:induction false} ExampleDistinctTwoPair1()
    ensures Distinct([13, 13, 6, 7, 7]) == [13, 6, 7]
  {
  }

  lemma {:induction false} ExampleCountsTwoPair1()
    ensures Counts([13, 13, 6, 7, 7]) == [2, 1, 2]
  {
    ExampleDistinctTwoPair1();
  }

  lemma {:induction false} ExampleSortedTwoPair1()
    ensures SortDesc([2, 1, 2]) == [2, 2, 1]
  {
    assert multiset([2, 1, 2]) == multiset([2, 2, 1]);
    SortDescIsUnique([2, 1, 2], [2, 2, 1]);
  }

  lemma {:induction false} ExampleTypeTwoPair1()
    ensures TypeOf([13, 13, 6, 7, 7]) == TwoPair
  {
    ExampleCountsTwoPair1();
    ExampleSortedTwoPair1();
  }

  lemma {:induction false} ExampleDistinctTwoPair2()
    ensures Distinct([13, 10, 11, 11, 10]) == [13, 10, 11]
  {
  }

  lemma {:induction false} ExampleCountsTwoPair2()
    ensures Counts([13, 10, 11, 11, 10]) == [1, 2, 2]
  {
    ExampleDistinctTwoPair2();
  }

  lemma {:induction false} ExampleSortedTwoPair2()
    ensures SortDesc([1, 2, 2]) == [2, 2, 1]
  {
    assert multiset([1, 2, 2]) == multiset([2, 2, 1]);
    SortDescIsUnique([1, 2, 2], [2, 2, 1]);
  }

  lemma {:induction false} ExampleTypeTwoPair2()
    ensures TypeOf([13, 10, 11, 11, 10]) == TwoPair
  {
    ExampleCountsTwoPair2();
    ExampleSortedTwoPair2();
  }

  function ExampleHands(): seq<Hand>
  {
    [MakeHand([3, 2, 10, 3, 13], 765), MakeHand([10, 5, 5, 11, 5], 684), MakeHand([13, 13, 6, 7, 7], 28),
     MakeHand([13, 10, 11, 11, 10], 220), MakeHand([12, 12, 12, 11, 14], 483)]
  }

  function TypedExampleHands(): seq<Hand>
  {
    [Hand([3, 2, 10, 3, 13], OnePair, 765), Hand([10, 5, 5, 11, 5], ThreeOfAKind, 684),
     Hand([13, 13, 6, 7, 7], TwoPair, 28), Hand([13, 10, 11, 11, 10], TwoPair, 220),
     Hand([12, 12, 12, 11, 14], ThreeOfAKind, 483)]
  }

  /** The five hands of the example are typed one pair, three of a kind,
      two pair, two pair and three of a kind. */
  lemma {:induction false} ExampleTypes()
    ensures ExampleHands() == TypedExampleHands()
  {
    ExampleTypeOnePair();
    ExampleTypeThree1();
    ExampleTypeTwoPair1();
    ExampleTypeTwoPair2();
    ExampleTypeThree2();
    assert ExampleHands()[0] == TypedExampleHands()[0];
  }

  function RankedExampleHands(): seq<Hand>
  {
    var hs := TypedExampleHands();
    [hs[0], hs[3], hs[2], hs[1], hs[4]]
  }

  /** Each example hand in the ranking is `<` the next. */
  lemma {:induction false} ExampleRankedAscend(r: seq<Hand>)
    requires r == RankedExampleHands()
    ensures SameSize(r, 5) && forall k | 0 <= k < |r| - 1 :: Lt(r[k], r[k + 1])
  {
    assert Lt(r[0], r[1]) && Lt(r[1], r[2]) && Lt(r[2], r[3]) && Lt(r[3], r[4]);
  }

  /** Exchanging two hands keeps the same hands. */
  lemma {:induction false} SwapKeepsHands(s: seq<Hand>, i: nat, j: nat)
    requires i < |s| && j < |s|
    ensures multiset(s[i := s[j]][j := s[i]]) == multiset(s)
  {
  }

  lemma {:induction false} SwapSecondFourth(hs: seq<Hand>, r: seq<Hand>)
    requires |hs| == 5 && r == [hs[0], hs[3], hs[2], hs[1], hs[4]]
    ensures multiset(r) == multiset(hs)
  {
    assert r == hs[1 := hs[3]][3 := hs[1]];
    SwapKeepsHands(hs, 1, 3);
  }

  /** The ranking is the sorted order of the example hands. */
  lemma {:induction false} ExampleSorted(hs: seq<Hand>)
    requires hs == TypedExampleHands()
    ensures SameSize(hs, 5) && SortHands(hs, 5) == RankedExampleHands()
  {
    var r := RankedExampleHands();
    TypedSize(hs);
    assert r == [hs[0], hs[3], hs[2], hs[1], hs[4]];
    ExampleRankedAscend(r);
    SwapSecondFourth(hs, r);
    AscendingIsSorted(hs, r, 5);
  }

  lemma {:induction false} TypedSize(hs: seq<Hand>)
    requires hs == TypedExampleHands()
    ensures |hs| == 5 && SameSize(hs, 5)
  {
  }

  lemma {:induction false} WinningsOfFive(r: seq<Hand>)
    requires |r| == 5
    ensures Winnings(r) == r[0].bid + 2 * r[1].bid + 3 * r[2].bid + 4 * r[3].bid + 5 * r[4].bid
  {
    assert r[..1][..0] == [];
    assert Winnings(r[..1]) == r[0].bid;
    assert r[..2][..1] == r[..1];
    assert Winnings(r[..2]) == r[0].bid + 2 * r[1].bid;
    assert r[..3][..2] == r[..2];
    assert Winnings(r[..3]) == r[0].bid + 2 * r[1].bid + 3 * r[2].bid;
    assert r[..4][..3] == r[..3];
    assert Winnings(r[..4]) == r[0].bid + 2 * r[1].bid + 3 * r[2].bid + 4 * r[3].bid;
    assert r[..5][..4] == r[..4] && r[..5] == r;
  }

  /** Ranked 32T3K, KTJJT, KK677, T55J5, QQQJA, the winnings are 6440. */
  lemma {:induction false} ExampleWinnings(hs: seq<Hand>)
    requires hs == ExampleHands()
    ensures SameSize(hs, 5) && Task1(hs, 5) == 6440
  {
    ExampleTypes();
    ExampleSorted(hs);
    WinningsOfFive(RankedExampleHands());
  }
}
