/**
 * Wait For It (day-06/src/main.rs): holding the button of a toy boat for b
 * milliseconds of a race lasting `time` makes it travel (time - b) * b; a
 * hold time wins when that beats the record. Numbers are unbounded here.
 */
module BoatRace {
  import opened Common

  datatype Race = Race(time: nat, record: nat)

  /** `can_be_won`: the distance reached with hold time b beats the record. */
  predicate CanBeWon(race: Race, b: nat)
    requires b <= race.time
  {
    (race.time - b) * b > race.record
  }

  /** The winning hold times among 1..time-1, the range the source tries. */
  function WinningTimes(race: Race): set<nat>
  {
    set b: nat | 1 <= b < race.time && CanBeWon(race, b)
  }

  /** The fold over b..time-1 counting winning hold times; it counts at
      most the time - b hold times it tries. */
  function WinsFrom(race: Race, b: nat): (n: nat)
    ensures b <= race.time ==> n <= race.time - b
    decreases race.time - b
  {
    if b >= race.time then 0
    else (if CanBeWon(race, b) then 1 else 0) + WinsFrom(race, b + 1)
  }

  /** Number of ways to win one race. */
  function Wins(race: Race): nat
  {
    WinsFrom(race, 1)
  }

  lemma {:induction false} WinsFromCounts(race: Race, b: nat)
    requires b >= 1
    ensures WinsFrom(race, b) == |set x: nat | b <= x < race.time && CanBeWon(race, x)|
    decreases race.time - b
  {
    var s := set x: nat | b <= x < race.time && CanBeWon(race, x);
    if b < race.time {
      var rest := set x: nat | b + 1 <= x < race.time && CanBeWon(race, x);
      WinsFromCounts(race, b + 1);
      if CanBeWon(race, b) {
        assert s == {b} + rest;
        assert b !in rest;
      } else {
        assert s == rest;
      }
    } else {
      assert s == {};
    }
  }

  /** The fold counts exactly the winning hold times. */
  lemma {:induction false} WinsCountsWinningTimes(race: Race)
    ensures Wins(race) == |WinningTimes(race)|
  {
    WinsFromCounts(race, 1);
    assert WinningTimes(race) == set x: nat | 1 <= x < race.time && CanBeWon(race, x);
  }

  /** b wins exactly when time - b does: the distance is symmetric. */
  lemma {:induction false} WinningTimesSymmetric(race: Race, b: nat)
    requires b <= race.time
    ensures b in WinningTimes(race) <==> race.time - b in WinningTimes(race)
  {
    var c := race.time - b;
    assert (race.time - c) * c == b * (race.time - b);
    assert (race.time - b) * b == b * (race.time - b);
  }

  /** `parse_races`: the i-th time is paired with the i-th record; a missing
      record is an `unwrap` on None, and extra records are ignored. */
  function Races(times: seq<nat>, records: seq<nat>): (r: Option<seq<Race>>)
    ensures r.Some? <==> |records| >= |times|
    ensures r.Some? ==> |r.value| == |times|
    ensures r.Some? ==> forall i | 0 <= i < |times| :: r.value[i] == Race(times[i], records[i])
  {
    if |records| < |times| then None
    else Some(seq(|times|, i requires 0 <= i < |times| => Race(times[i], records[i])))
  }

  function WinsOf(races: seq<Race>): (ws: seq<int>)
    ensures |ws| == |races|
  {
    seq(|races|, i requires 0 <= i < |races| => Wins(races[i]))
  }

  /** `task_1`: the product of the per-race counts. It is never negative,
      and it is 0 exactly when some race cannot be won at all. */
  function Task1(races: seq<Race>): (r: int)
    ensures r >= 0
    ensures r == 0 <==> exists i | 0 <= i < |races| :: Wins(races[i]) == 0
  {
    ProductNonNegative(WinsOf(races));
    ProductOfWinsZero(races);
    Product(WinsOf(races))
  }

  lemma {:induction false} ProductZero(xs: seq<int>)
    ensures Product(xs) == 0 <==> exists i | 0 <= i < |xs| :: xs[i] == 0
  {
    if xs != [] {
      var front := xs[..|xs| - 1];
      ProductZero(front);
      if exists i | 0 <= i < |front| :: front[i] == 0 {
        var i :| 0 <= i < |front| && front[i] == 0;
        assert xs[i] == 0;
      }
      if exists i | 0 <= i < |xs| :: xs[i] == 0 {
        var i :| 0 <= i < |xs| && xs[i] == 0;
        if i < |xs| - 1 {
          assert front[i] == 0;
        }
      }
    }
  }

  /** The product of the counts is 0 exactly when some count is. */
  lemma {:induction false} ProductOfWinsZero(races: seq<Race>)
    ensures Product(WinsOf(races)) == 0 <==> exists i | 0 <= i < |races| :: Wins(races[i]) == 0
  {
    var ws := WinsOf(races);
    ProductZero(ws);
    if exists i | 0 <= i < |ws| :: ws[i] == 0 {
      var i :| 0 <= i < |ws| && ws[i] == 0;
      assert Wins(races[i]) == 0;
    }
    if exists i | 0 <= i < |races| :: Wins(races[i]) == 0 {
      var i :| 0 <= i < |races| && Wins(races[i]) == 0;
      assert ws[i] == 0;
    }
  }

  // ------------------------------------------------------------- part 2

  /** The `format!` fold joining the digit groups of one line. */
  function Concat(groups: seq<string>): string
  {
    if groups == [] then [] else Concat(groups[..|groups| - 1]) + groups[|groups| - 1]
  }

  /** The number written by the groups one after another: each group shifts
      the value so far left by its own length. */
  function Positional(groups: seq<string>): nat
    requires forall i | 0 <= i < |groups| :: AllDecimal(groups[i])
  {
    if groups == [] then 0
    else
      var last := groups[|groups| - 1];
      PowPositive(10, |last|);
      Positional(groups[..|groups| - 1]) * Pow(10, |last|) + DecimalValue(last)
  }

  lemma {:induction false} ConcatDecimal(groups: seq<string>)
    requires forall i | 0 <= i < |groups| :: AllDecimal(groups[i])
    ensures AllDecimal(Concat(groups))
    ensures DecimalValue(Concat(groups)) == Positional(groups)
  {
    if groups != [] {
      var front, last := groups[..|groups| - 1], groups[|groups| - 1];
      ConcatDecimal(front);
      DecimalValueAppend(Concat(front), last);
    }
  }

  /** `parse_single_race`: a line's digit groups (`digit1`, so each is a
      non-empty digit string, and there is at least one) joined and parsed
      as one number. */
  function SingleRace(timeGroups: seq<string>, recordGroups: seq<string>): Option<Race>
  {
    match (ParseNat(Concat(timeGroups)), ParseNat(Concat(recordGroups)))
      case (Some(t), Some(r)) => Some(Race(t, r))
      case _ => None
  }

  /** Parsing always succeeds on digit groups, and reads them as one numeral. */
  lemma {:induction false} SingleRaceJoinsDigits(timeGroups: seq<string>, recordGroups: seq<string>)
    requires |timeGroups| > 0 && forall i | 0 <= i < |timeGroups| :: |timeGroups[i]| > 0 && AllDecimal(timeGroups[i])
    requires |recordGroups| > 0 && forall i | 0 <= i < |recordGroups| :: |recordGroups[i]| > 0 && AllDecimal(recordGroups[i])
    ensures SingleRace(timeGroups, recordGroups) == Some(Race(Positional(timeGroups), Positional(recordGroups)))
  {
    ConcatDecimal(timeGroups);
    ConcatDecimal(recordGroups);
    ConcatNonEmpty(timeGroups);
    ConcatNonEmpty(recordGroups);
  }

  lemma {:induction false} ConcatNonEmpty(groups: seq<string>)
    requires |groups| > 0 && |groups[|groups| - 1]| > 0
    ensures |Concat(groups)| > 0
  {
  }

  /** `task_2`: the count for the single joined race, which is the number
      of its winning hold times. */
  function Task2(race: Race): (r: nat)
    ensures r == |WinningTimes(race)|
  {
    WinsCountsWinningTimes(race);
    Wins(race)
  }

  // ------------------------------------------------- the winning interval

  lemma {:induction false} MulNonNegative(x: int, y: int)
    requires x >= 0 && y >= 0
    ensures x * y >= 0
  {
  }

  /** The distance grows towards the middle: if lo wins, so does every b
      with lo <= b <= time - lo, because
      (time - b) * b - (time - lo) * lo == (b - lo) * (time - lo - b). */
  lemma {:induction false} InnerWins(race: Race, lo: nat, b: nat)
    requires lo <= b <= race.time - lo && CanBeWon(race, lo)
    ensures CanBeWon(race, b)
  {
    var t := race.time;
    assert (t - b) * b - (t - lo) * lo == (b - lo) * (t - lo - b);
    MulNonNegative(b - lo, t - lo - b);
  }

  /** Dually, if c loses, so does every b with b <= c <= time - b. */
  lemma {:induction false} OuterLoses(race: Race, c: nat, b: nat)
    requires b <= c <= race.time - b && !CanBeWon(race, c)
    ensures !CanBeWon(race, b)
  {
    var t := race.time;
    assert (t - c) * c - (t - b) * b == (c - b) * (t - b - c);
    MulNonNegative(c - b, t - b - c);
  }

  /** Hold times in lo..hi-1 that all lose add nothing. */
  lemma {:induction false} AllLose(race: Race, lo: nat, hi: nat)
    requires lo <= hi <= race.time
    requires forall b: nat | lo <= b < hi :: !CanBeWon(race, b)
    ensures WinsFrom(race, lo) == WinsFrom(race, hi)
    decreases hi - lo
  {
    if lo < hi {
      AllLose(race, lo + 1, hi);
    }
  }

  /** Hold times in lo..hi-1 that all win add hi - lo. */
  lemma {:induction false} AllWin(race: Race, lo: nat, hi: nat)
    requires lo <= hi <= race.time
    requires forall b: nat | lo <= b < hi :: CanBeWon(race, b)
    ensures WinsFrom(race, lo) == hi - lo + WinsFrom(race, hi)
    decreases hi - lo
  {
    if lo < hi {
      AllWin(race, lo + 1, hi);
    }
  }

  /** If lo is the shortest winning hold time (and lo <= time / 2), the
      winners are exactly lo..time-lo, so there are time - 2 * lo + 1. */
  lemma {:induction false} WinsInterval(race: Race, lo: nat)
    requires 1 <= lo && 2 * lo <= race.time
    requires CanBeWon(race, lo) && (lo == 1 || !CanBeWon(race, lo - 1))
    ensures Wins(race) == race.time - 2 * lo + 1
  {
    var t := race.time;
    forall b: nat | 1 <= b < lo
      ensures !CanBeWon(race, b)
    {
      OuterLoses(race, lo - 1, b);
    }
    forall b: nat | lo <= b < t - lo + 1
      ensures CanBeWon(race, b)
    {
      InnerWins(race, lo, b);
    }
    forall b: nat | t - lo + 1 <= b < t
      ensures !CanBeWon(race, b)
    {
      OuterLoses(race, lo - 1, t - b);
      WinningTimesSymmetric(race, b);
    }
    AllLose(race, 1, lo);
    AllWin(race, lo, t - lo + 1);
    AllLose(race, t - lo + 1, t);
  }

  // ------------------------------------------------------- worked example

  function ExampleRaces(): seq<Race>
  {
    [Race(7, 9), Race(15, 40), Race(30, 200)]
  }

  /** The three races can be won in 4, 8 and 9 ways; the product is 288. */
  lemma {:induction false} ExamplePart1(races: seq<Race>)
    requires races == ExampleRaces()
    ensures Task1(races) == 288
  {
    WinsInterval(Race(7, 9), 2);
    WinsInterval(Race(15, 40), 4);
    WinsInterval(Race(30, 200), 11);
    var ws := WinsOf(races);
    assert ws[0] == 4 && ws[1] == 8 && ws[2] == 9;
    assert ws[..2][..1][..0] == [];
    assert Product(ws[..2][..1]) == 4;
    assert Product(ws[..2]) == 32;
  }

  /** The digit groups 7 15 30 and 9 40 200 join to 71530 and 940200. */
  lemma {:induction false} ExampleJoin()
    ensures SingleRace(["7", "15", "30"], ["9", "40", "200"]) == Some(Race(71530, 940200))
  {
    var ts, rs := ["7", "15", "30"], ["9", "40", "200"];
    assert ts[..2][..1][..0] == [] && ts[..2][..1] == ["7"] && ts[..2] == ["7", "15"];
    assert rs[..2][..1][..0] == [] && rs[..2][..1] == ["9"] && rs[..2] == ["9", "40"];
    assert DecimalValue("15") == 15 by { assert "15"[..1] == "1"; assert "1"[..0] == ""; }
    assert DecimalValue("30") == 30 by { assert "30"[..1] == "3"; assert "3"[..0] == ""; }
    assert DecimalValue("40") == 40 by { assert "40"[..1] == "4"; assert "4"[..0] == ""; }
    assert DecimalValue("200") == 200 by {
      assert "200"[..2] == "20"; assert "20"[..1] == "2"; assert "2"[..0] == "";
    }
    assert DecimalValue("7") == 7 by { assert "7"[..0] == ""; }
    assert DecimalValue("9") == 9 by { assert "9"[..0] == ""; }
    assert Pow(10, 2) == 100 && Pow(10, 3) == 1000;
    assert Positional(ts[..2][..1]) == 7;
    assert Positional(ts[..2]) == 715;
    assert Positional(ts) == 71530;
    assert Positional(rs[..2][..1]) == 9;
    assert Positional(rs[..2]) == 940;
    assert Positional(rs) == 940200;
    SingleRaceJoinsDigits(ts, rs);
  }

  /** The joined race is won with the holds 14..71516. */
  lemma {:induction false} ExamplePart2()
    ensures Task2(Race(71530, 940200)) == 71503
  {
    WinsInterval(Race(71530, 940200), 14);
  }
}
