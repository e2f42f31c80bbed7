/**
 * Cube Conundrum (day-02/src/main.rs): games of draws of coloured cubes.
 * The text of a game is taken as already tokenised: a game id and, per
 * draw, its "count colour" mentions in order.
 */
module CubeConundrum {

  /** One "count colour" mention inside a draw. */
  datatype Mention = Mention(count: nat, colour: string)

  type Draw = seq<Mention>

  datatype Game = Game(id: nat, draws: seq<Draw>)

  /** A (red, green, blue) tuple of cube counts. */
  datatype Cubes = Cubes(red: nat, green: nat, blue: nat)

  /** The bag of part 1: 12 red, 13 green and 14 blue cubes. */
  const Bag := Cubes(12, 13, 14)

  // ------------------------------------------------------------ part 1

  /** The tuple after one mention: a known colour is overwritten, any other
      colour word leaves the tuple as it is. */
  function Record(res: Cubes, m: Mention): Cubes
  {
    if m.colour == "red" then res.(red := m.count)
    else if m.colour == "green" then res.(green := m.count)
    else if m.colour == "blue" then res.(blue := m.count)
    else res
  }

  /** The tuple a draw leaves, starting from (0, 0, 0). */
  function Tally(draw: Draw): Cubes
  {
    if draw == [] then Cubes(0, 0, 0) else Record(Tally(draw[..|draw| - 1]), draw[|draw| - 1])
  }

  /** The count of the last mention of a colour in the draw, 0 if none. */
  function LastCount(draw: Draw, colour: string): nat
  {
    if draw == [] then 0
    else if draw[|draw| - 1].colour == colour then draw[|draw| - 1].count
    else LastCount(draw[..|draw| - 1], colour)
  }

  /** Each colour of the tally is its last mention: later mentions overwrite
      earlier ones and a colour not mentioned counts 0. */
  lemma {:induction false} TallyIsLastMention(draw: Draw)
    ensures Tally(draw) == Cubes(LastCount(draw, "red"), LastCount(draw, "green"), LastCount(draw, "blue"))
  {
    if draw != [] {
      TallyIsLastMention(draw[..|draw| - 1]);
    }
  }

  /** A mention of any other colour word is ignored. */
  lemma {:induction false} UnknownColourIgnored(draw: Draw, m: Mention)
    requires m.colour != "red" && m.colour != "green" && m.colour != "blue"
    ensures Tally(draw + [m]) == Tally(draw)
  {
    assert (draw + [m])[..|draw|] == draw;
  }

  /** The per-draw loop over the mentions, as the source updates `res`. */
  method DrawTotals(draw: Draw) returns (res: Cubes)
    ensures res == Tally(draw)
  {
    res := Cubes(0, 0, 0);
    for k := 0 to |draw|
      invariant res == Tally(draw[..k])
    {
      assert draw[..k + 1][..k] == draw[..k];
      var m := draw[k];
      if m.colour == "red" {
        res := res.(red := m.count);
      } else if m.colour == "green" {
        res := res.(green := m.count);
      } else if m.colour == "blue" {
        res := res.(blue := m.count);
      }
    }
    assert draw[..|draw|] == draw;
  }

  predicate Possible(c: Cubes)
  {
    c.red <= Bag.red && c.green <= Bag.green && c.blue <= Bag.blue
  }

  predicate GamePossible(g: Game)
  {
    forall k | 0 <= k < |g.draws| :: Possible(Tally(g.draws[k]))
  }

  /** A game adds its id when every draw is possible, 0 otherwise. */
  function GameValue(g: Game): (v: nat)
    ensures GamePossible(g) ==> v == g.id
    ensures !GamePossible(g) ==> v == 0
  {
    if GamePossible(g) then g.id else 0
  }

  /** Part 1: every possible game's id counts towards the sum, and the sum
      is 0 exactly when each game is impossible or has id 0. */
  function Task1(games: seq<Game>): (r: nat)
    ensures forall k | 0 <= k < |games| && GamePossible(games[k]) :: games[k].id <= r
    ensures r == 0 <==> forall k | 0 <= k < |games| :: !GamePossible(games[k]) || games[k].id == 0
  {
    if games == [] then 0 else Task1(games[..|games| - 1]) + GameValue(games[|games| - 1])
  }

  /** A game is possible exactly when, in every draw, the last mention of
      each colour is within the bag. */
  lemma {:induction false} PossibleByMentions(g: Game)
    ensures GamePossible(g) <==> forall k | 0 <= k < |g.draws| ::
      LastCount(g.draws[k], "red") <= 12 && LastCount(g.draws[k], "green") <= 13 && LastCount(g.draws[k], "blue") <= 14
  {
    forall k | 0 <= k < |g.draws| {
      TallyIsLastMention(g.draws[k]);
    }
  }

  // ------------------------------------------------------------ part 2

  /** All mentions of all draws, in order. */
  function Flatten(draws: seq<Draw>): seq<Mention>
  {
    if draws == [] then [] else Flatten(draws[..|draws| - 1]) + draws[|draws| - 1]
  }

  /** The running minimum after one mention: a known colour grows to the
      mentioned count when that is larger. */
  function Raise(c: Cubes, m: Mention): (r: Cubes)
    ensures r.red >= c.red && r.green >= c.green && r.blue >= c.blue
  {
    if m.colour == "red" then (if m.count > c.red then c.(red := m.count) else c)
    else if m.colour == "green" then (if m.count > c.green then c.(green := m.count) else c)
    else if m.colour == "blue" then (if m.count > c.blue then c.(blue := m.count) else c)
    else c
  }

  /** The running minimum after a sequence of mentions, starting from c. */
  function RaiseAll(c: Cubes, ms: seq<Mention>): Cubes
  {
    if ms == [] then c else Raise(RaiseAll(c, ms[..|ms| - 1]), ms[|ms| - 1])
  }

  /** `min_cubes` after all draws of a game, draw by draw. */
  function MinOver(draws: seq<Draw>): Cubes
  {
    if draws == [] then Cubes(0, 0, 0) else RaiseAll(MinOver(draws[..|draws| - 1]), draws[|draws| - 1])
  }

  lemma {:induction false} RaiseAllAppend(c: Cubes, a: seq<Mention>, b: seq<Mention>)
    ensures RaiseAll(c, a + b) == RaiseAll(RaiseAll(c, a), b)
  {
    if b == [] {
      assert a + b == a;
    } else {
      assert (a + b)[..|a + b| - 1] == a + b[..|b| - 1];
      RaiseAllAppend(c, a, b[..|b| - 1]);
    }
  }

  /** Scanning draw by draw is scanning all mentions in one go. */
  lemma {:induction false} MinOverFlatten(draws: seq<Draw>)
    ensures MinOver(draws) == RaiseAll(Cubes(0, 0, 0), Flatten(draws))
  {
    if draws != [] {
      var init := draws[..|draws| - 1];
      MinOverFlatten(init);
      RaiseAllAppend(Cubes(0, 0, 0), Flatten(init), draws[|draws| - 1]);
    }
  }

  /** The largest count mentioned for a colour, 0 if it is never mentioned. */
  function MaxCount(ms: seq<Mention>, colour: string): nat
  {
    if ms == [] then 0
    else
      var rest := MaxCount(ms[..|ms| - 1], colour);
      if ms[|ms| - 1].colour == colour && ms[|ms| - 1].count > rest then ms[|ms| - 1].count else rest
  }

  /** MaxCount is the maximum: no mention exceeds it, and unless it is 0 some
      mention of the colour reaches it. */
  lemma {:induction false} MaxCountIsMaximum(ms: seq<Mention>, colour: string)
    ensures forall k | 0 <= k < |ms| && ms[k].colour == colour :: ms[k].count <= MaxCount(ms, colour)
    ensures MaxCount(ms, colour) == 0 || exists k | 0 <= k < |ms| :: ms[k].colour == colour && ms[k].count == MaxCount(ms, colour)
  {
    if ms != [] {
      var init := ms[..|ms| - 1];
      MaxCountIsMaximum(init, colour);
      if MaxCount(ms, colour) == MaxCount(init, colour) && MaxCount(ms, colour) != 0 {
        var k :| 0 <= k < |init| && init[k].colour == colour && init[k].count == MaxCount(init, colour);
        assert ms[k] == init[k];
      }
    }
  }

  /** From (0, 0, 0) the running tuple holds, per colour, the largest count
      seen so far. */
  lemma {:induction false} RaiseAllIsMax(ms: seq<Mention>)
    ensures RaiseAll(Cubes(0, 0, 0), ms) == Cubes(MaxCount(ms, "red"), MaxCount(ms, "green"), MaxCount(ms, "blue"))
  {
    if ms != [] {
      RaiseAllIsMax(ms[..|ms| - 1]);
    }
  }

  /** The fewest cubes of a game are, per colour, the largest count any of
      its draws shows. */
  lemma {:induction false} MinOverIsMax(draws: seq<Draw>)
    ensures MinOver(draws) == Cubes(MaxCount(Flatten(draws), "red"), MaxCount(Flatten(draws), "green"), MaxCount(Flatten(draws), "blue"))
  {
    MinOverFlatten(draws);
    RaiseAllIsMax(Flatten(draws));
  }

  /** Scanning more mentions never lowers the running minimum. */
  lemma {:induction false} RaiseAllMonotone(c: Cubes, ms: seq<Mention>)
    ensures c.red <= RaiseAll(c, ms).red && c.green <= RaiseAll(c, ms).green && c.blue <= RaiseAll(c, ms).blue
  {
    if ms != [] {
      RaiseAllMonotone(c, ms[..|ms| - 1]);
    }
  }

  /** The inner loop: one draw's mentions raise the running minimum. */
  method ScanDraw(start: Cubes, draw: Draw) returns (min: Cubes)
    ensures min == RaiseAll(start, draw)
  {
    min := start;
    for j := 0 to |draw|
      invariant min == RaiseAll(start, draw[..j])
    {
      assert draw[..j + 1][..j] == draw[..j];
      var m := draw[j];
      if m.colour == "red" {
        if m.count > min.red {
          min := min.(red := m.count);
        }
      } else if m.colour == "green" {
        if m.count > min.green {
          min := min.(green := m.count);
        }
      } else if m.colour == "blue" {
        if m.count > min.blue {
          min := min.(blue := m.count);
        }
      }
    }
    assert draw[..|draw|] == draw;
  }

  /** Part 2's loop over the draws of one game. */
  method MinCubes(g: Game) returns (min: Cubes)
    ensures min == MinOver(g.draws)
  {
    min := Cubes(0, 0, 0);
    for i := 0 to |g.draws|
      invariant min == MinOver(g.draws[..i])
    {
      assert g.draws[..i + 1][..i] == g.draws[..i];
      min := ScanDraw(min, g.draws[i]);
    }
    assert g.draws[..|g.draws|] == g.draws;
  }

  function Power(c: Cubes): nat
  {
    c.red * c.green * c.blue
  }

  function GamePower(g: Game): nat
  {
    Power(MinOver(g.draws))
  }

  /** A game that never shows some colour has power 0. */
  lemma {:induction false} MissingColourPowerZero(g: Game, colour: string)
    requires colour == "red" || colour == "green" || colour == "blue"
    requires forall k | 0 <= k < |Flatten(g.draws)| :: Flatten(g.draws)[k].colour != colour
    ensures GamePower(g) == 0
  {
    MinOverIsMax(g.draws);
    MaxCountIsMaximum(Flatten(g.draws), colour);
  }

  /** Part 2: no game's power exceeds the sum, and the sum is 0 exactly
      when every game has power 0. */
  function Task2(games: seq<Game>): (r: nat)
    ensures forall k | 0 <= k < |games| :: GamePower(games[k]) <= r
    ensures r == 0 <==> forall k | 0 <= k < |games| :: GamePower(games[k]) == 0
  {
    if games == [] then 0 else Task2(games[..|games| - 1]) + GamePower(games[|games| - 1])
  }

  /** Part 2 as the fold over the games. */
  method SumPowers(games: seq<Game>) returns (acc: nat)
    ensures acc == Task2(games)
  {
    acc := 0;
    for k := 0 to |games|
      invariant acc == Task2(games[..k])
    {
      assert games[..k + 1][..k] == games[..k];
      var min := MinCubes(games[k]);
      acc := acc + Power(min);
    }
    assert games[..|games|] == games;
  }

  // ------------------------------------------------------ worked example

  lemma {:induction false} TallyOfTwo(a: Mention, b: Mention)
    ensures Tally([a, b]) == Record(Record(Cubes(0, 0, 0), a), b)
  {
    assert [a, b][..1] == [a];
    TallyOfOne(a);
  }

  lemma {:induction false} TallyOfThree(a: Mention, b: Mention, c: Mention)
    ensures Tally([a, b, c]) == Record(Record(Record(Cubes(0, 0, 0), a), b), c)
  {
    assert [a, b, c][..2] == [a, b];
    TallyOfTwo(a, b);
  }

  lemma {:induction false} RaiseAllOfTwo(s: Cubes, a: Mention, b: Mention)
    ensures RaiseAll(s, [a, b]) == Raise(Raise(s, a), b)
  {
    assert [a, b][..1] == [a];
    RaiseAllOfOne(s, a);
  }

  lemma {:induction false} RaiseAllOfThree(s: Cubes, a: Mention, b: Mention, c: Mention)
    ensures RaiseAll(s, [a, b, c]) == Raise(Raise(Raise(s, a), b), c)
  {
    assert [a, b, c][..2] == [a, b];
    RaiseAllOfTwo(s, a, b);
  }

  lemma {:induction false} MinOverOfThree(d0: Draw, d1: Draw, d2: Draw)
    ensures MinOver([d0, d1, d2]) == RaiseAll(RaiseAll(RaiseAll(Cubes(0, 0, 0), d0), d1), d2)
  {
    assert [d0, d1, d2][..2] == [d0, d1];
    MinOverOfTwo(d0, d1);
  }

  lemma {:induction false} MinOverOfTwo(d0: Draw, d1: Draw)
    ensures MinOver([d0, d1]) == RaiseAll(RaiseAll(Cubes(0, 0, 0), d0), d1)
  {
    assert [d0, d1][..1] == [d0];
    var empty: seq<Draw> := [];
    assert [d0][..0] == empty;
    assert MinOver([d0]) == RaiseAll(MinOver(empty), d0);
  }

  lemma {:induction false} TallyOfOne(a: Mention)
    ensures Tally([a]) == Record(Cubes(0, 0, 0), a)
  {
    var empty: Draw := [];
    assert [a][..0] == empty;
  }

  lemma {:induction false} RaiseAllOfOne(s: Cubes, a: Mention)
    ensures RaiseAll(s, [a]) == Raise(s, a)
  {
    var empty: seq<Mention> := [];
    assert [a][..0] == empty;
  }

  lemma {:induction false} TotalsOfFive(gs: seq<Game>)
    requires |gs| == 5
    ensures Task1(gs) == GameValue(gs[0]) + GameValue(gs[1]) + GameValue(gs[2]) + GameValue(gs[3]) + GameValue(gs[4])
    ensures Task2(gs) == GamePower(gs[0]) + GamePower(gs[1]) + GamePower(gs[2]) + GamePower(gs[3]) + GamePower(gs[4])
  {
    var empty: seq<Game> := [];
    assert gs[..1][..0] == empty;
    assert Task1(gs[..1]) == GameValue(gs[0]) && Task2(gs[..1]) == GamePower(gs[0]);
    assert gs[..2][..1] == gs[..1];
    assert Task1(gs[..2]) == Task1(gs[..1]) + GameValue(gs[1]) && Task2(gs[..2]) == Task2(gs[..1]) + GamePower(gs[1]);
    assert gs[..3][..2] == gs[..2];
    assert Task1(gs[..3]) == Task1(gs[..2]) + GameValue(gs[2]) && Task2(gs[..3]) == Task2(gs[..2]) + GamePower(gs[2]);
    assert gs[..4][..3] == gs[..3];
    assert Task1(gs[..4]) == Task1(gs[..3]) + GameValue(gs[3]) && Task2(gs[..4]) == Task2(gs[..3]) + GamePower(gs[3]);
    assert gs[..4] == gs[..|gs| - 1];
  }

  function R(n: nat): Mention { Mention(n, "red") }
  function G(n: nat): Mention { Mention(n, "green") }
  function B(n: nat): Mention { Mention(n, "blue") }

  /** The five games of the worked example. */
  function ExampleGames(): seq<Game>
  {
    [ Game(1, [[B(3), R(4)], [R(1), G(2), B(6)], [G(2)]]),
      Game(2, [[B(1), G(2)], [G(3), B(4), R(1)], [G(1), B(1)]]),
      Game(3, [[G(8), B(6), R(20)], [B(5), R(4), G(13)], [G(5), R(1)]]),
      Game(4, [[G(1), R(3), B(6)], [G(3), R(6)], [G(3), B(15), R(14)]]),
      Game(5, [[R(6), B(1), G(3)], [B(2), R(1), G(2)]]) ]
  }

  lemma {:induction false} FirstGame()
    ensures GameValue(ExampleGames()[0]) == 1 && GamePower(ExampleGames()[0]) == 48
  {
    var g := ExampleGames()[0];
    assert g.draws == [[B(3), R(4)], [R(1), G(2), B(6)], [G(2)]];
    TallyOfTwo(B(3), R(4));
    TallyOfThree(R(1), G(2), B(6));
    TallyOfOne(G(2));
    MinOverOfThree(g.draws[0], g.draws[1], g.draws[2]);
    RaiseAllOfTwo(Cubes(0, 0, 0), B(3), R(4));
    RaiseAllOfThree(Cubes(4, 0, 3), R(1), G(2), B(6));
    RaiseAllOfOne(Cubes(4, 2, 6), G(2));
  }

  lemma {:induction false} SecondGame()
    ensures GameValue(ExampleGames()[1]) == 2 && GamePower(ExampleGames()[1]) == 12
  {
    var g := ExampleGames()[1];
    assert g.draws == [[B(1), G(2)], [G(3), B(4), R(1)], [G(1), B(1)]];
    TallyOfTwo(B(1), G(2));
    TallyOfThree(G(3), B(4), R(1));
    TallyOfTwo(G(1), B(1));
    MinOverOfThree(g.draws[0], g.draws[1], g.draws[2]);
    RaiseAllOfTwo(Cubes(0, 0, 0), B(1), G(2));
    RaiseAllOfThree(Cubes(0, 2, 1), G(3), B(4), R(1));
    RaiseAllOfTwo(Cubes(1, 3, 4), G(1), B(1));
  }

  lemma {:induction false} ThirdGame()
    ensures GameValue(ExampleGames()[2]) == 0 && GamePower(ExampleGames()[2]) == 1560
  {
    var g := ExampleGames()[2];
    assert g.draws == [[G(8), B(6), R(20)], [B(5), R(4), G(13)], [G(5), R(1)]];
    TallyOfThree(G(8), B(6), R(20));
    assert !Possible(Tally(g.draws[0]));
    MinOverOfThree(g.draws[0], g.draws[1], g.draws[2]);
    RaiseAllOfThree(Cubes(0, 0, 0), G(8), B(6), R(20));
    RaiseAllOfThree(Cubes(20, 8, 6), B(5), R(4), G(13));
    RaiseAllOfTwo(Cubes(20, 13, 6), G(5), R(1));
  }

  lemma {:induction false} FourthGame()
    ensures GameValue(ExampleGames()[3]) == 0 && GamePower(ExampleGames()[3]) == 630
  {
    var g := ExampleGames()[3];
    assert g.draws == [[G(1), R(3), B(6)], [G(3), R(6)], [G(3), B(15), R(14)]];
    TallyOfThree(G(3), B(15), R(14));
    assert !Possible(Tally(g.draws[2]));
    MinOverOfThree(g.draws[0], g.draws[1], g.draws[2]);
    RaiseAllOfThree(Cubes(0, 0, 0), G(1), R(3), B(6));
    RaiseAllOfTwo(Cubes(3, 1, 6), G(3), R(6));
    RaiseAllOfThree(Cubes(6, 3, 6), G(3), B(15), R(14));
  }

  lemma {:induction false} FifthGame()
    ensures GameValue(ExampleGames()[4]) == 5 && GamePower(ExampleGames()[4]) == 36
  {
    var g := ExampleGames()[4];
    assert g.draws == [[R(6), B(1), G(3)], [B(2), R(1), G(2)]];
    TallyOfThree(R(6), B(1), G(3));
    TallyOfThree(B(2), R(1), G(2));
    MinOverOfTwo(g.draws[0], g.draws[1]);
    RaiseAllOfThree(Cubes(0, 0, 0), R(6), B(1), G(3));
    RaiseAllOfThree(Cubes(6, 3, 1), B(2), R(1), G(2));
  }

  /** The worked example: games 1, 2 and 5 are possible (8), and the powers
      48, 12, 1560, 630 and 36 add up to 2286. */
  lemma {:induction false} Example()
    ensures Task1(ExampleGames()) == 8
    ensures Task2(ExampleGames()) == 2286
  {
    FirstGame();
    SecondGame();
    ThirdGame();
    FourthGame();
    FifthGame();
    TotalsOfFive(ExampleGames());
  }
}
