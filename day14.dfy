/**
 * Parabolic Reflector Dish (day-14/src/main.rs): a platform of round
 * stones 'O', cube rocks '#' and empty ground '.'. Tilting it north rolls
 * every round stone up its column until it meets a rock, another stone or
 * the edge; the load is the sum, over round stones, of their distance from
 * the south edge. Part 2 spins the platform (tilt and rotate clockwise,
 * four times) until a state repeats, then reads the state after
 * 1 000 000 000 spins off the cycle.
 */
module ParabolicReflectorDish {
  import opened Common

  type Grid = seq<string>

  // ------------------------------------------------------------ one column

  /** Where a stone rolling north over the column t stops: just after the
      last cell of t that is not empty ground. */
  function Settle(t: seq<char>): (s: nat)
    ensures s <= |t|
    ensures forall k | s <= k < |t| :: t[k] == '.'
    ensures s == 0 || t[s - 1] != '.'
  {
    if t == [] || t[|t| - 1] != '.' then |t| else Settle(t[..|t| - 1])
  }

  /** The stop is the only position with the two properties above. */
  lemma {:induction false} SettleUnique(t: seq<char>, k: nat)
    requires k <= |t| && (forall q | k <= q < |t| :: t[q] == '.') && (k == 0 || t[k - 1] != '.')
    ensures k == Settle(t)
  {
  }

  /** The column t with one more stone rolled in from below. */
  function Land(t: seq<char>): (r: seq<char>)
    ensures |r| == |t| + 1
    ensures forall k | 0 <= k < |r| :: r[k] == if k < Settle(t) then t[k] else if k == Settle(t) then 'O' else '.'
  {
    t[..Settle(t)] + ['O'] + t[Settle(t)..]
  }

  /** A column tilted north, its cells taken from north to south as
      `move_stones` takes them. */
  function Tilt(col: seq<char>): (r: seq<char>)
    ensures |r| == |col|
  {
    if col == [] then []
    else if col[|col| - 1] == 'O' then Land(Tilt(col[..|col| - 1]))
    else Tilt(col[..|col| - 1]) + [col[|col| - 1]]
  }

  /** The number of cells of a column holding c. */
  function CountOf(col: seq<char>, c: char): nat
  {
    if col == [] then 0 else CountOf(col[..|col| - 1], c) + (if col[|col| - 1] == c then 1 else 0)
  }

  /** No stone has empty ground directly north of it. */
  predicate Settled(col: seq<char>)
  {
    forall k | 1 <= k < |col| :: col[k] == 'O' ==> col[k - 1] != '.'
  }

  /** Landing a stone keeps every rock, adds one stone and leaves the
      column settled. */
  lemma {:induction false} LandFacts(t: seq<char>)
    requires Settled(t)
    ensures forall k | 0 <= k < |t| :: t[k] == '#' <==> Land(t)[k] == '#'
    ensures Land(t)[|t|] != '#'
    ensures forall c | c != 'O' :: CountOf(Land(t), c) == CountOf(t, c)
    ensures CountOf(Land(t), 'O') == CountOf(t, 'O') + 1
    ensures Settled(Land(t))
  {
    var s := Settle(t);
    var r := Land(t);
    assert r == t[..s] + ['O'] + t[s..];
    forall c | c != 'O'
      ensures CountOf(r, c) == CountOf(t, c)
    {
      CountAppend(t[..s] + ['O'], t[s..], c);
      CountAppend(t[..s], ['O'], c);
      CountAppend(t[..s], t[s..], c);
      assert t == t[..s] + t[s..];
    }
    CountAppend(t[..s] + ['O'], t[s..], 'O');
    CountAppend(t[..s], ['O'], 'O');
    CountAppend(t[..s], t[s..], 'O');
    CountDots(t[s..], 'O');
    assert t == t[..s] + t[s..];
  }

  lemma {:induction false} CountAppend(a: seq<char>, b: seq<char>, c: char)
    ensures CountOf(a + b, c) == CountOf(a, c) + CountOf(b, c)
  {
    if b != [] {
      assert (a + b)[..|a + b| - 1] == a + b[..|b| - 1];
      CountAppend(a, b[..|b| - 1], c);
    } else {
      assert a + b == a;
    }
  }

  lemma {:induction false} CountDots(t: seq<char>, c: char)
    requires c != '.' && forall k | 0 <= k < |t| :: t[k] == '.'
    ensures CountOf(t, c) == 0
  {
    if t != [] {
      CountDots(t[..|t| - 1], c);
    }
  }

  /** Tilting keeps every rock where it is. */
  lemma {:induction false} TiltKeepsRocks(col: seq<char>)
    ensures forall k | 0 <= k < |col| :: col[k] == '#' <==> Tilt(col)[k] == '#'
    ensures Settled(Tilt(col))
  {
    if col != [] {
      var n := |col| - 1;
      TiltKeepsRocks(col[..n]);
      if col[n] == 'O' {
        LandFacts(Tilt(col[..n]));
      }
    }
  }

  /** Tilting keeps the number of stones, and of every other kind of cell. */
  lemma {:induction false} TiltCounts(col: seq<char>, c: char)
    ensures CountOf(Tilt(col), c) == CountOf(col, c)
  {
    if col != [] {
      var n := |col| - 1;
      var t := Tilt(col[..n]);
      TiltCounts(col[..n], c);
      if col[n] == 'O' {
        TiltKeepsRocks(col[..n]);
        LandFacts(t);
      } else {
        assert (t + [col[n]])[..n] == t;
      }
    }
  }

  /** A rock cuts the column in two: the part north of it tilts on its
      own, whatever lies south of the rock. */
  lemma {:induction false} TiltBeforeRock(col: seq<char>, k: nat)
    requires k < |col| && col[k] == '#'
    ensures Tilt(col)[..k] == Tilt(col[..k])
    decreases |col|
  {
    var n := |col| - 1;
    var t := Tilt(col[..n]);
    if n == k {
      assert Tilt(col) == t + ['#'];
    } else {
      assert col[..n][k] == '#' && col[..n][..k] == col[..k];
      TiltBeforeRock(col[..n], k);
      TiltKeepsRocks(col[..n]);
      assert t[k] == '#';
      if col[n] == 'O' {
        assert Settle(t) > k;
        assert Land(t)[..k] == t[..k];
      } else {
        assert (t + [col[n]])[..k] == t[..k];
      }
    }
  }

  /** No stone rolls past a rock: north of every rock the column keeps its
      number of stones. */
  lemma {:induction false} StonesStayBehindRocks(col: seq<char>, k: nat)
    requires k < |col| && col[k] == '#'
    ensures CountOf(Tilt(col)[..k], 'O') == CountOf(col[..k], 'O')
  {
    TiltBeforeRock(col, k);
    TiltCounts(col[..k], 'O');
  }

  /** A settled column does not move. */
  lemma {:induction false} TiltSettled(col: seq<char>)
    requires Settled(col)
    ensures Tilt(col) == col
  {
    if col != [] {
      var n := |col| - 1;
      var front := col[..n];
      assert Settled(front);
      TiltSettled(front);
      if col[n] == 'O' {
        SettleUnique(front, n);
        assert col == front + [col[n]];
      } else {
        assert col == front + [col[n]];
      }
    }
  }

  /** Tilting twice is tilting once. */
  lemma {:induction false} TiltIdempotent(col: seq<char>)
    ensures Tilt(Tilt(col)) == Tilt(col)
  {
    TiltKeepsRocks(col);
    TiltSettled(Tilt(col));
  }

  // ---------------------------------------------------------- the platform

  /** Every row as long as the first. */
  predicate Rectangular(g: Grid)
  {
    forall r | 0 <= r < |g| :: |g[r]| == |g[0]|
  }

  /** Column c of a rectangular grid, north to south. */
  function Col(g: Grid, c: nat): (col: seq<char>)
    requires g != [] && Rectangular(g) && c < |g[0]|
    ensures |col| == |g| && forall r | 0 <= r < |g| :: col[r] == g[r][c]
  {
    seq(|g|, r requires 0 <= r < |g| => g[r][c])
  }

  /** The platform tilted north: every column tilted. */
  function TiltNorth(g: Grid): (t: Grid)
    requires g != [] && Rectangular(g)
    ensures |t| == |g| && t != [] && Rectangular(t) && |t[0]| == |g[0]|
  {
    seq(|g|, r requires 0 <= r < |g| => seq(|g[0]|, c requires 0 <= c < |g[0]| => Tilt(Col(g, c))[r]))
  }

  /** The cells of the matrix, row by row. */
  function Cells(m: array2<char>): (g: Grid)
    reads m
    ensures |g| == m.Length0 && forall r | 0 <= r < |g| :: |g[r]| == m.Length1
    ensures forall r, c | 0 <= r < m.Length0 && 0 <= c < m.Length1 :: g[r][c] == m[r, c]
  {
    seq(m.Length0, r requires 0 <= r < m.Length0 reads m =>
      seq(m.Length1, c requires 0 <= c < m.Length1 reads m => m[r, c]))
  }

  /** Column i of the matrix, north to south. */
  function ColumnOf(m: array2<char>, i: nat): (col: seq<char>)
    requires i < m.Length1
    reads m
    ensures |col| == m.Length0 && forall r | 0 <= r < m.Length0 :: col[r] == m[r, i]
  {
    seq(m.Length0, r requires 0 <= r < m.Length0 reads m => m[r, i])
  }

  /** The inner `while` of `move_stones`: the stone at row j of column i is
      lifted, rolls north over empty ground, and is put down where it
      stops. Rows 0 to j - 1 of the column end up as the stone landed on
      them. */
  method RollStone(m: array2<char>, i: nat, j: nat)
    requires i < m.Length1 && 1 <= j < m.Length0 && m[j, i] == 'O'
    modifies m
    ensures forall r, c | 0 <= r < m.Length0 && 0 <= c < m.Length1 && c != i :: m[r, c] == old(m[r, c])
    ensures forall r | 0 <= r <= j :: m[r, i] == Land(old(ColumnOf(m, i))[..j])[r]
    ensures forall r | j < r < m.Length0 :: m[r, i] == old(m[r, i])
  {
    ghost var t := ColumnOf(m, i)[..j];
    m[j, i] := '.';
    var k := j;
    while m[k - 1, i] == '.'
      invariant 1 <= k <= j
      invariant forall q | k <= q < j :: t[q] == '.'
      modifies {}
      decreases k
    {
      if k == 1 {
        k := 0;
        break;
      }
      k := k - 1;
    }
    SettleUnique(t, k);
    m[k, i] := 'O';
    forall r | 0 <= r <= j
      ensures m[r, i] == Land(t)[r]
    {
      if k < r < j {
        assert m[r, i] == t[r];
      }
    }
  }

  /** One more cell of a column taken into the tilt. */
  lemma {:induction false} TiltSnoc(col: seq<char>, j: nat)
    requires j < |col|
    ensures Tilt(col[..j + 1]) == if col[j] == 'O' then Land(Tilt(col[..j])) else Tilt(col[..j]) + [col[j]]
  {
    assert col[..j + 1][..j] == col[..j];
  }

  /** One pass of the outer `for` of `move_stones`: column i is tilted
      north and nothing else changes. */
  method TiltColumn(m: array2<char>, i: nat)
    requires i < m.Length1 && 1 <= m.Length0
    modifies m
    ensures forall r, c | 0 <= r < m.Length0 && 0 <= c < m.Length1 && c != i :: m[r, c] == old(m[r, c])
    ensures forall r | 0 <= r < m.Length0 :: m[r, i] == Tilt(old(ColumnOf(m, i)))[r]
  {
    ghost var col := ColumnOf(m, i);
    assert col[..1] == [col[0]];
    for j := 1 to m.Length0
      invariant forall r, c | 0 <= r < m.Length0 && 0 <= c < m.Length1 && c != i :: m[r, c] == old(m[r, c])
      invariant forall r | 0 <= r < j :: m[r, i] == Tilt(col[..j])[r]
      invariant forall r | j <= r < m.Length0 :: m[r, i] == col[r]
    {
      TiltStep(m, i, j, col);
    }
    assert col[..m.Length0] == col;
  }

  /** One turn of the outer loop over a column: the cell at row j is taken
      into the tilted part of the column, rolling north if it is a stone. */
  method TiltStep(m: array2<char>, i: nat, j: nat, ghost col: seq<char>)
    requires i < m.Length1 && 1 <= j < m.Length0 && |col| == m.Length0
    requires forall r | 0 <= r < j :: m[r, i] == Tilt(col[..j])[r]
    requires forall r | j <= r < m.Length0 :: m[r, i] == col[r]
    modifies m
    ensures forall r, c | 0 <= r < m.Length0 && 0 <= c < m.Length1 && c != i :: m[r, c] == old(m[r, c])
    ensures forall r | 0 <= r < j + 1 :: m[r, i] == Tilt(col[..j + 1])[r]
    ensures forall r | j + 1 <= r < m.Length0 :: m[r, i] == col[r]
  {
    TiltSnoc(col, j);
    ghost var tilted := Tilt(col[..j]);
    if m[j, i] == 'O' {
      assert ColumnOf(m, i)[..j] == tilted;
      RollStone(m, i, j);
    } else {
      forall r | 0 <= r <= j
        ensures m[r, i] == (tilted + [col[j]])[r]
      {
        if r == j {
          assert m[r, i] == col[j];
        }
      }
    }
  }

  /** `move_stones`: the platform tilted north, in place. */
  method MoveStones(m: array2<char>)
    requires 1 <= m.Length0
    modifies m
    ensures Cells(m) == TiltNorth(old(Cells(m)))
  {
    ghost var g := Cells(m);
    for i := 0 to m.Length1
      invariant forall r, c | 0 <= r < m.Length0 && 0 <= c < m.Length1 ::
        m[r, c] == if c < i then Tilt(Col(g, c))[r] else g[r][c]
    {
      assert ColumnOf(m, i) == Col(g, i);
      TiltColumn(m, i);
    }
    assert forall r | 0 <= r < m.Length0 :: Cells(m)[r] == TiltNorth(g)[r];
  }

  /** Column c of the tilted platform is column c tilted. */
  lemma {:induction false} TiltedColumn(g: Grid, c: nat)
    requires g != [] && Rectangular(g) && c < |g[0]|
    ensures Col(TiltNorth(g), c) == Tilt(Col(g, c))
  {
  }

  /** Tilting the whole platform twice is tilting it once. */
  lemma {:induction false} TiltNorthIdempotent(g: Grid)
    requires g != [] && Rectangular(g)
    ensures TiltNorth(TiltNorth(g)) == TiltNorth(g)
  {
    var t := TiltNorth(g);
    forall c | 0 <= c < |g[0]|
      ensures Tilt(Col(t, c)) == Col(t, c)
    {
      TiltedColumn(g, c);
      TiltIdempotent(Col(g, c));
    }
    forall r | 0 <= r < |g|
      ensures TiltNorth(t)[r] == t[r]
    {
    }
  }

  /** Tilting the platform keeps every rock where it is and the number of
      stones in every column. */
  lemma {:induction false} TiltNorthKeeps(g: Grid)
    requires g != [] && Rectangular(g)
    ensures forall r, c | 0 <= r < |g| && 0 <= c < |g[0]| :: g[r][c] == '#' <==> TiltNorth(g)[r][c] == '#'
    ensures forall c | 0 <= c < |g[0]| :: CountOf(Col(TiltNorth(g), c), 'O') == CountOf(Col(g, c), 'O')
  {
    var t := TiltNorth(g);
    forall c | 0 <= c < |g[0]|
      ensures CountOf(Col(t, c), 'O') == CountOf(Col(g, c), 'O')
    {
      TiltedColumn(g, c);
      TiltCounts(Col(g, c), 'O');
    }
    forall r, c | 0 <= r < |g| && 0 <= c < |g[0]|
      ensures g[r][c] == '#' <==> t[r][c] == '#'
    {
      TiltKeepsRocks(Col(g, c));
      assert t[r][c] == Tilt(Col(g, c))[r];
    }
  }

  // -------------------------------------------------------------- rotation

  /** A square platform, as `rotate_mat` needs. */
  predicate Square(g: Grid)
  {
    g != [] && forall r | 0 <= r < |g| :: |g[r]| == |g|
  }

  /** The platform turned a quarter clockwise: cell (r, c) moves to
      (c, n - 1 - r). */
  function Rotate(g: Grid): (t: Grid)
    requires Square(g)
    ensures Square(t) && |t| == |g|
  {
    seq(|g|, r requires 0 <= r < |g| => seq(|g|, c requires 0 <= c < |g| => g[|g| - 1 - c][r]))
  }

  /** Four quarter turns restore the platform. */
  lemma {:induction false} RotateFour(g: Grid)
    requires Square(g)
    ensures Rotate(Rotate(Rotate(Rotate(g)))) == g
  {
    var n := |g|;
    var twice := Rotate(Rotate(g));
    assert forall r, c | 0 <= r < n && 0 <= c < n :: twice[r][c] == g[n - 1 - r][n - 1 - c];
    var four := Rotate(Rotate(twice));
    assert forall r, c | 0 <= r < n && 0 <= c < n :: four[r][c] == g[r][c];
    assert forall r | 0 <= r < n :: four[r] == g[r];
  }

  /** The first half of `rotate_mat`: the lower triangle, diagonal
      included, is swapped with the upper one, row by row. */
  method Transpose(m: array2<char>)
    requires m.Length0 == m.Length1
    modifies m
    ensures forall r, c | 0 <= r < m.Length0 && 0 <= c < m.Length1 :: m[r, c] == old(m[c, r])
  {
    var n := m.Length0;
    for i := 0 to n
      invariant forall r, c | 0 <= r < n && 0 <= c < n ::
        m[r, c] == if r < i && c < i then old(m[c, r]) else old(m[r, c])
    {
      var j := 0;
      while j < n
        invariant j <= i + 1 && j <= n
        invariant forall r, c | 0 <= r < n && 0 <= c < n ::
          m[r, c] == if (r < i && c < i) || (r == i && c < j) || (c == i && r < j) then old(m[c, r]) else old(m[r, c])
      {
        if j > i {
          break;
        }
        var here, mirrored := m[i, j], m[j, i];
        m[i, j] := mirrored;
        m[j, i] := here;
        j := j + 1;
      }
    }
  }

  /** Row i of the matrix, west to east. */
  function RowOf(m: array2<char>, i: nat): (row: seq<char>)
    requires i < m.Length0
    reads m
    ensures |row| == m.Length1 && forall c | 0 <= c < m.Length1 :: row[c] == m[i, c]
  {
    seq(m.Length1, c requires 0 <= c < m.Length1 reads m => m[i, c])
  }

  /** The second half of `rotate_mat`: every row copied, then written back
      reversed. */
  method ReverseRows(m: array2<char>)
    modifies m
    ensures forall r, c | 0 <= r < m.Length0 && 0 <= c < m.Length1 :: m[r, c] == old(m[r, m.Length1 - 1 - c])
  {
    for i := 0 to m.Length0
      invariant forall r, c | 0 <= r < m.Length0 && 0 <= c < m.Length1 ::
        m[r, c] == if r < i then old(m[r, m.Length1 - 1 - c]) else old(m[r, c])
    {
      var row := RowOf(m, i);
      for j := 0 to m.Length1
        invariant forall r, c | 0 <= r < m.Length0 && 0 <= c < m.Length1 ::
          m[r, c] == if r < i || (r == i && c < j) then old(m[r, m.Length1 - 1 - c]) else old(m[r, c])
      {
        m[i, j] := row[|row| - 1 - j];
      }
    }
  }

  /** `rotate_mat`: a quarter turn clockwise, in place. */
  method RotateMat(m: array2<char>)
    requires 1 <= m.Length0 == m.Length1
    modifies m
    ensures Cells(m) == Rotate(old(Cells(m)))
  {
    ghost var g := Cells(m);
    Transpose(m);
    ReverseRows(m);
    assert forall r | 0 <= r < m.Length0 :: Cells(m)[r] == Rotate(g)[r];
  }

  /** The cells of the platform, row after row. */
  function Flatten(g: Grid): seq<char>
  {
    if g == [] then [] else Flatten(g[..|g| - 1]) + g[|g| - 1]
  }

  /** The cells of the first k columns. */
  function ColumnBag(g: Grid, k: nat): multiset<char>
    requires g != [] && Rectangular(g) && k <= |g[0]|
  {
    if k == 0 then multiset{} else ColumnBag(g, k - 1) + multiset(Col(g, k - 1))
  }

  lemma {:induction false} ColumnBagOneRow(g: Grid, k: nat)
    requires |g| == 1 && k <= |g[0]|
    ensures ColumnBag(g, k) == multiset(g[0][..k])
  {
    if k > 0 {
      var row := g[0];
      ColumnBagOneRow(g, k - 1);
      assert Col(g, k - 1) == [row[k - 1]];
      assert row[..k] == row[..k - 1] + [row[k - 1]];
      assert multiset(row[..k]) == multiset(row[..k - 1]) + multiset{row[k - 1]};
    }
  }

  lemma {:induction false} ColumnBagLastRow(g: Grid, k: nat)
    requires |g| >= 2 && Rectangular(g) && k <= |g[0]|
    ensures ColumnBag(g, k) == ColumnBag(g[..|g| - 1], k) + multiset(g[|g| - 1][..k])
  {
    if k > 0 {
      var n := |g| - 1;
      ColumnBagLastRow(g, k - 1);
      assert Col(g, k - 1) == Col(g[..n], k - 1) + [g[n][k - 1]];
      assert g[n][..k] == g[n][..k - 1] + [g[n][k - 1]];
    }
  }

  /** Gathering the cells column by column gives the cells row by row. */
  lemma {:induction false} RowsAndColumns(g: Grid)
    requires g != [] && Rectangular(g)
    ensures multiset(Flatten(g)) == ColumnBag(g, |g[0]|)
  {
    var w := |g[0]|;
    if |g| == 1 {
      ColumnBagOneRow(g, w);
      assert g[..0] == [];
      assert g[0][..w] == g[0];
    } else {
      var n := |g| - 1;
      RowsAndColumns(g[..n]);
      ColumnBagLastRow(g, w);
      assert g[n][..w] == g[n];
    }
  }

  /** A line and its reversal hold the same cells. */
  lemma {:induction false} ReversalBag(s: seq<char>, t: seq<char>)
    requires |t| == |s| && forall i | 0 <= i < |s| :: t[i] == s[|s| - 1 - i]
    ensures multiset(t) == multiset(s)
  {
    if s != [] {
      var n := |s| - 1;
      ReversalBag(s[1..], t[..n]);
      assert s == [s[0]] + s[1..];
      assert t == t[..n] + [s[0]];
    }
  }

  lemma {:induction false} RotatedRows(g: Grid, k: nat)
    requires Square(g) && k <= |g|
    ensures multiset(Flatten(Rotate(g)[..k])) == ColumnBag(g, k)
  {
    if k > 0 {
      var t := Rotate(g);
      RotatedRows(g, k - 1);
      assert t[..k][..k - 1] == t[..k - 1];
      ReversalBag(Col(g, k - 1), t[k - 1]);
    }
  }

  /** A quarter turn moves cells but keeps every one of them. */
  lemma {:induction false} RotateKeepsCells(g: Grid)
    requires Square(g)
    ensures multiset(Flatten(Rotate(g))) == multiset(Flatten(g))
  {
    RotatedRows(g, |g|);
    assert Rotate(g)[..|g|] == Rotate(g);
    RowsAndColumns(g);
  }

  // ------------------------------------------------------------------ load

  /** The load of rows 0 to k - 1: a stone in row r weighs |g| - r, its
      distance from the south edge. */
  function LoadUpTo(g: Grid, k: nat): nat
    requires k <= |g|
  {
    if k == 0 then 0 else LoadUpTo(g, k - 1) + (|g| - (k - 1)) * CountOf(g[k - 1], 'O')
  }

  /** The load on the north support beams. */
  function LoadOf(g: Grid): nat
  {
    LoadUpTo(g, |g|)
  }

  /** The load loop: rows from north to south, the weight counting down. */
  method Load(g: Grid) returns (res: nat)
    ensures res == LoadOf(g)
  {
    res := 0;
    var i := |g|;
    while i > 0
      invariant 0 <= i <= |g|
      invariant res == LoadUpTo(g, |g| - i)
    {
      i := i - 1;
      var row := g[|g| - 1 - i];
      ghost var k := |g| - 1 - i;
      assert LoadUpTo(g, k + 1) == LoadUpTo(g, k) + (i + 1) * CountOf(row, 'O');
      res := res + (i + 1) * CountOf(row, 'O');
    }
  }

  /** Each stone of a row, counted with weight w. */
  function StoneWeights(row: seq<char>, w: nat): nat
  {
    if row == [] then 0 else StoneWeights(row[..|row| - 1], w) + (if row[|row| - 1] == 'O' then w else 0)
  }

  lemma {:induction false} RowWeight(row: seq<char>, w: nat)
    ensures StoneWeights(row, w) == w * CountOf(row, 'O')
  {
    if row != [] {
      RowWeight(row[..|row| - 1], w);
      var a := CountOf(row[..|row| - 1], 'O');
      assert w * (a + 1) == w * a + w;
    }
  }

  /** The load stone by stone, rows 0 to k - 1. */
  function StoneLoad(g: Grid, k: nat): nat
    requires k <= |g|
  {
    if k == 0 then 0 else StoneLoad(g, k - 1) + StoneWeights(g[k - 1], |g| - (k - 1))
  }

  /** The load is the distance of every stone from the south edge, summed. */
  lemma {:induction false} LoadByStones(g: Grid, k: nat)
    requires k <= |g|
    ensures LoadUpTo(g, k) == StoneLoad(g, k)
  {
    if k > 0 {
      LoadByStones(g, k - 1);
      RowWeight(g[k - 1], |g| - (k - 1));
    }
  }

  /** `task_1`: the load after one tilt north. */
  method Task1(m: array2<char>) returns (load: nat)
    requires 1 <= m.Length0
    modifies m
    ensures load == LoadOf(TiltNorth(old(Cells(m))))
  {
    MoveStones(m);
    load := Load(Cells(m));
  }

  // ---------------------------------------------------------------- cycles

  /** One `move_stones` followed by one `rotate_mat`. */
  function Spin(g: Grid): (t: Grid)
    requires Square(g)
    ensures Square(t) && |t| == |g|
  {
    Rotate(TiltNorth(g))
  }

  function SpinTimes(g: Grid, k: nat): (t: Grid)
    requires Square(g)
    ensures Square(t) && |t| == |g|
  {
    if k == 0 then g else Spin(SpinTimes(g, k - 1))
  }

  /** A spin cycle: north, west, south and east in turn, which is four
      tilts north each followed by a quarter turn. */
  function Cycle(g: Grid): (t: Grid)
    requires Square(g)
    ensures Square(t) && |t| == |g|
  {
    SpinTimes(g, 4)
  }

  /** One spin cycle, for any platform: one that is not square, which
      `rotate_mat` cannot turn, is left as it is. */
  function CycleStep(g: Grid): Grid
  {
    if Square(g) then Cycle(g) else g
  }

  /** x after k applications of f. */
  function Iterate<T>(f: T -> T, x: T, k: nat): T
  {
    if k == 0 then x else f(Iterate(f, x, k - 1))
  }

  /** The platform after k spin cycles. */
  function Cycles(g: Grid, k: nat): Grid
  {
    Iterate(CycleStep, g, k)
  }

  lemma {:induction false} IterateAdd<T>(f: T -> T, x: T, a: nat, b: nat)
    ensures Iterate(f, x, a + b) == Iterate(f, Iterate(f, x, a), b)
  {
    if b > 0 {
      IterateAdd(f, x, a, b - 1);
    }
  }

  /** A repeat after s steps with period p is a repeat after any k >= s. */
  lemma {:induction false} RepeatLater<T>(f: T -> T, x: T, s: nat, p: nat, k: nat)
    requires Iterate(f, x, s + p) == Iterate(f, x, s) && k >= s
    ensures Iterate(f, x, k + p) == Iterate(f, x, k)
  {
    var later := k - s;
    IterateAdd(f, x, s + p, later);
    IterateAdd(f, x, s, later);
    assert s + p + later == k + p && s + later == k;
  }

  /** Once the state after s + p steps repeats the state after s, every
      later state repeats with period p. */
  lemma {:induction false} Periodic<T>(f: T -> T, x: T, s: nat, p: nat, n: nat)
    requires p >= 1 && Iterate(f, x, s + p) == Iterate(f, x, s) && n >= s
    ensures Iterate(f, x, n) == Iterate(f, x, s + (n - s) % p)
    decreases n
  {
    if n < s + p {
      ModSmall(n - s, p);
    } else {
      ModShift(n - s, p);
      var k := n - p;
      assert (k - s) % p == (n - s) % p;
      Periodic(f, x, s, p, k);
      RepeatLater(f, x, s, p, k);
    }
  }

  lemma {:induction false} ModSmall(x: nat, p: nat)
    requires x < p
    ensures x % p == x
  {
    var q, r := x / p, x % p;
    assert x == q * p + r;
    if q >= 1 {
      MulAtLeast(q, p);
    }
  }

  lemma {:induction false} MulAtLeast(d: int, p: int)
    requires d >= 1 && p >= 1
    ensures d * p >= p
  {
    if d > 1 {
      MulAtLeast(d - 1, p);
      assert d * p == (d - 1) * p + p;
    }
  }

  /** Taking one period off does not change the remainder. */
  lemma {:induction false} ModShift(x: nat, p: nat)
    requires 1 <= p <= x
    ensures (x - p) % p == x % p
  {
    var q1, r1 := x / p, x % p;
    var q2, r2 := (x - p) / p, (x - p) % p;
    assert x == q1 * p + r1;
    assert x - p == q2 * p + r2;
    var d := q1 - 1 - q2;
    assert d * p == q1 * p - p - q2 * p;
    assert d * p == r2 - r1;
    if d >= 1 {
      MulAtLeast(d, p);
    }
  }

  /** The `for _ in 0..4` of `task_2`: one spin cycle, in place. */
  method SpinCycle(m: array2<char>)
    requires 1 <= m.Length0 == m.Length1
    modifies m
    ensures Cells(m) == Cycle(old(Cells(m)))
  {
    ghost var before := Cells(m);
    for turn := 0 to 4
      invariant Cells(m) == SpinTimes(before, turn)
    {
      MoveStones(m);
      RotateMat(m);
    }
  }

  /** `seen_states.iter().position(|x| x == &mat)`. */
  method Position(seen: seq<Grid>, g: Grid) returns (index: Option<nat>)
    ensures index.Some? ==> index.value < |seen| && seen[index.value] == g
    ensures index.Some? ==> forall k | 0 <= k < index.value :: seen[k] != g
    ensures index.None? <==> g !in seen
  {
    var k := 0;
    while k < |seen|
      invariant k <= |seen|
      invariant forall q | 0 <= q < k :: seen[q] != g
    {
      if seen[k] == g {
        return Some(k);
      }
      k := k + 1;
    }
    return None;
  }

  /** The states after 0, 1, ..., n cycles. */
  function Trace(g: Grid, n: nat): (states: seq<Grid>)
    ensures |states| == n + 1
  {
    if n == 0 then [g] else Trace(g, n - 1) + [Cycles(g, n)]
  }

  lemma {:induction false} TraceAt(g: Grid, n: nat, k: nat)
    requires k <= n
    ensures Trace(g, n)[k] == Cycles(g, k)
  {
    if k < n {
      TraceAt(g, n - 1, k);
    }
  }

  const Billion: nat := 1_000_000_000

  /** The end of `task_2`, once the state after `rounds + 1` cycles turned
      out to be the one seen after `start`: the state the billionth cycle
      reaches is read off the cycle, and its load computed. */
  method LoadOnCycle(ghost g: Grid, seen: seq<Grid>, rounds: nat, start: nat) returns (load: nat)
    requires seen == Trace(g, rounds) && start <= rounds < Billion
    requires Cycles(g, rounds + 1) == Cycles(g, start)
    ensures load == LoadOf(Cycles(g, Billion))
  {
    var cycleLength := |seen| - start;
    var final := start + (Billion - start) % cycleLength;
    TraceAt(g, rounds, final);
    Periodic(CycleStep, g, start, cycleLength, Billion);
    load := Load(seen[final]);
  }

  /** `task_2`: spin cycles until a state repeats, then the load of the
      state the billionth cycle reaches on that cycle. The source loops
      until the repeat; here at most `fuel` cycles are run. */
  method Task2(m: array2<char>, fuel: nat) returns (load: Option<nat>)
    requires 1 <= m.Length0 == m.Length1 && fuel <= Billion
    modifies m
    ensures load.Some? ==> load.value == LoadOf(Cycles(old(Cells(m)), Billion))
    ensures load.None? ==> forall a, b | 0 <= a < b <= fuel :: Cycles(old(Cells(m)), a) != Cycles(old(Cells(m)), b)
  {
    ghost var g := Cells(m);
    assert Square(g);
    var seen := [Cells(m)];
    var rounds := 0;
    while rounds < fuel
      invariant rounds <= fuel && |seen| == rounds + 1
      invariant seen == Trace(g, rounds)
      invariant Cells(m) == Cycles(g, rounds)
      invariant forall a, b | 0 <= a < b < |seen| :: seen[a] != seen[b]
    {
      SpinCycle(m);
      var state := Cells(m);
      assert state == Cycles(g, rounds + 1);
      var index := Position(seen, state);
      if index.Some? {
        TraceAt(g, rounds, index.value);
        var res := LoadOnCycle(g, seen, rounds, index.value);
        return Some(res);
      }
      seen := seen + [state];
      rounds := rounds + 1;
    }
    load := None;
    forall a, b | 0 <= a < b <= fuel
      ensures Cycles(g, a) != Cycles(g, b)
    {
      TraceAt(g, fuel, a);
      TraceAt(g, fuel, b);
    }
  }
}
