/**
 * Cosmic Expansion (day-11/src/main.rs): a grid of galaxies and empty
 * space. Every row and every column whose cells are all equal is doubled
 * (part 1, in place) or counted as `factor` rows or columns (part 2, by
 * shifting coordinates), and the answer is the sum of the Manhattan
 * distances between all unordered pairs of galaxies.
 */
module CosmicExpansion {
  import opened Common

  datatype Field = Galaxy | Empty

  /** A position: x is the column, y the row. */
  datatype Pos = Pos(x: int, y: int)

  /** The rows of the map; rows need not all have the same length. */
  type Grid = seq<seq<Field>>

  /** `Map::get`: the field at p, None for a negative coordinate or a
      position outside the grid. */
  function Get(g: Grid, p: Pos): (r: Option<Field>)
    ensures r.Some? <==> 0 <= p.y < |g| && 0 <= p.x < |g[p.y]|
    ensures r.Some? ==> r.value == g[p.y][p.x]
  {
    if p.x < 0 || p.y < 0 then None
    else if p.y < |g| && p.x < |g[p.y]| then Some(g[p.y][p.x])
    else None
  }

  /** `itertools::all_equal`: true for the empty sequence. */
  predicate AllEqual(s: seq<Field>)
  {
    forall k | 0 <= k < |s| :: s[k] == s[0]
  }

  /** A row or column made only of galaxies counts as all equal too. */
  lemma {:induction false} AllGalaxiesAllEqual(s: seq<Field>)
    requires forall k | 0 <= k < |s| :: s[k] == Galaxy
    ensures AllEqual(s)
  {
  }

  // ------------------------------------------------------------- columns

  /** Column i of g, present when every row is long enough. */
  function Column(g: Grid, i: nat): Option<seq<Field>>
  {
    if forall k | 0 <= k < |g| :: i < |g[k]| then Some(seq(|g|, k requires 0 <= k < |g| => g[k][i]))
    else None
  }

  /** `get_col`: collects column i row by row and gives up at the first row
      that is too short. */
  method GetCol(g: Grid, i: nat) returns (col: Option<seq<Field>>)
    ensures col == Column(g, i)
  {
    var cells: seq<Field> := [];
    var k := 0;
    while k < |g|
      invariant k <= |g| && |cells| == k
      invariant forall m | 0 <= m < k :: i < |g[m]| && cells[m] == g[m][i]
    {
      if i < |g[k]| {
        cells := cells + [g[k][i]];
      } else {
        return None;
      }
      k := k + 1;
    }
    assert cells == Column(g, i).value;
    return Some(cells);
  }

  /** The length of the shortest row. */
  function MinWidth(g: Grid): (w: nat)
    requires g != []
    ensures forall k | 0 <= k < |g| :: w <= |g[k]|
  {
    if |g| == 1 then |g[0]|
    else
      var w := MinWidth(g[1..]);
      assert forall k | 1 <= k < |g| :: g[k] == g[1..][k - 1];
      if |g[0]| < w then |g[0]| else w
  }

  /** Some row is exactly as short as MinWidth. */
  lemma {:induction false} MinWidthAttained(g: Grid) returns (j: nat)
    requires g != []
    ensures j < |g| && |g[j]| == MinWidth(g)
  {
    if |g| == 1 {
      j := 0;
    } else {
      var j' := MinWidthAttained(g[1..]);
      assert g[1..][j'] == g[j' + 1];
      j := if |g[0]| < MinWidth(g[1..]) then 0 else j' + 1;
    }
  }

  /** Column c is there exactly when c is below the shortest row length. */
  lemma {:induction false} ColumnPresent(g: Grid, c: nat)
    requires g != []
    ensures Column(g, c).Some? <==> c < MinWidth(g)
  {
    var j := MinWidthAttained(g);
  }

  /** `get_col` on a map with rows: column c while c is below the
      shortest row length, nothing from there on. */
  method ColumnOf(g: Grid, c: nat) returns (col: Option<seq<Field>>)
    requires g != []
    ensures col.Some? <==> c < MinWidth(g)
    ensures col.Some? ==> col.value == ColumnAt(g, c)
  {
    ColumnPresent(g, c);
    col := GetCol(g, c);
    if col.Some? {
      assert col.value == ColumnAt(g, c);
    }
  }

  // ---------------------------------------------------- spreading copies

  /** The number of true flags. */
  function Count(flags: seq<bool>): (n: nat)
    ensures n <= |flags|
  {
    if flags == [] then 0 else Count(flags[..|flags| - 1]) + (if flags[|flags| - 1] then 1 else 0)
  }

  /** The first |flags| items of s, each followed by fill(item) when its
      flag is set. */
  function Spread<T>(s: seq<T>, flags: seq<bool>, fill: T -> T): (r: seq<T>)
    requires |flags| <= |s|
    ensures |r| == |flags| + Count(flags)
  {
    if flags == [] then []
    else
      var n := |flags| - 1;
      Spread(s, flags[..n], fill) + [s[n]] + (if flags[n] then [fill(s[n])] else [])
  }

  /** s with a copy of fill(item) inserted after every flagged item. */
  function Widen<T>(s: seq<T>, flags: seq<bool>, fill: T -> T): (r: seq<T>)
    requires |flags| <= |s|
    ensures |r| == |s| + Count(flags)
  {
    Spread(s, flags, fill) + s[|flags|..]
  }

  /** Taking in one more flag inserts fill(s[k]) right after s[k], which
      sits at index k + Count(flags[..k]) of the current widening. */
  lemma {:induction false} WidenStep<T>(s: seq<T>, flags: seq<bool>, fill: T -> T, k: nat)
    requires k < |flags| <= |s|
    ensures var w, i := Widen(s, flags[..k], fill), k + Count(flags[..k]);
      i < |w| && w[i] == s[k] &&
      Count(flags[..k + 1]) == Count(flags[..k]) + (if flags[k] then 1 else 0) &&
      Widen(s, flags[..k + 1], fill) == w[..i + 1] + (if flags[k] then [fill(s[k])] else []) + w[i + 1..]
  {
    var w, i := Widen(s, flags[..k], fill), k + Count(flags[..k]);
    var sp := Spread(s, flags[..k], fill);
    assert flags[..k + 1][..k] == flags[..k];
    assert w == sp + s[k..];
    assert w[..i + 1] == sp + [s[k]];
    assert w[i + 1..] == s[k + 1..];
  }

  lemma {:induction false} SpreadAt<T>(s: seq<T>, flags: seq<bool>, fill: T -> T, x: nat)
    requires x < |flags| <= |s|
    ensures x + Count(flags[..x]) < |Spread(s, flags, fill)| && Spread(s, flags, fill)[x + Count(flags[..x])] == s[x]
  {
    var n := |flags| - 1;
    assert flags[..n][..x] == flags[..x];
    if x < n {
      SpreadAt(s, flags[..n], fill, x);
    }
  }

  /** The item at x moves right by the number of flagged items before it. */
  lemma {:induction false} WidenAt<T>(s: seq<T>, flags: seq<bool>, fill: T -> T, x: nat)
    requires |flags| <= |s| && x < |s|
    ensures var before := Count(flags[..if x < |flags| then x else |flags|]);
      x + before < |Widen(s, flags, fill)| && Widen(s, flags, fill)[x + before] == s[x]
  {
    if x < |flags| {
      SpreadAt(s, flags, fill, x);
    } else {
      assert flags[..|flags|] == flags;
    }
  }

  lemma {:induction false} WidenNone<T>(s: seq<T>, flags: seq<bool>, fill: T -> T)
    ensures Widen(s, flags[..0], fill) == s
  {
    assert flags[..0] == [];
  }

  // -------------------------------------------------------------- expand

  /** The filler of a widened row: an Empty cell. */
  function EmptyOf(f: Field): Field
  {
    Empty
  }

  /** The filler of the widened map: an Empty row as long as the row. */
  function BlankOf(row: seq<Field>): seq<Field>
  {
    seq(|row|, _ => Empty)
  }

  /** Which rows are all equal. */
  function RowFlags(g: Grid): (f: seq<bool>)
    ensures |f| == |g| && forall k | 0 <= k < |g| :: f[k] == AllEqual(g[k])
  {
    seq(|g|, k requires 0 <= k < |g| => AllEqual(g[k]))
  }

  /** Column c of a map every row of which reaches it. */
  function ColumnAt(g: Grid, c: nat): (col: seq<Field>)
    requires g != [] && c < MinWidth(g)
    ensures |col| == |g| && forall k | 0 <= k < |g| :: col[k] == g[k][c]
  {
    assert forall k | 0 <= k < |g| :: c < |g[k]|;
    seq(|g|, k requires 0 <= k < |g| => g[k][c])
  }

  /** Which of the columns every row reaches are all equal. */
  function ColFlags(g: Grid): (f: seq<bool>)
    requires g != []
    ensures |f| == MinWidth(g)
  {
    seq(MinWidth(g), c requires 0 <= c < MinWidth(g) => AllEqual(ColumnAt(g, c)))
  }

  /** The first loop of `expand`: an Empty row after every all-equal row. */
  function ExpandRows(g: Grid): Grid
  {
    Widen(g, RowFlags(g), BlankOf)
  }

  /** The second loop of `expand`: an Empty cell after every all-equal
      column, in every row. */
  function ExpandCols(g: Grid): (r: Grid)
    requires g != []
    ensures |r| == |g|
  {
    seq(|g|, k requires 0 <= k < |g| => Widen(g[k], ColFlags(g), EmptyOf))
  }

  /** Every row of the map widened by the first k column flags. */
  function WidenedRows(g: Grid, flags: seq<bool>, k: nat): (r: Grid)
    requires k <= |flags| && g != [] && |flags| <= MinWidth(g)
    ensures |r| == |g|
  {
    seq(|g|, r requires 0 <= r < |g| => Widen(g[r], flags[..k], EmptyOf))
  }

  /** The column the second loop of `expand` looks at is an original
      column, and it is there exactly while original columns remain. */
  lemma {:induction false} WidenedColumn(g: Grid, k: nat)
    requires g != [] && k <= MinWidth(g)
    ensures var rows, i := WidenedRows(g, ColFlags(g), k), k + Count(ColFlags(g)[..k]);
      (Column(rows, i).Some? <==> k < MinWidth(g)) &&
      (k < MinWidth(g) ==> Column(rows, i) == Some(ColumnAt(g, k)))
  {
    var flags := ColFlags(g);
    var rows, i := WidenedRows(g, flags, k), k + Count(flags[..k]);
    if k < MinWidth(g) {
      forall r | 0 <= r < |g|
        ensures i < |rows[r]| && rows[r][i] == g[r][k]
      {
        WidenStep(g[r], flags, EmptyOf, k);
      }
      assert Column(rows, i).value == ColumnAt(g, k);
    } else {
      var j := MinWidthAttained(g);
      assert |rows[j]| == i;
    }
  }

  /** Taking in row k: an Empty row follows it when it is all equal. */
  lemma {:induction false} NextRow(g: Grid, k: nat)
    requires k < |g|
    ensures var flags := RowFlags(g);
      var w, i := Widen(g, flags[..k], BlankOf), k + Count(flags[..k]);
      i < |w| && w[i] == g[k] &&
      Count(flags[..k + 1]) == Count(flags[..k]) + (if AllEqual(g[k]) then 1 else 0) &&
      Widen(g, flags[..k + 1], BlankOf) == if AllEqual(g[k]) then w[..i + 1] + [BlankOf(g[k])] + w[i + 1..] else w
  {
    var flags := RowFlags(g);
    var w, i := Widen(g, flags[..k], BlankOf), k + Count(flags[..k]);
    WidenStep(g, flags, BlankOf, k);
    if !AllEqual(g[k]) {
      assert w[..i + 1] + w[i + 1..] == w;
    }
  }

  lemma {:induction false} NoColumnsYet(g: Grid)
    requires g != []
    ensures WidenedRows(g, ColFlags(g), 0) == g
  {
    forall r | 0 <= r < |g|
      ensures WidenedRows(g, ColFlags(g), 0)[r] == g[r]
    {
      WidenNone(g[r], ColFlags(g), EmptyOf);
    }
  }

  lemma {:induction false} AllColumns(g: Grid)
    requires g != []
    ensures WidenedRows(g, ColFlags(g), |ColFlags(g)|) == ExpandCols(g)
  {
    assert ColFlags(g)[..|ColFlags(g)|] == ColFlags(g);
  }

  /** Every row with an Empty cell inserted at index i. */
  function InsertedColumn(g: Grid, i: nat): (r: Grid)
    requires forall m | 0 <= m < |g| :: i <= |g[m]|
    ensures |r| == |g|
  {
    seq(|g|, m requires 0 <= m < |g| => g[m][..i] + [Empty] + g[m][i..])
  }

  /** Taking in column k: every row gets an Empty cell after its cell of
      column k when that column is all equal. */
  lemma {:induction false} NextColumn(g: Grid, k: nat)
    requires g != [] && k < MinWidth(g)
    ensures var flags, i := ColFlags(g), k + Count(ColFlags(g)[..k]);
      var w, e := WidenedRows(g, flags, k), AllEqual(ColumnAt(g, k));
      k + 1 + Count(flags[..k + 1]) == (if e then i + 2 else i + 1) &&
      (forall r | 0 <= r < |w| :: i < |w[r]|) &&
      WidenedRows(g, flags, k + 1) == if e then InsertedColumn(w, i + 1) else w
  {
    NextColumnCount(g, k);
    NextColumnRows(g, k);
  }

  lemma {:induction false} NextColumnCount(g: Grid, k: nat)
    requires g != [] && k < MinWidth(g)
    ensures var flags := ColFlags(g);
      k + 1 + Count(flags[..k + 1]) ==
        (if AllEqual(ColumnAt(g, k)) then k + Count(flags[..k]) + 2 else k + Count(flags[..k]) + 1)
  {
    var flags := ColFlags(g);
    assert flags[k] == AllEqual(ColumnAt(g, k));
    assert flags[..k + 1][..k] == flags[..k];
  }

  lemma {:induction false} NextColumnRows(g: Grid, k: nat)
    requires g != [] && k < MinWidth(g)
    ensures var flags, i := ColFlags(g), k + Count(ColFlags(g)[..k]);
      var w := WidenedRows(g, flags, k);
      (forall r | 0 <= r < |w| :: i < |w[r]|) &&
      WidenedRows(g, flags, k + 1) == if AllEqual(ColumnAt(g, k)) then InsertedColumn(w, i + 1) else w
  {
    var flags, i := ColFlags(g), k + Count(ColFlags(g)[..k]);
    var w, w' := WidenedRows(g, flags, k), WidenedRows(g, flags, k + 1);
    assert flags[k] == AllEqual(ColumnAt(g, k));
    forall r | 0 <= r < |g|
      ensures i < |w[r]|
      ensures w'[r] == if flags[k] then w[r][..i + 1] + [Empty] + w[r][i + 1..] else w[r]
    {
      WidenStep(g[r], flags, EmptyOf, k);
      if !flags[k] {
        assert w[r][..i + 1] + w[r][i + 1..] == w[r];
      }
    }
    if flags[k] {
      assert w' == InsertedColumn(w, i + 1);
    }
  }

  /** The map of `Map`, whose `expand` rewrites its rows in place. */
  class Map {
    var rows: Grid

    constructor(g: Grid)
      ensures rows == g
    {
      rows := g;
    }

    /** `expand`. Rows first: after each all-equal row an Empty row is
        inserted and skipped. Then columns, the same way, as long as every
        row reaches the column. An empty map is excluded: with no rows
        every column is present and the column loop never ends. */
    method Expand()
      requires rows != []
      modifies this
      ensures rows == ExpandCols(ExpandRows(old(rows)))
    {
      RowLoop();
      ColumnLoop();
    }

    /** The first loop of `expand`. */
    method RowLoop()
      modifies this
      ensures rows == ExpandRows(old(rows))
    {
      ghost var orig := rows;
      ghost var flags := RowFlags(orig);
      var i := 0;
      ghost var k := 0;
      WidenNone(orig, flags, BlankOf);
      while i < |rows|
        invariant k <= |orig| && i == k + Count(flags[..k])
        invariant rows == Widen(orig, flags[..k], BlankOf)
        decreases |orig| - k
      {
        i := RowTurn(orig, k, i);
        k := k + 1;
      }
      assert flags[..k] == flags;
    }

    /** One turn of the first loop of `expand`: row k of the original map
        sits at index i; when it is all equal an Empty row is inserted
        after it, and the index moves past what was inserted. */
    method RowTurn(ghost orig: seq<seq<Field>>, ghost k: nat, i: nat) returns (next: nat)
      requires i < |rows| && k <= |orig| && i == k + Count(RowFlags(orig)[..k])
      requires rows == Widen(orig, RowFlags(orig)[..k], BlankOf)
      modifies this
      ensures k < |orig|
      ensures next == k + 1 + Count(RowFlags(orig)[..k + 1])
      ensures rows == Widen(orig, RowFlags(orig)[..k + 1], BlankOf)
    {
      NextRow(orig, k);
      var row := rows[i];
      next := i;
      if AllEqual(row) {
        next := next + 1;
        rows := rows[..next] + [BlankOf(row)] + rows[next..];
      }
      next := next + 1;
    }

    /** The second loop of `expand`. */
    method ColumnLoop()
      requires rows != []
      modifies this
      ensures rows == ExpandCols(old(rows))
    {
      ghost var orig := rows;
      ghost var flags := ColFlags(orig);
      var i := 0;
      ghost var k := 0;
      NoColumnsYet(orig);
      while true
        invariant k <= |flags| && i == k + Count(flags[..k])
        invariant rows == WidenedRows(orig, flags, k)
        decreases |flags| - k
      {
        var col := OriginalColumn(orig, k, i);
        if col.None? {
          break;
        }
        i := ColumnTurn(orig, k, i, col.value);
        k := k + 1;
      }
      AllColumns(orig);
    }

    /** The `get_col` call of the second loop of `expand`: at index i
        stands column k of the original map, or nothing once every
        original column has been taken in. */
    method OriginalColumn(ghost orig: Grid, ghost k: nat, i: nat) returns (col: Option<seq<Field>>)
      requires orig != [] && k <= MinWidth(orig) && i == k + Count(ColFlags(orig)[..k])
      requires rows == WidenedRows(orig, ColFlags(orig), k)
      ensures col.Some? <==> k < MinWidth(orig)
      ensures col.Some? ==> col.value == ColumnAt(orig, k)
    {
      WidenedColumn(orig, k);
      col := GetCol(rows, i);
    }

    /** One turn of the second loop of `expand`: column k of the original
        map sits at index i; when it is all equal an Empty column is
        inserted after it, and the index moves past what was inserted. */
    method ColumnTurn(ghost orig: Grid, ghost k: nat, i: nat, col: seq<Field>) returns (next: nat)
      requires orig != [] && k < MinWidth(orig)
      requires i == k + Count(ColFlags(orig)[..k]) && col == ColumnAt(orig, k)
      requires rows == WidenedRows(orig, ColFlags(orig), k)
      modifies this
      ensures next == k + 1 + Count(ColFlags(orig)[..k + 1])
      ensures rows == WidenedRows(orig, ColFlags(orig), k + 1)
    {
      NextColumn(orig, k);
      next := i;
      if AllEqual(col) {
        next := next + 1;
        InsertColumn(next);
      }
      next := next + 1;
    }

    /** `galaxies_pos` over `iter_pos`: reads the map row by row, as many
        cells a row as the first row has, and stops at the first position
        outside the map. The first row must be there and hold a cell. */
    method GalaxiesPos() returns (positions: seq<Pos>)
      requires rows != [] && rows[0] != []
      ensures positions == Galaxies(rows)
    {
      var g := rows;
      var lineLen: nat := |g[0]| - 1;
      var x: nat, y: nat := 0, 0;
      positions := [];
      while true
        invariant x <= lineLen && y <= |g|
        invariant positions + ScanFrom(g, lineLen + 1, x, y) == Galaxies(g)
        decreases |g| - y, lineLen - x
      {
        var field := Get(g, Pos(x, y));
        if field.None? {
          break;
        }
        positions, x, y := ScanTurn(g, lineLen, positions, x, y);
      }
    }

    /** `expansions`: the indices of the all-equal columns, found through
        `cols_iter` until a column is missing, and of the all-equal rows.
        With no rows every column is present and `cols_iter` never ends. */
    method Expansions() returns (cols: seq<int>, rowIndices: seq<int>)
      requires rows != []
      ensures cols == Indices(ColFlags(rows)) && rowIndices == Indices(RowFlags(rows))
    {
      ghost var rowFlags := RowFlags(rows);
      rowIndices := [];
      for i := 0 to |rows|
        invariant rowIndices == Indices(rowFlags[..i])
      {
        IndicesSnoc(rowFlags, i);
        if AllEqual(rows[i]) {
          rowIndices := rowIndices + [i];
        }
      }
      assert rowFlags[..|rows|] == rowFlags;
      ghost var colFlags := ColFlags(rows);
      cols := [];
      var i := 0;
      var col := ColumnOf(rows, i);
      while col.Some?
        invariant i <= |colFlags| && cols == Indices(colFlags[..i])
        invariant col.Some? <==> i < |colFlags|
        invariant col.Some? ==> col.value == ColumnAt(rows, i)
        decreases |colFlags| - i
      {
        IndicesSnoc(colFlags, i);
        assert colFlags[i] == AllEqual(col.value);
        if AllEqual(col.value) {
          cols := cols + [i];
        }
        i := i + 1;
        col := ColumnOf(rows, i);
      }
      assert colFlags[..i] == colFlags;
    }

    /** The inner loop of the second loop of `expand`: an Empty cell is
        inserted at index i of every row. */
    method InsertColumn(i: nat)
      requires forall m | 0 <= m < |rows| :: i <= |rows[m]|
      modifies this
      ensures rows == InsertedColumn(old(rows), i)
    {
      ghost var before := rows;
      var r := 0;
      while r < |rows|
        invariant r <= |rows| == |before|
        invariant forall m | 0 <= m < r :: rows[m] == before[m][..i] + [Empty] + before[m][i..]
        invariant forall m | r <= m < |rows| :: rows[m] == before[m]
      {
        rows := rows[r := rows[r][..i] + [Empty] + rows[r][i..]];
        r := r + 1;
      }
      assert rows == InsertedColumn(before, i);
    }
  }

  // ----------------------------------------------------------- positions

  /** The galaxies `iter_pos` meets from (x, y) on: row by row, w cells a
      row (w is the width of the first row), up to the first position
      that is outside the map. */
  function ScanFrom(g: Grid, w: nat, x: nat, y: nat): seq<Pos>
    requires x < w
    decreases |g| - y, w - x
  {
    if y >= |g| || x >= |g[y]| then []
    else
      var here := if g[y][x] == Galaxy then [Pos(x, y)] else [];
      if x == w - 1 then here + ScanFrom(g, w, 0, y + 1) else here + ScanFrom(g, w, x + 1, y)
  }

  /** One turn of the loop of `galaxies_pos` at a position inside the map:
      a galaxy there is recorded, and the scan moves right or to the start
      of the next row. */
  method ScanTurn(g: Grid, lineLen: nat, positions: seq<Pos>, x: nat, y: nat)
    returns (positions': seq<Pos>, x': nat, y': nat)
    requires x <= lineLen && y < |g| && x < |g[y]|
    ensures x' <= lineLen && y' <= |g|
    ensures if x == lineLen then x' == 0 && y' == y + 1 else x' == x + 1 && y' == y
    ensures positions' + ScanFrom(g, lineLen + 1, x', y') == positions + ScanFrom(g, lineLen + 1, x, y)
  {
    if x == lineLen {
      x', y' := 0, y + 1;
    } else {
      x', y' := x + 1, y;
    }
    ScanNext(g, lineLen + 1, x, y, x', y');
    positions' := positions;
    if g[y][x] == Galaxy {
      positions' := positions' + [Pos(x, y)];
    }
    RecordHere(g, positions, positions', x, y, ScanFrom(g, lineLen + 1, x', y'));
  }

  /** The galaxy at (x, y), if there is one, as a scan lists it. */
  function Here(g: Grid, x: nat, y: nat): seq<Pos>
    requires y < |g| && x < |g[y]|
  {
    if g[y][x] == Galaxy then [Pos(x, y)] else []
  }

  lemma {:induction false} RecordHere(g: Grid, positions: seq<Pos>, positions': seq<Pos>, x: nat, y: nat, rest: seq<Pos>)
    requires y < |g| && x < |g[y]|
    requires positions' == if g[y][x] == Galaxy then positions + [Pos(x, y)] else positions
    ensures positions' + rest == positions + (Here(g, x, y) + rest)
  {
    assert positions' == positions + Here(g, x, y);
  }

  /** One position of the scan: its galaxy, if any, then the rest. */
  lemma {:induction false} ScanNext(g: Grid, w: nat, x: nat, y: nat, x': nat, y': nat)
    requires x < w && y < |g| && x < |g[y]|
    requires if x == w - 1 then x' == 0 && y' == y + 1 else x' == x + 1 && y' == y
    ensures ScanFrom(g, w, x, y) == Here(g, x, y) + ScanFrom(g, w, x', y')
  {
  }

  /** The galaxies of the map in reading order, as `galaxies_pos` lists them. */
  function Galaxies(g: Grid): seq<Pos>
    requires g != [] && g[0] != []
  {
    ScanFrom(g, |g[0]|, 0, 0)
  }

  /** p comes strictly before q in reading order. */
  predicate Before(p: Pos, q: Pos)
  {
    p.y < q.y || (p.y == q.y && p.x < q.x)
  }

  /** Every row has width w. */
  predicate Rectangular(g: Grid, w: nat)
  {
    forall k | 0 <= k < |g| :: |g[k]| == w
  }

  /** What the scan from (x, y) lists are galaxies of the map, in columns
      below w, at or after (x, y), in strictly increasing reading order. */
  lemma {:induction false} ScanSound(g: Grid, w: nat, x: nat, y: nat)
    requires x < w
    ensures forall p | p in ScanFrom(g, w, x, y) :: Get(g, p) == Some(Galaxy) && p.x < w && !Before(p, Pos(x, y))
    ensures forall i, j | 0 <= i < j < |ScanFrom(g, w, x, y)| :: Before(ScanFrom(g, w, x, y)[i], ScanFrom(g, w, x, y)[j])
    decreases |g| - y, w - x
  {
    if y < |g| && x < |g[y]| {
      var x': nat, y': nat := if x == w - 1 then 0 else x + 1, if x == w - 1 then y + 1 else y;
      ScanSound(g, w, x', y');
      var here, rest := (if g[y][x] == Galaxy then [Pos(x, y)] else []), ScanFrom(g, w, x', y');
      assert ScanFrom(g, w, x, y) == here + rest;
      assert forall q | q in rest :: Before(Pos(x, y), q);
    }
  }

  /** On a map whose rows all have width w the scan from (x, y) misses no
      galaxy at or after (x, y). */
  lemma {:induction false} ScanComplete(g: Grid, w: nat, x: nat, y: nat, p: Pos)
    requires x < w && Rectangular(g, w)
    requires Get(g, p) == Some(Galaxy) && !Before(p, Pos(x, y))
    ensures p in ScanFrom(g, w, x, y)
    decreases |g| - y, w - x
  {
    if p != Pos(x, y) {
      if x == w - 1 {
        ScanComplete(g, w, 0, y + 1, p);
      } else {
        ScanComplete(g, w, x + 1, y, p);
      }
    }
  }

  /** On a rectangular map `galaxies_pos` lists exactly the galaxies, each
      once, in reading order. */
  lemma {:induction false} GalaxiesExact(g: Grid, p: Pos)
    requires g != [] && g[0] != [] && Rectangular(g, |g[0]|)
    ensures p in Galaxies(g) <==> Get(g, p) == Some(Galaxy)
    ensures forall i, j | 0 <= i < j < |Galaxies(g)| :: Before(Galaxies(g)[i], Galaxies(g)[j])
  {
    ScanSound(g, |g[0]|, 0, 0);
    if Get(g, p) == Some(Galaxy) {
      ScanComplete(g, |g[0]|, 0, 0, p);
    }
  }

  // ---------------------------------------------------------- expansions

  /** The indices of the set flags, in increasing order. */
  function Indices(flags: seq<bool>): seq<int>
  {
    if flags == [] then []
    else
      var n := |flags| - 1;
      Indices(flags[..n]) + (if flags[n] then [n] else [])
  }

  /** Taking in flag i appends i when it is set. */
  lemma {:induction false} IndicesSnoc(flags: seq<bool>, i: nat)
    requires i < |flags|
    ensures Indices(flags[..i + 1]) == Indices(flags[..i]) + if flags[i] then [i] else []
  {
    assert flags[..i + 1][..i] == flags[..i];
  }

  /** The indices are exactly those of the set flags, one per set flag. */
  lemma {:induction false} IndicesExact(flags: seq<bool>)
    ensures |Indices(flags)| == Count(flags)
    ensures forall k :: k in Indices(flags) <==> 0 <= k < |flags| && flags[k]
  {
    if flags != [] {
      IndicesExact(flags[..|flags| - 1]);
    }
  }

  /** The indices come in increasing order. */
  lemma {:induction false} IndicesIncreasing(flags: seq<bool>)
    ensures forall i, j | 0 <= i < j < |Indices(flags)| :: Indices(flags)[i] < Indices(flags)[j]
  {
    if flags != [] {
      var n := |flags| - 1;
      var front := Indices(flags[..n]);
      IndicesIncreasing(flags[..n]);
      IndicesExact(flags[..n]);
      assert forall i | 0 <= i < |front| :: front[i] < n by {
        forall i | 0 <= i < |front| ensures front[i] < n {
          assert front[i] in front;
        }
      }
    }
  }

  /** How many of ns lie strictly below v: the folds of `task_2`. */
  function Below(ns: seq<int>, v: int): (c: nat)
    ensures c <= |ns|
  {
    if ns == [] then 0 else Below(ns[..|ns| - 1], v) + (if ns[|ns| - 1] < v then 1 else 0)
  }

  lemma {:induction false} BelowAppend(ns: seq<int>, ms: seq<int>, v: int)
    ensures Below(ns + ms, v) == Below(ns, v) + Below(ms, v)
  {
    if ms != [] {
      var n := |ms| - 1;
      assert (ns + ms)[..|ns + ms| - 1] == ns + ms[..n];
      BelowAppend(ns, ms[..n], v);
    } else {
      assert ns + ms == ns;
    }
  }

  /** A larger v has at least as many below it. */
  lemma {:induction false} BelowMonotone(ns: seq<int>, v: int, u: int)
    requires v <= u
    ensures Below(ns, v) <= Below(ns, u)
  {
    if ns != [] {
      BelowMonotone(ns[..|ns| - 1], v, u);
    }
  }

  /** Counting expandable indices below v is counting the set flags before v. */
  lemma {:induction false} BelowIndices(flags: seq<bool>, v: nat)
    ensures Below(Indices(flags), v) == Count(flags[..if v < |flags| then v else |flags|])
  {
    if flags != [] {
      var n := |flags| - 1;
      var last := if flags[n] then [n] else [];
      BelowAppend(Indices(flags[..n]), last, v);
      BelowIndices(flags[..n], v);
      BelowLast(flags[n], n, v);
      if v <= n {
        assert flags[..n][..v] == flags[..v];
      } else {
        assert flags[..n][..n] == flags[..n];
        assert flags[..|flags|] == flags;
      }
    }
  }

  lemma {:induction false} BelowLast(flag: bool, n: int, v: int)
    ensures Below(if flag then [n] else [], v) == if flag && n < v then 1 else 0
  {
    assert [n][..0] == [];
  }

  // --------------------------------------------------------------- counts

  /** f summed over s. */
  function Total<T>(s: seq<T>, f: T -> nat): nat
  {
    if s == [] then 0 else Total(s[..|s| - 1], f) + f(s[|s| - 1])
  }

  lemma {:induction false} TotalAppend<T>(s: seq<T>, t: seq<T>, f: T -> nat)
    ensures Total(s + t, f) == Total(s, f) + Total(t, f)
  {
    if t != [] {
      assert (s + t)[..|s + t| - 1] == s + t[..|t| - 1];
      TotalAppend(s, t[..|t| - 1], f);
    } else {
      assert s + t == s;
    }
  }

  lemma {:induction false} TotalSnoc<T>(s: seq<T>, x: T, f: T -> nat)
    ensures Total(s + [x], f) == Total(s, f) + f(x)
  {
    assert (s + [x])[..|s|] == s;
  }

  /** Spreading adds nothing to a total when every filler is worth 0. */
  lemma {:induction false} TotalSpread<T>(s: seq<T>, flags: seq<bool>, fill: T -> T, f: T -> nat)
    requires |flags| <= |s|
    requires forall k | 0 <= k < |s| :: f(fill(s[k])) == 0
    ensures Total(Spread(s, flags, fill), f) == Total(s[..|flags|], f)
  {
    if flags != [] {
      var n := |flags| - 1;
      TotalSpread(s, flags[..n], fill, f);
      SpreadStep(s, flags, fill, f);
      assert s[..n + 1] == s[..n] + [s[n]];
      TotalSnoc(s[..n], s[n], f);
    }
  }

  /** The last flag adds its item's value and a filler worth 0. */
  lemma {:induction false} SpreadStep<T>(s: seq<T>, flags: seq<bool>, fill: T -> T, f: T -> nat)
    requires 0 < |flags| <= |s| && f(fill(s[|flags| - 1])) == 0
    ensures Total(Spread(s, flags, fill), f) == Total(Spread(s, flags[..|flags| - 1], fill), f) + f(s[|flags| - 1])
  {
    var n := |flags| - 1;
    var front := Spread(s, flags[..n], fill) + [s[n]];
    var fillers := if flags[n] then [fill(s[n])] else [];
    assert Spread(s, flags, fill) == front + fillers;
    TotalSnoc(Spread(s, flags[..n], fill), s[n], f);
    TotalAppend(front, fillers, f);
    FillersWorthNothing(fillers, f);
  }

  lemma {:induction false} FillersWorthNothing<T>(fillers: seq<T>, f: T -> nat)
    requires |fillers| <= 1 && forall k | 0 <= k < |fillers| :: f(fillers[k]) == 0
    ensures Total(fillers, f) == 0
  {
    if fillers != [] {
      assert fillers[..0] == [];
    }
  }

  /** Widening adds nothing to a total when every filler is worth 0. */
  lemma {:induction false} TotalWiden<T>(s: seq<T>, flags: seq<bool>, fill: T -> T, f: T -> nat)
    requires |flags| <= |s|
    requires forall k | 0 <= k < |s| :: f(fill(s[k])) == 0
    ensures Total(Widen(s, flags, fill), f) == Total(s, f)
  {
    TotalSpread(s, flags, fill, f);
    TotalAppend(Spread(s, flags, fill), s[|flags|..], f);
    TotalAppend(s[..|flags|], s[|flags|..], f);
    assert s[..|flags|] + s[|flags|..] == s;
  }

  function GalaxyValue(f: Field): nat
  {
    if f == Galaxy then 1 else 0
  }

  /** The galaxies of a row. */
  function Tally(row: seq<Field>): nat
  {
    Total(row, GalaxyValue)
  }

  /** The galaxies of a map. */
  function GalaxyCount(g: Grid): nat
  {
    Total(g, Tally)
  }

  /** Rows with as many galaxies each make maps with as many galaxies. */
  lemma {:induction false} SameTallies(a: Grid, b: Grid)
    requires |a| == |b| && forall k | 0 <= k < |a| :: Tally(a[k]) == Tally(b[k])
    ensures GalaxyCount(a) == GalaxyCount(b)
  {
    if a != [] {
      SameTallies(a[..|a| - 1], b[..|b| - 1]);
    }
  }

  /** `expand` inserts only Empty cells: the galaxy count stays. */
  lemma {:induction false} ExpandKeepsGalaxies(g: Grid)
    requires g != []
    ensures ExpandRows(g) != []
    ensures GalaxyCount(ExpandCols(ExpandRows(g))) == GalaxyCount(g)
  {
    var h := ExpandRows(g);
    forall k | 0 <= k < |g|
      ensures Tally(BlankOf(g[k])) == 0
    {
      BlankTally(BlankOf(g[k]));
    }
    TotalWiden(g, RowFlags(g), BlankOf, Tally);
    forall k | 0 <= k < |h|
      ensures Tally(ExpandCols(h)[k]) == Tally(h[k])
    {
      TotalWiden(h[k], ColFlags(h), EmptyOf, GalaxyValue);
    }
    SameTallies(ExpandCols(h), h);
  }

  lemma {:induction false} BlankTally(row: seq<Field>)
    requires forall k | 0 <= k < |row| :: row[k] == Empty
    ensures Tally(row) == 0
  {
    if row != [] {
      BlankTally(row[..|row| - 1]);
    }
  }

  /** On a map whose rows all have width w, the scan from (x, y) lists the
      galaxies of the rest of row y and of every later row. */
  lemma {:induction false} ScanCount(g: Grid, w: nat, x: nat, y: nat)
    requires x < w && y < |g| && Rectangular(g, w)
    ensures |ScanFrom(g, w, x, y)| == Tally(g[y][x..]) + GalaxyCount(g[y + 1..])
    decreases |g| - y, w - x
  {
    var row := g[y];
    assert |row| == w;
    TotalFront(row[x..], GalaxyValue);
    assert row[x..][1..] == row[x + 1..];
    if x == w - 1 {
      ScanNext(g, w, x, y, 0, y + 1);
      assert row[x + 1..] == [];
      if y + 1 < |g| {
        ScanCount(g, w, 0, y + 1);
        TotalFront(g[y + 1..], Tally);
        assert g[y + 1..][1..] == g[y + 2..];
        assert g[y + 1][0..] == g[y + 1];
      } else {
        assert g[y + 1..] == [];
      }
    } else {
      ScanNext(g, w, x, y, x + 1, y);
      ScanCount(g, w, x + 1, y);
    }
  }

  /** A total is the first item's value plus the rest's total. */
  lemma {:induction false} TotalFront<T>(s: seq<T>, f: T -> nat)
    requires s != []
    ensures Total(s, f) == f(s[0]) + Total(s[1..], f)
  {
    TotalAppend([s[0]], s[1..], f);
    assert [s[0]] + s[1..] == s;
    assert [s[0]][..0] == [];
  }

  /** On a rectangular map `galaxies_pos` finds every galaxy once. */
  lemma {:induction false} GalaxiesCounted(g: Grid)
    requires g != [] && g[0] != [] && Rectangular(g, |g[0]|)
    ensures |Galaxies(g)| == GalaxyCount(g)
  {
    ScanCount(g, |g[0]|, 0, 0);
    assert g[0][0..] == g[0];
    assert g == [g[0]] + g[1..];
    TotalAppend([g[0]], g[1..], Tally);
    assert [g[0]][..0] == [];
  }

  // ------------------------------------------------------------ distances

  /** `abs_diff`. */
  function AbsDiff(a: int, b: int): nat
  {
    if a < b then b - a else a - b
  }

  /** The Manhattan distance of two galaxies. */
  function Manhattan(a: Pos, b: Pos): nat
  {
    AbsDiff(a.x, b.x) + AbsDiff(a.y, b.y)
  }

  /** The distances from a to each of rest, summed. */
  function DistancesFrom(a: Pos, rest: seq<Pos>): nat
  {
    if rest == [] then 0 else Manhattan(a, rest[0]) + DistancesFrom(a, rest[1..])
  }

  /** The sum over `tuple_combinations`: every unordered pair of ps once,
      the earlier one first. */
  function DistanceSum(ps: seq<Pos>): nat
  {
    if ps == [] then 0 else DistancesFrom(ps[0], ps[1..]) + DistanceSum(ps[1..])
  }

  /** Part 2's shift of a galaxy: each coordinate moves by (factor - 1)
      for every expandable index strictly below it. */
  function Shift(p: Pos, cols: seq<int>, rows: seq<int>, factor: nat): Pos
    requires factor >= 1
  {
    Pos(p.x + Times(Below(cols, p.x), factor - 1), p.y + Times(Below(rows, p.y), factor - 1))
  }

  function ShiftAll(ps: seq<Pos>, cols: seq<int>, rows: seq<int>, factor: nat): (r: seq<Pos>)
    requires factor >= 1
    ensures |r| == |ps|
  {
    if ps == [] then [] else [Shift(ps[0], cols, rows, factor)] + ShiftAll(ps[1..], cols, rows, factor)
  }

  /** How many expandable columns and rows lie below each coordinate. */
  function Crossed(p: Pos, cols: seq<int>, rows: seq<int>): Pos
  {
    Pos(Below(cols, p.x), Below(rows, p.y))
  }

  function CrossedAll(ps: seq<Pos>, cols: seq<int>, rows: seq<int>): (r: seq<Pos>)
    ensures |r| == |ps|
  {
    if ps == [] then [] else [Crossed(ps[0], cols, rows)] + CrossedAll(ps[1..], cols, rows)
  }

  /** n * c as c-fold addition, which keeps the shift proofs linear. */
  function Times(n: int, c: nat): int
  {
    if c == 0 then 0 else Times(n, c - 1) + n
  }

  lemma {:induction false} TimesIsProduct(n: int, c: nat)
    ensures Times(n, c) == n * c
  {
    if c > 0 {
      TimesIsProduct(n, c - 1);
    }
  }

  lemma {:induction false} TimesMonotone(a: int, b: int, c: nat)
    requires a <= b
    ensures Times(a, c) <= Times(b, c)
  {
    if c > 0 {
      TimesMonotone(a, b, c - 1);
    }
  }

  lemma {:induction false} TimesDistributes(a: int, b: int, c: nat)
    ensures Times(0, c) == 0
    ensures Times(a + b, c) == Times(a, c) + Times(b, c)
    ensures Times(a - b, c) == Times(a, c) - Times(b, c)
  {
    if c > 0 {
      TimesDistributes(a, b, c - 1);
    }
  }

  /** Along one axis a shifted coordinate keeps its order with the others,
      so the shifted gap is the plain gap plus (factor - 1) per expandable
      index between the two. */
  lemma {:induction false} ShiftAxis(u: int, v: int, ns: seq<int>, c: nat)
    ensures AbsDiff(u + Times(Below(ns, u), c), v + Times(Below(ns, v), c)) == AbsDiff(u, v) + Times(AbsDiff(Below(ns, u), Below(ns, v)), c)
  {
    var bu, bv := Below(ns, u), Below(ns, v);
    if u <= v {
      BelowMonotone(ns, u, v);
      TimesMonotone(bu, bv, c);
      TimesDistributes(bv, bu, c);
    } else {
      BelowMonotone(ns, v, u);
      TimesMonotone(bv, bu, c);
      TimesDistributes(bu, bv, c);
    }
  }

  /** The shifted distance of two galaxies. */
  lemma {:induction false} ShiftDistance(a: Pos, b: Pos, cols: seq<int>, rows: seq<int>, factor: nat)
    requires factor >= 1
    ensures Manhattan(Shift(a, cols, rows, factor), Shift(b, cols, rows, factor)) ==
      Manhattan(a, b) + Times(Manhattan(Crossed(a, cols, rows), Crossed(b, cols, rows)), factor - 1)
  {
    var sa, sb := Shift(a, cols, rows, factor), Shift(b, cols, rows, factor);
    var ca, cb := Crossed(a, cols, rows), Crossed(b, cols, rows);
    var c := factor - 1;
    var dx, dy := AbsDiff(ca.x, cb.x), AbsDiff(ca.y, cb.y);
    assert AbsDiff(sa.x, sb.x) == AbsDiff(a.x, b.x) + Times(dx, c) by {
      ShiftAxis(a.x, b.x, cols, c);
    }
    assert AbsDiff(sa.y, sb.y) == AbsDiff(a.y, b.y) + Times(dy, c) by {
      ShiftAxis(a.y, b.y, rows, c);
    }
    assert Times(dx + dy, c) == Times(dx, c) + Times(dy, c) by {
      TimesDistributes(dx, dy, c);
    }
  }

  lemma {:induction false} ShiftDistancesFrom(a: Pos, rest: seq<Pos>, cols: seq<int>, rows: seq<int>, factor: nat)
    requires factor >= 1
    ensures DistancesFrom(Shift(a, cols, rows, factor), ShiftAll(rest, cols, rows, factor)) ==
      DistancesFrom(a, rest) + Times(DistancesFrom(Crossed(a, cols, rows), CrossedAll(rest, cols, rows)), factor - 1)
  {
    if rest != [] {
      var ca := Crossed(a, cols, rows);
      var crossed := CrossedAll(rest, cols, rows);
      var c := factor - 1;
      var m, d := Manhattan(ca, crossed[0]), DistancesFrom(ca, crossed[1..]);
      assert Manhattan(Shift(a, cols, rows, factor), Shift(rest[0], cols, rows, factor)) == Manhattan(a, rest[0]) + Times(m, c) by {
        ShiftDistance(a, rest[0], cols, rows, factor);
      }
      ShiftDistancesFrom(a, rest[1..], cols, rows, factor);
      assert Times(m + d, c) == Times(m, c) + Times(d, c) by {
        TimesDistributes(m, d, c);
      }
    } else {
      TimesDistributes(0, 0, factor - 1);
    }
  }

  /** Part 2's total grows linearly with the factor: the plain total plus
      (factor - 1) times the total over the crossed counts. */
  lemma {:induction false} ShiftSum(ps: seq<Pos>, cols: seq<int>, rows: seq<int>, factor: nat)
    requires factor >= 1
    ensures DistanceSum(ShiftAll(ps, cols, rows, factor)) ==
      DistanceSum(ps) + Times(DistanceSum(CrossedAll(ps, cols, rows)), factor - 1)
  {
    var c: nat := factor - 1;
    if ps != [] {
      var crossed := CrossedAll(ps, cols, rows);
      var f, d := DistancesFrom(crossed[0], crossed[1..]), DistanceSum(crossed[1..]);
      assert Times(DistanceSum(crossed), c) == Times(f, c) + Times(d, c) by {
        assert DistanceSum(crossed) == f + d;
        TimesDistributes(f, d, c);
      }
      var shifted := ShiftAll(ps, cols, rows, factor);
      assert shifted[0] == Shift(ps[0], cols, rows, factor) && shifted[1..] == ShiftAll(ps[1..], cols, rows, factor);
      assert crossed[0] == Crossed(ps[0], cols, rows) && crossed[1..] == CrossedAll(ps[1..], cols, rows);
      assert DistancesFrom(shifted[0], shifted[1..]) == DistancesFrom(ps[0], ps[1..]) + Times(f, c) by {
        ShiftDistancesFrom(ps[0], ps[1..], cols, rows, factor);
      }
      assert DistanceSum(shifted[1..]) == DistanceSum(ps[1..]) + Times(d, c) by {
        ShiftSum(ps[1..], cols, rows, factor);
      }
    } else {
      TimesDistributes(0, 0, c);
    }
  }

  /** With factor 1 nothing moves. */
  lemma {:induction false} FactorOne(ps: seq<Pos>, cols: seq<int>, rows: seq<int>)
    ensures ShiftAll(ps, cols, rows, 1) == ps
  {
    if ps != [] {
      FactorOne(ps[1..], cols, rows);
    }
  }

  // ---------------------------------------------------------------- tasks

  /** `task_1`: expand the map in place, then sum the distances of all
      pairs of galaxies. */
  method Task1(g: Grid) returns (total: nat)
    requires g != [] && g[0] != []
    ensures ExpandRows(g) != [] && ExpandCols(ExpandRows(g))[0] != []
    ensures total == DistanceSum(Galaxies(ExpandCols(ExpandRows(g))))
  {
    ExpandedFirstRow(g);
    var image := new Map(g);
    image.Expand();
    var galaxies := image.GalaxiesPos();
    total := DistanceSum(galaxies);
  }

  /** `task_2`: no expansion; every galaxy is shifted by the expandable
      rows and columns below it. The factor must be at least 1. */
  method Task2(g: Grid, factor: nat) returns (total: nat)
    requires g != [] && g[0] != [] && factor >= 1
    ensures total == DistanceSum(ShiftAll(Galaxies(g), Indices(ColFlags(g)), Indices(RowFlags(g)), factor))
  {
    var image := new Map(g);
    var galaxies := image.GalaxiesPos();
    var cols, rows := image.Expansions();
    total := DistanceSum(ShiftAll(galaxies, cols, rows, factor));
  }

  /** The first row survives expansion and only grows. */
  lemma {:induction false} ExpandedFirstRow(g: Grid)
    requires g != [] && g[0] != []
    ensures ExpandRows(g) != [] && ExpandRows(g)[0] == g[0]
    ensures ExpandCols(ExpandRows(g))[0] != []
  {
    WidenAt(g, RowFlags(g), BlankOf, 0);
    assert RowFlags(g)[..0] == [];
  }
}
