/**
 * Gear Ratios (day-03/src/main.rs): a schematic of digits, dots and symbols.
 * Each line is first expanded so that every cell of a digit run holds the
 * whole number text; then every selected cell collects the numbers of its
 * 3x3 window.
 */
module GearRatios {
  import opened Common

  /** A cell text that parses as a number: a non-empty run of decimal digits. */
  predicate Numeric(cell: string)
  {
    |cell| > 0 && AllDecimal(cell)
  }

  // ------------------------------------------------------ line expansion

  /** First index of the maximal digit run through position i. */
  function RunStart(line: string, i: nat): (s: nat)
    requires i < |line| && IsDecimal(line[i])
    ensures s <= i && AllDecimal(line[s..i + 1])
    ensures s == 0 || !IsDecimal(line[s - 1])
  {
    if i > 0 && IsDecimal(line[i - 1]) then
      var s := RunStart(line, i - 1);
      assert line[s..i + 1] == line[s..i] + [line[i]];
      s
    else
      i
  }

  /** One past the last index of the maximal digit run through position i. */
  function RunEnd(line: string, i: nat): (e: nat)
    requires i < |line| && IsDecimal(line[i])
    ensures i < e <= |line| && AllDecimal(line[i..e])
    ensures e == |line| || !IsDecimal(line[e])
    decreases |line| - i
  {
    if i + 1 < |line| && IsDecimal(line[i + 1]) then
      var e := RunEnd(line, i + 1);
      assert line[i..e] == [line[i]] + line[i + 1..e];
      e
    else
      i + 1
  }

  /** The expanded cell at position i: the whole number text for a digit,
      the character itself otherwise. */
  function Cell(line: string, i: nat): string
    requires i < |line|
  {
    if IsDecimal(line[i]) then line[RunStart(line, i)..RunEnd(line, i)] else [line[i]]
  }

  function ExpandedRow(line: string): seq<string>
  {
    seq(|line|, i requires 0 <= i < |line| => Cell(line, i))
  }

  /** An expanded cell is numeric exactly at a digit, and then it is the
      maximal digit run around that digit. */
  lemma {:induction false} CellIsRun(line: string, i: nat)
    requires i < |line|
    ensures Numeric(Cell(line, i)) <==> IsDecimal(line[i])
    ensures IsDecimal(line[i]) ==> exists s, e | 0 <= s <= i < e <= |line| ::
      Cell(line, i) == line[s..e] && (s == 0 || !IsDecimal(line[s - 1])) && (e == |line| || !IsDecimal(line[e]))
  {
    if IsDecimal(line[i]) {
      var s, e := RunStart(line, i), RunEnd(line, i);
      assert line[s..e] == line[s..i + 1] + line[i + 1..e];
      assert line[s..e][i - s] == line[i];
    } else {
      assert Cell(line, i)[0] == line[i];
    }
  }

  lemma {:induction false} RunStartIs(line: string, s: nat, k: nat)
    requires s <= k < |line| && AllDecimal(line[s..k + 1])
    requires s == 0 || !IsDecimal(line[s - 1])
    ensures RunStart(line, k) == s
    decreases k - s
  {
    assert line[s..k + 1][k - s] == line[k];
    if k > s {
      assert line[s..k + 1][k - 1 - s] == line[k - 1];
      assert line[s..k] == line[s..k + 1][..k - s];
      RunStartIs(line, s, k - 1);
    }
  }

  lemma {:induction false} RunEndIs(line: string, k: nat, e: nat)
    requires k < e <= |line| && AllDecimal(line[k..e])
    requires e == |line| || !IsDecimal(line[e])
    ensures RunEnd(line, k) == e
    decreases e - k
  {
    assert line[k..e][0] == line[k];
    if k + 1 < e {
      assert line[k..e][1] == line[k + 1];
      assert line[k + 1..e] == line[k..e][1..];
      RunEndIs(line, k + 1, e);
    }
  }

  /** Every cell of one maximal digit run expands to the same number text. */
  lemma {:induction false} CellsOfRun(line: string, s: nat, e: nat, k: nat)
    requires s <= k < e <= |line| && AllDecimal(line[s..e])
    requires s == 0 || !IsDecimal(line[s - 1])
    requires e == |line| || !IsDecimal(line[e])
    ensures Cell(line, k) == line[s..e]
  {
    assert line[s..e][k - s] == line[k];
    assert line[s..k + 1] == line[s..e][..k + 1 - s];
    assert line[k..e] == line[s..e][k - s..];
    RunStartIs(line, s, k);
    RunEndIs(line, k, e);
  }

  /** The extent of the regex match `\d+` that starts at a run start. */
  method MatchEnd(line: string, i: nat) returns (j: nat)
    requires i < |line| && IsDecimal(line[i])
    ensures j == RunEnd(line, i)
  {
    j := i + 1;
    while j < |line| && IsDecimal(line[j])
      invariant i < j <= |line| && AllDecimal(line[i..j])
    {
      assert line[i..j + 1] == line[i..j] + [line[j]];
      j := j + 1;
    }
    RunEndIs(line, i, j);
  }

  /** Overwrites the cells i..j-1 of one match with its text. */
  method OverwriteRun(chars: array<string>, line: string, i: nat, j: nat)
    requires chars.Length == |line| && i < j <= |line| && AllDecimal(line[i..j])
    requires i == 0 || !IsDecimal(line[i - 1])
    requires j == |line| || !IsDecimal(line[j])
    modifies chars
    ensures forall m | 0 <= m < |line| ::
      chars[m] == if i <= m < j then Cell(line, m) else old(chars[m])
  {
    var number := line[i..j];
    for k := i to j
      invariant forall m | i <= m < k :: chars[m] == number
      invariant forall m | 0 <= m < |line| && !(i <= m < k) :: chars[m] == old(chars[m])
    {
      chars[k] := number;
    }
    forall m | i <= m < j
      ensures Cell(line, m) == number
    {
      CellsOfRun(line, i, j, m);
    }
  }

  /** The per-line preprocessing: one cell per character, then every cell of
      each maximal digit run (the regex matches of `\d+`) is overwritten with
      the run's text. */
  method ExpandLine(line: string) returns (cells: seq<string>)
    ensures cells == ExpandedRow(line)
  {
    var chars := SingleChars(line);
    ExpandRuns(chars, line);
    cells := chars[..];
    assert forall k | 0 <= k < |line| :: cells[k] == ExpandedRow(line)[k];
  }

  /** One cell per character. */
  method SingleChars(line: string) returns (chars: array<string>)
    ensures fresh(chars) && chars.Length == |line|
    ensures forall k | 0 <= k < |line| :: chars[k] == [line[k]]
  {
    chars := new string[|line|];
    for i := 0 to |line|
      invariant forall k | 0 <= k < i :: chars[k] == [line[k]]
    {
      chars[i] := [line[i]];
    }
  }

  /** Every maximal digit run, left to right, overwritten with its text. */
  method ExpandRuns(chars: array<string>, line: string)
    requires chars.Length == |line|
    requires forall k | 0 <= k < |line| :: chars[k] == [line[k]]
    modifies chars
    ensures forall k | 0 <= k < |line| :: chars[k] == Cell(line, k)
  {
    var i := 0;
    while i < |line|
      invariant i <= |line|
      invariant forall k | 0 <= k < i :: chars[k] == Cell(line, k)
      invariant forall k | i <= k < |line| :: chars[k] == [line[k]]
      invariant i < |line| && IsDecimal(line[i]) ==> i == 0 || !IsDecimal(line[i - 1])
    {
      i := ExpandStep(chars, line, i);
    }
  }

  /** One character of the scan: a run start expands the whole run, any
      other character is its own cell already. */
  method ExpandStep(chars: array<string>, line: string, i: nat) returns (j: nat)
    requires chars.Length == |line| && i < |line|
    requires IsDecimal(line[i]) ==> i == 0 || !IsDecimal(line[i - 1])
    requires forall k | 0 <= k < i :: chars[k] == Cell(line, k)
    requires forall k | i <= k < |line| :: chars[k] == [line[k]]
    modifies chars
    ensures i < j <= |line| && (j < |line| && IsDecimal(line[j]) ==> !IsDecimal(line[j - 1]))
    ensures forall k | 0 <= k < j :: chars[k] == Cell(line, k)
    ensures forall k | j <= k < |line| :: chars[k] == [line[k]]
  {
    if IsDecimal(line[i]) {
      j := ExpandRun(chars, line, i);
    } else {
      assert chars[i] == Cell(line, i);
      j := i + 1;
    }
  }

  /** One regex match of `\d+` at a run start: the run's cells are
      overwritten, and the scan resumes after it. */
  method ExpandRun(chars: array<string>, line: string, i: nat) returns (j: nat)
    requires chars.Length == |line| && i < |line| && IsDecimal(line[i])
    requires i == 0 || !IsDecimal(line[i - 1])
    requires forall k | 0 <= k < i :: chars[k] == Cell(line, k)
    requires forall k | i <= k < |line| :: chars[k] == [line[k]]
    modifies chars
    ensures i < j <= |line| && (j == |line| || !IsDecimal(line[j]))
    ensures forall k | 0 <= k < j :: chars[k] == Cell(line, k)
    ensures forall k | j <= k < |line| :: chars[k] == [line[k]]
  {
    j := MatchEnd(line, i);
    OverwriteRun(chars, line, i, j);
  }

  /** The schematic after expansion, one row per line. */
  function Expanded(lines: seq<string>): seq<seq<string>>
  {
    seq(|lines|, x requires 0 <= x < |lines| => ExpandedRow(lines[x]))
  }

  method ExpandLines(lines: seq<string>) returns (mat: seq<seq<string>>)
    ensures mat == Expanded(lines)
  {
    mat := [];
    for x := 0 to |lines|
      invariant mat == Expanded(lines[..x])
    {
      var row := ExpandLine(lines[x]);
      mat := mat + [row];
    }
    assert lines[..|lines|] == lines;
  }

  // ----------------------------------------------------------- the window

  /** The columns y-1..y+1 of one row, clipped at its end. */
  function RowWindow(row: seq<string>, y: nat): seq<string>
    requires y >= 1
  {
    if y - 1 >= |row| then [] else row[y - 1..Min(y + 2, |row|)]
  }

  /** The row windows of rows lo..hi-1, in order. */
  function Rows(mat: seq<seq<string>>, lo: nat, hi: nat, y: nat): seq<string>
    requires lo <= hi <= |mat| && y >= 1
    decreases hi
  {
    if hi == lo then [] else Rows(mat, lo, hi - 1, y) + RowWindow(mat[hi - 1], y)
  }

  /** The 3x3 window around (x, y) in the order the source visits it: rows
      x-1..x+1 and columns y-1..y+1, clipped at the far edges. */
  function Window(mat: seq<seq<string>>, x: nat, y: nat): seq<string>
    requires 1 <= x < |mat| && y >= 1
  {
    Rows(mat, x - 1, Min(x + 2, |mat|), y)
  }

  lemma {:induction false} RowsSize(mat: seq<seq<string>>, lo: nat, hi: nat, y: nat)
    requires lo <= hi <= |mat| && y >= 1
    ensures |Rows(mat, lo, hi, y)| <= 3 * (hi - lo)
    decreases hi
  {
    if hi > lo {
      RowsSize(mat, lo, hi - 1, y);
      RowWindowSize(mat[hi - 1], y);
      assert Rows(mat, lo, hi, y) == Rows(mat, lo, hi - 1, y) + RowWindow(mat[hi - 1], y);
    }
  }

  lemma {:induction false} RowWindowSize(row: seq<string>, y: nat)
    requires y >= 1
    ensures |RowWindow(row, y)| <= 3
  {
  }

  /** Every cell of the window is a neighbour of (x, y) or (x, y) itself. */
  lemma {:induction false} RowsOnlyNeighbours(mat: seq<seq<string>>, lo: nat, hi: nat, y: nat, i: nat)
    requires lo <= hi <= |mat| && y >= 1
    requires i < |Rows(mat, lo, hi, y)|
    ensures exists r, c | lo <= r < hi && y - 1 <= c <= y + 1 && c < |mat[r]| ::
      Rows(mat, lo, hi, y)[i] == mat[r][c]
    decreases hi
  {
    if i < |Rows(mat, lo, hi - 1, y)| {
      RowsOnlyNeighbours(mat, lo, hi - 1, y, i);
      RowsKeepFront(mat, lo, hi, y, i);
      var r, c :| lo <= r < hi - 1 && y - 1 <= c <= y + 1 && c < |mat[r]| && Rows(mat, lo, hi - 1, y)[i] == mat[r][c];
      assert Rows(mat, lo, hi, y)[i] == mat[r][c];
    } else {
      LastRowCell(mat, lo, hi, y, i);
    }
  }

  lemma {:induction false} RowsKeepFront(mat: seq<seq<string>>, lo: nat, hi: nat, y: nat, i: nat)
    requires lo < hi <= |mat| && y >= 1
    requires i < |Rows(mat, lo, hi - 1, y)|
    ensures i < |Rows(mat, lo, hi, y)| && Rows(mat, lo, hi, y)[i] == Rows(mat, lo, hi - 1, y)[i]
  {
  }

  lemma {:induction false} LastRowCell(mat: seq<seq<string>>, lo: nat, hi: nat, y: nat, i: nat)
    requires lo < hi <= |mat| && y >= 1
    requires |Rows(mat, lo, hi - 1, y)| <= i < |Rows(mat, lo, hi, y)|
    ensures y - 1 + (i - |Rows(mat, lo, hi - 1, y)|) < |mat[hi - 1]|
    ensures i - |Rows(mat, lo, hi - 1, y)| <= 2
    ensures Rows(mat, lo, hi, y)[i] == mat[hi - 1][y - 1 + (i - |Rows(mat, lo, hi - 1, y)|)]
  {
    var front := Rows(mat, lo, hi - 1, y);
    var w := RowWindow(mat[hi - 1], y);
    assert Rows(mat, lo, hi, y) == front + w;
    RowWindowCell(mat[hi - 1], y, i - |front|);
  }

  lemma {:induction false} RowWindowCell(row: seq<string>, y: nat, j: nat)
    requires y >= 1 && j < |RowWindow(row, y)|
    ensures j <= 2 && y - 1 + j < |row| && RowWindow(row, y)[j] == row[y - 1 + j]
  {
    var e := Min(y + 2, |row|);
    assert y - 1 < |row| && RowWindow(row, y) == row[y - 1..e];
  }

  /** Every neighbour cell of (x, y) that exists is in the window. */
  lemma {:induction false} RowsHaveNeighbours(mat: seq<seq<string>>, lo: nat, hi: nat, y: nat, r: nat, c: nat)
    requires lo <= r < hi <= |mat| && y >= 1
    requires y - 1 <= c <= y + 1 && c < |mat[r]|
    ensures mat[r][c] in Rows(mat, lo, hi, y)
    decreases hi
  {
    if r < hi - 1 {
      RowsHaveNeighbours(mat, lo, hi - 1, y, r, c);
    } else {
      assert RowWindow(mat[r], y)[c - (y - 1)] == mat[r][c];
    }
  }

  /** v is the cell of an existing row x-1..x+1 at a column y-1..y+1. */
  predicate Near(mat: seq<seq<string>>, x: nat, y: nat, v: string)
  {
    exists r, c | 0 <= r && x - 1 <= r <= x + 1 && r < |mat| && 0 <= c && y - 1 <= c <= y + 1 && c < |mat[r]| :: v == mat[r][c]
  }

  lemma {:induction false} WindowIsNeighbourhood(mat: seq<seq<string>>, x: nat, y: nat)
    requires 1 <= x < |mat| && y >= 1
    ensures |Window(mat, x, y)| <= 9
    ensures forall r, c | x - 1 <= r <= x + 1 && r < |mat| && y - 1 <= c <= y + 1 && c < |mat[r]| ::
      mat[r][c] in Window(mat, x, y)
    ensures forall i | 0 <= i < |Window(mat, x, y)| :: Near(mat, x, y, Window(mat, x, y)[i])
  {
    RowsSize(mat, x - 1, Min(x + 2, |mat|), y);
    WindowHasNeighbours(mat, x, y);
    WindowOnlyNeighbours(mat, x, y);
  }

  lemma {:induction false} WindowHasNeighbours(mat: seq<seq<string>>, x: nat, y: nat)
    requires 1 <= x < |mat| && y >= 1
    ensures forall r, c | x - 1 <= r <= x + 1 && r < |mat| && y - 1 <= c <= y + 1 && c < |mat[r]| ::
      mat[r][c] in Window(mat, x, y)
  {
    forall r, c | x - 1 <= r <= x + 1 && r < |mat| && y - 1 <= c <= y + 1 && c < |mat[r]|
      ensures mat[r][c] in Window(mat, x, y)
    {
      RowsHaveNeighbours(mat, x - 1, Min(x + 2, |mat|), y, r, c);
    }
  }

  lemma {:induction false} WindowOnlyNeighbours(mat: seq<seq<string>>, x: nat, y: nat)
    requires 1 <= x < |mat| && y >= 1
    ensures forall i | 0 <= i < |Window(mat, x, y)| :: Near(mat, x, y, Window(mat, x, y)[i])
  {
    forall i | 0 <= i < |Window(mat, x, y)|
      ensures Near(mat, x, y, Window(mat, x, y)[i])
    {
      WindowCell(mat, x, y, i);
    }
  }

  lemma {:induction false} WindowCell(mat: seq<seq<string>>, x: nat, y: nat, i: nat)
    requires 1 <= x < |mat| && y >= 1 && i < |Window(mat, x, y)|
    ensures Near(mat, x, y, Window(mat, x, y)[i])
  {
    var hi := Min(x + 2, |mat|);
    assert Window(mat, x, y) == Rows(mat, x - 1, hi, y);
    RowsOnlyNeighbours(mat, x - 1, hi, y, i);
    var r, c :| x - 1 <= r < hi && y - 1 <= c <= y + 1 && c < |mat[r]| && Rows(mat, x - 1, hi, y)[i] == mat[r][c];
    assert x - 1 <= r <= x + 1 && r < |mat| && Window(mat, x, y)[i] == mat[r][c];
  }

  // ------------------------------------------------------ neighbour scan

  /** The numbers collected so far and the last one collected. */
  datatype Scan = Scan(found: seq<nat>, last: nat)

  /** One window cell: a number different from the last one collected is
      pushed and becomes the last; anything else is passed over. */
  function Step(s: Scan, cell: string): Scan
  {
    if Numeric(cell) && DecimalValue(cell) != s.last then Scan(s.found + [DecimalValue(cell)], DecimalValue(cell)) else s
  }

  function ScanFrom(s: Scan, cells: seq<string>): Scan
  {
    if cells == [] then s else Step(ScanFrom(s, cells[..|cells| - 1]), cells[|cells| - 1])
  }

  /** The scan starts with nothing collected and 0 as the last number. */
  const Start := Scan([], 0)

  /** The numbers a cell collects from its window. */
  function Neighbours(mat: seq<seq<string>>, x: nat, y: nat): seq<nat>
    requires 1 <= x < |mat| && y >= 1
  {
    ScanFrom(Start, Window(mat, x, y)).found
  }

  lemma {:induction false} ScanFromAppend(s: Scan, a: seq<string>, b: seq<string>)
    ensures ScanFrom(s, a + b) == ScanFrom(ScanFrom(s, a), b)
    decreases |b|
  {
    if b == [] {
      assert a + b == a;
    } else {
      assert (a + b)[..|a + b| - 1] == a + b[..|b| - 1];
      ScanFromAppend(s, a, b[..|b| - 1]);
    }
  }

  /** Each collected number differs from the one collected just before it
      (from 0 for the first), is the value of a numeric cell scanned, and at
      most one number is collected per cell. */
  predicate Deduplicated(found: seq<nat>)
  {
    forall k | 0 <= k < |found| :: found[k] != (if k == 0 then 0 else found[k - 1])
  }

  lemma {:induction false} ScanProperties(cells: seq<string>)
    ensures var s := ScanFrom(Start, cells);
      |s.found| <= |cells| && Deduplicated(s.found) &&
      (s.found == [] ==> s.last == 0) && (s.found != [] ==> s.last == s.found[|s.found| - 1]) &&
      Collected(s.found, cells)
  {
    ScanShape(cells);
    ScanProvenance(cells);
  }

  lemma {:induction false} ScanShape(cells: seq<string>)
    ensures var s := ScanFrom(Start, cells);
      |s.found| <= |cells| && Deduplicated(s.found) &&
      (s.found == [] ==> s.last == 0) && (s.found != [] ==> s.last == s.found[|s.found| - 1])
  {
    if cells != [] {
      ScanShape(cells[..|cells| - 1]);
    }
  }

  /** Every number in found is the value of some numeric cell. */
  predicate Collected(found: seq<nat>, cells: seq<string>)
  {
    forall k | 0 <= k < |found| :: exists i | 0 <= i < |cells| :: ValueOf(cells[i], found[k])
  }

  /** The cell is a number and n is its value. */
  predicate ValueOf(cell: string, n: nat)
  {
    Numeric(cell) && DecimalValue(cell) == n
  }

  lemma {:induction false} ScanProvenance(cells: seq<string>)
    ensures Collected(ScanFrom(Start, cells).found, cells)
  {
    if cells != [] {
      var front := cells[..|cells| - 1];
      ScanProvenance(front);
      var p := ScanFrom(Start, front).found;
      var s := ScanFrom(Start, cells).found;
      var last := cells[|cells| - 1];
      assert s == p || (Numeric(last) && s == p + [DecimalValue(last)]);
      forall k | 0 <= k < |s|
        ensures exists i | 0 <= i < |cells| :: ValueOf(cells[i], s[k])
      {
        if k < |p| {
          CollectedExtends(p, front, cells, k);
          assert s[k] == p[k];
        } else {
          assert ValueOf(cells[|cells| - 1], s[k]);
        }
      }
    }
  }

  lemma {:induction false} CollectedExtends(found: seq<nat>, front: seq<string>, cells: seq<string>, k: nat)
    requires Collected(found, front) && k < |found|
    requires |front| <= |cells| && front == cells[..|front|]
    ensures exists i | 0 <= i < |cells| :: ValueOf(cells[i], found[k])
  {
    var i :| 0 <= i < |front| && ValueOf(front[i], found[k]);
    assert cells[i] == front[i];
  }

  /** A number repeated in the next cell (the rest of a multi-cell number)
      is collected only once. */
  lemma {:induction false} RepeatIgnored(s: Scan, cells: seq<string>, cell: string)
    ensures ScanFrom(s, cells + [cell, cell]) == ScanFrom(s, cells + [cell])
  {
    assert (cells + [cell, cell])[..|cells| + 1] == cells + [cell];
  }

  /** Only the last number is remembered: an equal number is dropped even
      when a non-numeric cell lies between them. */
  lemma {:induction false} EqualNumbersMerged(s: Scan, a: string, gap: string)
    requires Numeric(a) && !Numeric(gap)
    ensures ScanFrom(s, [a, gap, a]) == ScanFrom(s, [a])
  {
    assert [a, gap, a][..2] == [a, gap];
    assert [a, gap][..1] == [a];
  }

  /** The inner loop over the columns of one window row; `neighbors` and
      `lastElem` carry over from the rows before. */
  method ScanRow(row: seq<string>, y: nat, neighbors0: seq<nat>, last0: nat) returns (neighbors: seq<nat>, lastElem: nat)
    requires y >= 1
    ensures Scan(neighbors, lastElem) == ScanFrom(Scan(neighbors0, last0), RowWindow(row, y))
  {
    neighbors, lastElem := neighbors0, last0;
    if y - 1 < |row| {
      var c := y - 1;
      var colEnd := Min(y + 2, |row|);
      while c < colEnd
        invariant y - 1 <= c <= colEnd
        invariant Scan(neighbors, lastElem) == ScanFrom(Scan(neighbors0, last0), row[y - 1..c])
      {
        var elem := row[c];
        assert row[y - 1..c + 1][..c + 1 - (y - 1) - 1] == row[y - 1..c];
        if Numeric(elem) {
          var num := DecimalValue(elem);
          if num != lastElem {
            neighbors := neighbors + [num];
            lastElem := num;
          }
        }
        c := c + 1;
      }
    }
  }

  /** The nested loops over the window with `last_elem`. */
  method CollectNeighbours(mat: seq<seq<string>>, x: nat, y: nat) returns (neighbors: seq<nat>)
    requires 1 <= x < |mat| && y >= 1
    ensures neighbors == Neighbours(mat, x, y)
  {
    neighbors := [];
    var lastElem := 0;
    var r := x - 1;
    var rowEnd := Min(x + 2, |mat|);
    while r < rowEnd
      invariant x - 1 <= r <= rowEnd
      invariant Scan(neighbors, lastElem) == ScanFrom(Start, Rows(mat, x - 1, r, y))
    {
      ScanFromAppend(Start, Rows(mat, x - 1, r, y), RowWindow(mat[r], y));
      neighbors, lastElem := ScanRow(mat[r], y, neighbors, lastElem);
      r := r + 1;
    }
  }

  // ------------------------------------------------------------- totals

  /** Part 1 collects around symbols, part 2 around gears. */
  datatype Part = Parts | Gears

  /** Part 1: any cell that is neither a number nor "."; part 2: "*" only. */
  predicate Selected(part: Part, cell: string)
  {
    match part
    case Parts => !Numeric(cell) && cell != "."
    case Gears => cell == "*"
  }

  /** Part 1 adds the neighbours' sum; part 2 adds their product, and only
      when more than one neighbour was collected. */
  function Contribution(part: Part, found: seq<nat>): (c: int)
    ensures c >= 0
  {
    SumNonNegative(found);
    ProductNonNegative(found);
    match part
    case Parts => Sum(found)
    case Gears => if |found| > 1 then Product(found) else 0
  }

  /** The window starts at x-1 and y-1, so a selected cell in the first row
      or column underflows the index and panics. */
  predicate Panics(part: Part, mat: seq<seq<string>>)
  {
    exists x, y | 0 <= x < |mat| && 0 <= y < |mat[x]| :: Selected(part, mat[x][y]) && (x == 0 || y == 0)
  }

  function CellTotal(part: Part, mat: seq<seq<string>>, x: nat, y: nat): int
    requires x < |mat| && y < |mat[x]|
  {
    if Selected(part, mat[x][y]) && x >= 1 && y >= 1 then Contribution(part, Neighbours(mat, x, y)) else 0
  }

  /** Contributions of the cells 0..n-1 of row x. */
  function RowTotal(part: Part, mat: seq<seq<string>>, x: nat, n: nat): (t: int)
    requires x < |mat| && n <= |mat[x]|
    ensures t >= 0
  {
    if n == 0 then 0 else RowTotal(part, mat, x, n - 1) + CellTotal(part, mat, x, n - 1)
  }

  /** Contributions of rows 0..m-1. */
  function GridTotal(part: Part, mat: seq<seq<string>>, m: nat): (t: int)
    requires m <= |mat|
    ensures t >= 0
  {
    if m == 0 then 0 else GridTotal(part, mat, m - 1) + RowTotal(part, mat, m - 1, |mat[m - 1]|)
  }

  /** A row with no selected cell among 0..n-1 adds nothing. */
  lemma {:induction false} RowTotalZero(part: Part, mat: seq<seq<string>>, x: nat, n: nat)
    requires x < |mat| && n <= |mat[x]|
    requires forall y | 0 <= y < n :: !Selected(part, mat[x][y])
    ensures RowTotal(part, mat, x, n) == 0
  {
    if n > 0 {
      RowTotalZero(part, mat, x, n - 1);
    }
  }

  /** Rows 0..m-1 with no selected cell add nothing. */
  lemma {:induction false} GridTotalZero(part: Part, mat: seq<seq<string>>, m: nat)
    requires m <= |mat|
    requires forall x, y | 0 <= x < m && 0 <= y < |mat[x]| :: !Selected(part, mat[x][y])
    ensures GridTotal(part, mat, m) == 0
  {
    if m > 0 {
      GridTotalZero(part, mat, m - 1);
      RowTotalZero(part, mat, m - 1, |mat[m - 1]|);
    }
  }

  /** A schematic with no selected cell totals 0. */
  lemma {:induction false} NoSelectionAddsNothing(part: Part, mat: seq<seq<string>>)
    ensures (forall x, y | 0 <= x < |mat| && 0 <= y < |mat[x]| :: !Selected(part, mat[x][y])) ==> GridTotal(part, mat, |mat|) == 0
  {
    if forall x, y | 0 <= x < |mat| && 0 <= y < |mat[x]| :: !Selected(part, mat[x][y]) {
      GridTotalZero(part, mat, |mat|);
    }
  }

  /** The answer of a part on an expanded schematic, or None when it panics:
      exactly when a selected cell lies in the first row or column. The
      answer is never negative, and it is 0 when no cell is selected. */
  function Total(part: Part, mat: seq<seq<string>>): (r: Option<int>)
    ensures r.None? <==> exists x, y | 0 <= x < |mat| && 0 <= y < |mat[x]| :: Selected(part, mat[x][y]) && (x == 0 || y == 0)
    ensures r.Some? ==> r.value >= 0
    ensures (forall x, y | 0 <= x < |mat| && 0 <= y < |mat[x]| :: !Selected(part, mat[x][y])) ==> r == Some(0)
  {
    NoSelectionAddsNothing(part, mat);
    if Panics(part, mat) then None else Some(GridTotal(part, mat, |mat|))
  }

  /** The double loop over all cells of either task. */
  method Solve(part: Part, mat: seq<seq<string>>) returns (r: Option<int>)
    ensures r == Total(part, mat)
  {
    var total := 0;
    for x := 0 to |mat|
      invariant total == GridTotal(part, mat, x)
      invariant forall x', y' | 0 <= x' < x && 0 <= y' < |mat[x']| :: !(Selected(part, mat[x'][y']) && (x' == 0 || y' == 0))
    {
      for y := 0 to |mat[x]|
        invariant total == GridTotal(part, mat, x) + RowTotal(part, mat, x, y)
        invariant forall x', y' | 0 <= x' < x && 0 <= y' < |mat[x']| :: !(Selected(part, mat[x'][y']) && (x' == 0 || y' == 0))
        invariant forall y' | 0 <= y' < y :: !(Selected(part, mat[x][y']) && (x == 0 || y' == 0))
      {
        var c := mat[x][y];
        if !Selected(part, c) {
          continue;
        }
        if x == 0 || y == 0 {
          return None;
        }
        var neighbors := CollectNeighbours(mat, x, y);
        total := total + Contribution(part, neighbors);
      }
    }
    r := Some(total);
  }

  /** `task_1` (part == Parts) and `task_2` (part == Gears) on the input lines. */
  method Task(part: Part, lines: seq<string>) returns (r: Option<int>)
    ensures r == Total(part, Expanded(lines))
  {
    var mat := ExpandLines(lines);
    r := Solve(part, mat);
  }

  // ------------------------------------------------------ worked example

  /** No cell lo..hi-1 of `row` is selected. */
  predicate NoneSelectedIn(part: Part, row: seq<string>, lo: nat, hi: nat)
    requires hi <= |row|
  {
    hi <= lo || (!Selected(part, row[hi - 1]) && NoneSelectedIn(part, row, lo, hi - 1))
  }

  /** No row from index x on starts with a selected cell. */
  predicate FirstColumnClearFrom(part: Part, mat: seq<seq<string>>, x: nat)
    decreases |mat| - x
  {
    x >= |mat| || ((mat[x] == [] || !Selected(part, mat[x][0])) && FirstColumnClearFrom(part, mat, x + 1))
  }

  lemma {:induction false} NoneSelectedAt(part: Part, row: seq<string>, lo: nat, hi: nat, y: nat)
    requires hi <= |row| && NoneSelectedIn(part, row, lo, hi) && lo <= y < hi
    ensures !Selected(part, row[y])
    decreases hi
  {
    if y < hi - 1 {
      NoneSelectedAt(part, row, lo, hi - 1, y);
    }
  }

  lemma {:induction false} FirstColumnClearAt(part: Part, mat: seq<seq<string>>, x: nat, x': nat)
    requires FirstColumnClearFrom(part, mat, x) && x <= x' < |mat| && mat[x'] != []
    ensures !Selected(part, mat[x'][0])
    decreases x' - x
  {
    if x < x' {
      FirstColumnClearAt(part, mat, x + 1, x');
    }
  }

  /** Nothing selected in the first row or column: no panic. */
  lemma {:induction false} NoPanic(part: Part, mat: seq<seq<string>>)
    requires mat != [] && NoneSelectedIn(part, mat[0], 0, |mat[0]|) && FirstColumnClearFrom(part, mat, 0)
    ensures !Panics(part, mat)
  {
    forall x, y | 0 <= x < |mat| && 0 <= y < |mat[x]| && (x == 0 || y == 0)
      ensures !Selected(part, mat[x][y])
    {
      if x == 0 {
        NoneSelectedAt(part, mat[0], 0, |mat[0]|, y);
      } else {
        FirstColumnClearAt(part, mat, 0, x);
      }
    }
  }

  /** Cells lo..hi-1 of a row add nothing when none of them is selected. */
  lemma {:induction false} RowTotalSkip(part: Part, mat: seq<seq<string>>, x: nat, lo: nat, hi: nat)
    requires x < |mat| && lo <= hi <= |mat[x]| && NoneSelectedIn(part, mat[x], lo, hi)
    ensures RowTotal(part, mat, x, hi) == RowTotal(part, mat, x, lo)
    decreases hi
  {
    if lo < hi {
      RowTotalSkip(part, mat, x, lo, hi - 1);
    }
  }

  /** A window wholly inside the grid is three slices of three cells. */
  lemma {:induction false} InteriorWindow(mat: seq<seq<string>>, x: nat, y: nat)
    requires 1 <= x && x + 1 < |mat| && y >= 1
    requires y + 1 < |mat[x - 1]| && y + 1 < |mat[x]| && y + 1 < |mat[x + 1]|
    ensures Window(mat, x, y) == mat[x - 1][y - 1..y + 2] + mat[x][y - 1..y + 2] + mat[x + 1][y - 1..y + 2]
  {
    assert Min(x + 2, |mat|) == x + 2;
    assert Rows(mat, x - 1, x, y) == [] + RowWindow(mat[x - 1], y);
    assert Rows(mat, x - 1, x + 1, y) == Rows(mat, x - 1, x, y) + RowWindow(mat[x], y);
    assert Rows(mat, x - 1, x + 2, y) == Rows(mat, x - 1, x + 1, y) + RowWindow(mat[x + 1], y);
  }

  lemma {:induction false} ValueOfTwo(s: string)
    requires |s| == 2 && AllDecimal(s)
    ensures DecimalValue(s) == 10 * (s[0] as int - '0' as int) + (s[1] as int - '0' as int)
  {
    var empty: string := [];
    assert s[..1][..0] == empty;
    assert DecimalValue(s[..1]) == s[0] as int - '0' as int;
  }

  lemma {:induction false} ValueOfThree(s: string)
    requires |s| == 3 && AllDecimal(s)
    ensures DecimalValue(s) == 100 * (s[0] as int - '0' as int) + 10 * (s[1] as int - '0' as int) + (s[2] as int - '0' as int)
  {
    ValueOfTwo(s[..2]);
  }

  lemma {:induction false} ScanOfThree(s: Scan, a: string, b: string, c: string)
    ensures ScanFrom(s, [a, b, c]) == Step(Step(Step(s, a), b), c)
  {
    var empty: seq<string> := [];
    assert [a][..0] == empty;
    assert ScanFrom(s, [a]) == Step(s, a);
    assert [a, b][..1] == [a];
    assert ScanFrom(s, [a, b]) == Step(Step(s, a), b);
    assert [a, b, c][..2] == [a, b];
  }

  lemma {:induction false} SliceOfThree(row: seq<string>, y: nat)
    requires 1 <= y && y + 1 < |row|
    ensures row[y - 1..y + 2] == [row[y - 1], row[y], row[y + 1]]
  {
  }

  /** The neighbours of an interior cell are the scan of its three row slices. */
  lemma {:induction false} InteriorNeighbours(mat: seq<seq<string>>, x: nat, y: nat)
    requires 1 <= x && x + 1 < |mat| && y >= 1
    requires y + 1 < |mat[x - 1]| && y + 1 < |mat[x]| && y + 1 < |mat[x + 1]|
    ensures Neighbours(mat, x, y) == ScanFrom(ScanFrom(ScanFrom(Start,
      [mat[x - 1][y - 1], mat[x - 1][y], mat[x - 1][y + 1]]),
      [mat[x][y - 1], mat[x][y], mat[x][y + 1]]),
      [mat[x + 1][y - 1], mat[x + 1][y], mat[x + 1][y + 1]]).found
  {
    InteriorWindow(mat, x, y);
    SliceOfThree(mat[x - 1], y);
    SliceOfThree(mat[x], y);
    SliceOfThree(mat[x + 1], y);
    ScanOfRows(mat[x - 1][y - 1..y + 2], mat[x][y - 1..y + 2], mat[x + 1][y - 1..y + 2]);
  }

  /** The 3x3 window scan as three row scans. */
  lemma {:induction false} ScanOfRows(a: seq<string>, b: seq<string>, c: seq<string>)
    ensures ScanFrom(Start, a + b + c) == ScanFrom(ScanFrom(ScanFrom(Start, a), b), c)
  {
    ScanFromAppend(Start, a + b, c);
    ScanFromAppend(Start, a, b);
  }

  lemma {:induction false} SumOfTwo(a: nat, b: nat)
    ensures Sum([a, b]) == a + b && Product([a, b]) == a * b
  {
    var empty: seq<int> := [];
    assert [a][..0] == empty;
    assert Sum([a]) == a && Product([a]) == a;
    assert [a, b][..1] == [a];
  }

  lemma {:induction false} SumOfOne(a: nat)
    ensures Sum([a]) == a
  {
    var empty: seq<int> := [];
    assert [a][..0] == empty;
  }

  function ExampleLines(): seq<string>
  {
    [ "467..114..",
      "...*......",
      "..35..633.",
      "......#...",
      "617*......",
      ".....+.58.",
      "..592.....",
      "......755.",
      "...$.*....",
      ".664.598.." ]
  }

  /** The example schematic after expansion. */
  function ExampleGrid(): seq<seq<string>>
  {
    [ ["467", "467", "467", ".", ".", "114", "114", "114", ".", "."],
      [".", ".", ".", "*", ".", ".", ".", ".", ".", "."],
      [".", ".", "35", "35", ".", ".", "633", "633", "633", "."],
      [".", ".", ".", ".", ".", ".", "#", ".", ".", "."],
      ["617", "617", "617", "*", ".", ".", ".", ".", ".", "."],
      [".", ".", ".", ".", ".", "+", ".", "58", "58", "."],
      [".", ".", "592", "592", "592", ".", ".", ".", ".", "."],
      [".", ".", ".", ".", ".", ".", "755", "755", "755", "."],
      [".", ".", ".", "$", ".", "*", ".", ".", ".", "."],
      [".", "664", "664", "664", ".", "598", "598", "598", ".", "."] ]
  }

  /** A run of two digits between non-digits expands to itself twice. */
  lemma {:induction false} RunOfTwo(line: string, s: nat)
    requires s + 2 <= |line| && IsDecimal(line[s]) && IsDecimal(line[s + 1])
    requires s == 0 || !IsDecimal(line[s - 1])
    requires s + 2 == |line| || !IsDecimal(line[s + 2])
    ensures Cell(line, s) == Cell(line, s + 1) == [line[s], line[s + 1]]
  {
    assert line[s..s + 2] == [line[s], line[s + 1]];
    CellsOfRun(line, s, s + 2, s);
    CellsOfRun(line, s, s + 2, s + 1);
  }

  /** A run of three digits between non-digits expands to itself three times. */
  lemma {:induction false} RunOfThree(line: string, s: nat)
    requires s + 3 <= |line| && IsDecimal(line[s]) && IsDecimal(line[s + 1]) && IsDecimal(line[s + 2])
    requires s == 0 || !IsDecimal(line[s - 1])
    requires s + 3 == |line| || !IsDecimal(line[s + 3])
    ensures Cell(line, s) == Cell(line, s + 1) == Cell(line, s + 2) == [line[s], line[s + 1], line[s + 2]]
  {
    assert line[s..s + 3] == [line[s], line[s + 1], line[s + 2]];
    CellsOfRun(line, s, s + 3, s);
    CellsOfRun(line, s, s + 3, s + 1);
    CellsOfRun(line, s, s + 3, s + 2);
  }

  lemma {:induction false} ExpandedRow0(line: string)
    requires line == "467..114.."
    ensures ExpandedRow(line) == ["467", "467", "467", ".", ".", "114", "114", "114", ".", "."]
  {
    RunOfThree(line, 0);
    RunOfThree(line, 5);
  }

  lemma {:induction false} ExpandedRow1(line: string)
    requires line == "...*......"
    ensures ExpandedRow(line) == [".", ".", ".", "*", ".", ".", ".", ".", ".", "."]
  {

  }

  lemma {:induction false} ExpandedRow2(line: string)
    requires line == "..35..633."
    ensures ExpandedRow(line) == [".", ".", "35", "35", ".", ".", "633", "633", "633", "."]
  {
    RunOfTwo(line, 2);
    RunOfThree(line, 6);
  }

  lemma {:induction false} ExpandedRow3(line: string)
    requires line == "......#..."
    ensures ExpandedRow(line) == [".", ".", ".", ".", ".", ".", "#", ".", ".", "."]
  {

  }

  lemma {:induction false} ExpandedRow4(line: string)
    requires line == "617*......"
    ensures ExpandedRow(line) == ["617", "617", "617", "*", ".", ".", ".", ".", ".", "."]
  {
    RunOfThree(line, 0);
  }

  lemma {:induction false} ExpandedRow5(line: string)
    requires line == ".....+.58."
    ensures ExpandedRow(line) == [".", ".", ".", ".", ".", "+", ".", "58", "58", "."]
  {
    RunOfTwo(line, 7);
  }

  lemma {:induction false} ExpandedRow6(line: string)
    requires line == "..592....."
    ensures ExpandedRow(line) == [".", ".", "592", "592", "592", ".", ".", ".", ".", "."]
  {
    RunOfThree(line, 2);
  }

  lemma {:induction false} ExpandedRow7(line: string)
    requires line == "......755."
    ensures ExpandedRow(line) == [".", ".", ".", ".", ".", ".", "755", "755", "755", "."]
  {
    RunOfThree(line, 6);
  }

  lemma {:induction false} ExpandedRow8(line: string)
    requires line == "...$.*...."
    ensures ExpandedRow(line) == [".", ".", ".", "$", ".", "*", ".", ".", ".", "."]
  {

  }

  lemma {:induction false} ExpandedRow9(line: string)
    requires line == ".664.598.."
    ensures ExpandedRow(line) == [".", "664", "664", "664", ".", "598", "598", "598", ".", "."]
  {
    RunOfThree(line, 1);
    RunOfThree(line, 5);
  }

  lemma {:induction false} ScanWindow13(a: seq<string>, b: seq<string>, c: seq<string>)
    requires a == ["467", ".", "."]
    requires b == [".", "*", "."]
    requires c == ["35", "35", "."]
    ensures ScanFrom(ScanFrom(ScanFrom(Start, a), b), c).found == [467, 35]
  {
    ValueOfTwo("35");
    ValueOfThree("467");
    ScanOfThree(Start, "467", ".", ".");
    ScanOfThree(ScanFrom(Start, a), ".", "*", ".");
    ScanOfThree(ScanFrom(ScanFrom(Start, a), b), "35", "35", ".");
  }

  lemma {:induction false} ScanWindow36(a: seq<string>, b: seq<string>, c: seq<string>)
    requires a == [".", "633", "633"]
    requires b == [".", "#", "."]
    requires c == [".", ".", "."]
    ensures ScanFrom(ScanFrom(ScanFrom(Start, a), b), c).found == [633]
  {
    ValueOfThree("633");
    ScanOfThree(Start, ".", "633", "633");
    ScanOfThree(ScanFrom(Start, a), ".", "#", ".");
    ScanOfThree(ScanFrom(ScanFrom(Start, a), b), ".", ".", ".");
  }

  lemma {:induction false} ScanWindow43(a: seq<string>, b: seq<string>, c: seq<string>)
    requires a == [".", ".", "."]
    requires b == ["617", "*", "."]
    requires c == [".", ".", "."]
    ensures ScanFrom(ScanFrom(ScanFrom(Start, a), b), c).found == [617]
  {
    ValueOfThree("617");
    ScanOfThree(Start, ".", ".", ".");
    ScanOfThree(ScanFrom(Start, a), "617", "*", ".");
    ScanOfThree(ScanFrom(ScanFrom(Start, a), b), ".", ".", ".");
  }

  lemma {:induction false} ScanWindow55(a: seq<string>, b: seq<string>, c: seq<string>)
    requires a == [".", ".", "."]
    requires b == [".", "+", "."]
    requires c == ["592", ".", "."]
    ensures ScanFrom(ScanFrom(ScanFrom(Start, a), b), c).found == [592]
  {
    ValueOfThree("592");
    ScanOfThree(Start, ".", ".", ".");
    ScanOfThree(ScanFrom(Start, a), ".", "+", ".");
    ScanOfThree(ScanFrom(ScanFrom(Start, a), b), "592", ".", ".");
  }

  lemma {:induction false} ScanWindow83(a: seq<string>, b: seq<string>, c: seq<string>)
    requires a == [".", ".", "."]
    requires b == [".", "$", "."]
    requires c == ["664", "664", "."]
    ensures ScanFrom(ScanFrom(ScanFrom(Start, a), b), c).found == [664]
  {
    ValueOfThree("664");
    ScanOfThree(Start, ".", ".", ".");
    ScanOfThree(ScanFrom(Start, a), ".", "$", ".");
    ScanOfThree(ScanFrom(ScanFrom(Start, a), b), "664", "664", ".");
  }

  lemma {:induction false} ScanWindow85(a: seq<string>, b: seq<string>, c: seq<string>)
    requires a == [".", ".", "755"]
    requires b == [".", "*", "."]
    requires c == [".", "598", "598"]
    ensures ScanFrom(ScanFrom(ScanFrom(Start, a), b), c).found == [755, 598]
  {
    ValueOfThree("598");
    ValueOfThree("755");
    ScanOfThree(Start, ".", ".", "755");
    ScanOfThree(ScanFrom(Start, a), ".", "*", ".");
    ScanOfThree(ScanFrom(ScanFrom(Start, a), b), ".", "598", "598");
  }

  lemma {:induction false} RowTotals0(mat: seq<seq<string>>)
    requires |mat| == 10
    requires mat[0] == ["467", "467", "467", ".", ".", "114", "114", "114", ".", "."]
    ensures RowTotal(Parts, mat, 0, 10) == 0 && RowTotal(Gears, mat, 0, 10) == 0
  {
    assert NoneSelectedIn(Parts, ["467", "467", "467", ".", ".", "114", "114", "114", ".", "."], 0, 10);
    RowTotalSkip(Parts, mat, 0, 0, 10);
    assert NoneSelectedIn(Gears, ["467", "467", "467", ".", ".", "114", "114", "114", ".", "."], 0, 10);
    RowTotalSkip(Gears, mat, 0, 0, 10);
  }

  lemma {:induction false} RowTotals1(mat: seq<seq<string>>)
    requires |mat| == 10
    requires mat[0] == ["467", "467", "467", ".", ".", "114", "114", "114", ".", "."]
    requires mat[1] == [".", ".", ".", "*", ".", ".", ".", ".", ".", "."]
    requires mat[2] == [".", ".", "35", "35", ".", ".", "633", "633", "633", "."]
    ensures RowTotal(Parts, mat, 1, 10) == 502 && RowTotal(Gears, mat, 1, 10) == 16345
  {
    assert NoneSelectedIn(Parts, [".", ".", ".", "*", ".", ".", ".", ".", ".", "."], 0, 3);
    RowTotalSkip(Parts, mat, 1, 0, 3);
    InteriorNeighbours(mat, 1, 3);
    ScanWindow13(["467", ".", "."], [".", "*", "."], ["35", "35", "."]);
    assert Selected(Parts, "*");
    SumOfTwo(467, 35);
    assert CellTotal(Parts, mat, 1, 3) == 502;
    assert RowTotal(Parts, mat, 1, 4) == 502;
    assert NoneSelectedIn(Parts, [".", ".", ".", "*", ".", ".", ".", ".", ".", "."], 4, 10);
    RowTotalSkip(Parts, mat, 1, 4, 10);
    assert NoneSelectedIn(Gears, [".", ".", ".", "*", ".", ".", ".", ".", ".", "."], 0, 3);
    RowTotalSkip(Gears, mat, 1, 0, 3);
    InteriorNeighbours(mat, 1, 3);
    ScanWindow13(["467", ".", "."], [".", "*", "."], ["35", "35", "."]);
    assert Selected(Gears, "*");
    SumOfTwo(467, 35);
    assert CellTotal(Gears, mat, 1, 3) == 16345;
    assert RowTotal(Gears, mat, 1, 4) == 16345;
    assert NoneSelectedIn(Gears, [".", ".", ".", "*", ".", ".", ".", ".", ".", "."], 4, 10);
    RowTotalSkip(Gears, mat, 1, 4, 10);
  }

  lemma {:induction false} RowTotals2(mat: seq<seq<string>>)
    requires |mat| == 10
    requires mat[2] == [".", ".", "35", "35", ".", ".", "633", "633", "633", "."]
    ensures RowTotal(Parts, mat, 2, 10) == 0 && RowTotal(Gears, mat, 2, 10) == 0
  {
    assert NoneSelectedIn(Parts, [".", ".", "35", "35", ".", ".", "633", "633", "633", "."], 0, 10);
    RowTotalSkip(Parts, mat, 2, 0, 10);
    assert NoneSelectedIn(Gears, [".", ".", "35", "35", ".", ".", "633", "633", "633", "."], 0, 10);
    RowTotalSkip(Gears, mat, 2, 0, 10);
  }

  lemma {:induction false} RowTotals3(mat: seq<seq<string>>)
    requires |mat| == 10
    requires mat[2] == [".", ".", "35", "35", ".", ".", "633", "633", "633", "."]
    requires mat[3] == [".", ".", ".", ".", ".", ".", "#", ".", ".", "."]
    requires mat[4] == ["617", "617", "617", "*", ".", ".", ".", ".", ".", "."]
    ensures RowTotal(Parts, mat, 3, 10) == 633 && RowTotal(Gears, mat, 3, 10) == 0
  {
    assert NoneSelectedIn(Parts, [".", ".", ".", ".", ".", ".", "#", ".", ".", "."], 0, 6);
    RowTotalSkip(Parts, mat, 3, 0, 6);
    InteriorNeighbours(mat, 3, 6);
    ScanWindow36([".", "633", "633"], [".", "#", "."], [".", ".", "."]);
    assert Selected(Parts, "#");
    SumOfOne(633);
    assert CellTotal(Parts, mat, 3, 6) == 633;
    assert RowTotal(Parts, mat, 3, 7) == 633;
    assert NoneSelectedIn(Parts, [".", ".", ".", ".", ".", ".", "#", ".", ".", "."], 7, 10);
    RowTotalSkip(Parts, mat, 3, 7, 10);
    assert NoneSelectedIn(Gears, [".", ".", ".", ".", ".", ".", "#", ".", ".", "."], 0, 10);
    RowTotalSkip(Gears, mat, 3, 0, 10);
  }

  lemma {:induction false} RowTotals4(mat: seq<seq<string>>)
    requires |mat| == 10
    requires mat[3] == [".", ".", ".", ".", ".", ".", "#", ".", ".", "."]
    requires mat[4] == ["617", "617", "617", "*", ".", ".", ".", ".", ".", "."]
    requires mat[5] == [".", ".", ".", ".", ".", "+", ".", "58", "58", "."]
    ensures RowTotal(Parts, mat, 4, 10) == 617 && RowTotal(Gears, mat, 4, 10) == 0
  {
    assert NoneSelectedIn(Parts, ["617", "617", "617", "*", ".", ".", ".", ".", ".", "."], 0, 3);
    RowTotalSkip(Parts, mat, 4, 0, 3);
    InteriorNeighbours(mat, 4, 3);
    ScanWindow43([".", ".", "."], ["617", "*", "."], [".", ".", "."]);
    assert Selected(Parts, "*");
    SumOfOne(617);
    assert CellTotal(Parts, mat, 4, 3) == 617;
    assert RowTotal(Parts, mat, 4, 4) == 617;
    assert NoneSelectedIn(Parts, ["617", "617", "617", "*", ".", ".", ".", ".", ".", "."], 4, 10);
    RowTotalSkip(Parts, mat, 4, 4, 10);
    assert NoneSelectedIn(Gears, ["617", "617", "617", "*", ".", ".", ".", ".", ".", "."], 0, 3);
    RowTotalSkip(Gears, mat, 4, 0, 3);
    InteriorNeighbours(mat, 4, 3);
    ScanWindow43([".", ".", "."], ["617", "*", "."], [".", ".", "."]);
    assert Selected(Gears, "*");
    SumOfOne(617);
    assert CellTotal(Gears, mat, 4, 3) == 0;
    assert RowTotal(Gears, mat, 4, 4) == 0;
    assert NoneSelectedIn(Gears, ["617", "617", "617", "*", ".", ".", ".", ".", ".", "."], 4, 10);
    RowTotalSkip(Gears, mat, 4, 4, 10);
  }

  lemma {:induction false} RowTotals5(mat: seq<seq<string>>)
    requires |mat| == 10
    requires mat[4] == ["617", "617", "617", "*", ".", ".", ".", ".", ".", "."]
    requires mat[5] == [".", ".", ".", ".", ".", "+", ".", "58", "58", "."]
    requires mat[6] == [".", ".", "592", "592", "592", ".", ".", ".", ".", "."]
    ensures RowTotal(Parts, mat, 5, 10) == 592 && RowTotal(Gears, mat, 5, 10) == 0
  {
    assert NoneSelectedIn(Parts, [".", ".", ".", ".", ".", "+", ".", "58", "58", "."], 0, 5);
    RowTotalSkip(Parts, mat, 5, 0, 5);
    InteriorNeighbours(mat, 5, 5);
    ScanWindow55([".", ".", "."], [".", "+", "."], ["592", ".", "."]);
    assert Selected(Parts, "+");
    SumOfOne(592);
    assert CellTotal(Parts, mat, 5, 5) == 592;
    assert RowTotal(Parts, mat, 5, 6) == 592;
    assert NoneSelectedIn(Parts, [".", ".", ".", ".", ".", "+", ".", "58", "58", "."], 6, 10);
    RowTotalSkip(Parts, mat, 5, 6, 10);
    assert NoneSelectedIn(Gears, [".", ".", ".", ".", ".", "+", ".", "58", "58", "."], 0, 10);
    RowTotalSkip(Gears, mat, 5, 0, 10);
  }

  lemma {:induction false} RowTotals6(mat: seq<seq<string>>)
    requires |mat| == 10
    requires mat[6] == [".", ".", "592", "592", "592", ".", ".", ".", ".", "."]
    ensures RowTotal(Parts, mat, 6, 10) == 0 && RowTotal(Gears, mat, 6, 10) == 0
  {
    assert NoneSelectedIn(Parts, [".", ".", "592", "592", "592", ".", ".", ".", ".", "."], 0, 10);
    RowTotalSkip(Parts, mat, 6, 0, 10);
    assert NoneSelectedIn(Gears, [".", ".", "592", "592", "592", ".", ".", ".", ".", "."], 0, 10);
    RowTotalSkip(Gears, mat, 6, 0, 10);
  }

  lemma {:induction false} RowTotals7(mat: seq<seq<string>>)
    requires |mat| == 10
    requires mat[7] == [".", ".", ".", ".", ".", ".", "755", "755", "755", "."]
    ensures RowTotal(Parts, mat, 7, 10) == 0 && RowTotal(Gears, mat, 7, 10) == 0
  {
    assert NoneSelectedIn(Parts, [".", ".", ".", ".", ".", ".", "755", "755", "755", "."], 0, 10);
    RowTotalSkip(Parts, mat, 7, 0, 10);
    assert NoneSelectedIn(Gears, [".", ".", ".", ".", ".", ".", "755", "755", "755", "."], 0, 10);
    RowTotalSkip(Gears, mat, 7, 0, 10);
  }

  lemma {:induction false} RowTotals8(mat: seq<seq<string>>)
    requires |mat| == 10
    requires mat[7] == [".", ".", ".", ".", ".", ".", "755", "755", "755", "."]
    requires mat[8] == [".", ".", ".", "$", ".", "*", ".", ".", ".", "."]
    requires mat[9] == [".", "664", "664", "664", ".", "598", "598", "598", ".", "."]
    ensures RowTotal(Parts, mat, 8, 10) == 2017 && RowTotal(Gears, mat, 8, 10) == 451490
  {
    RowTotals8Parts(mat);
    RowTotals8Gears(mat);
  }

  lemma {:induction false} RowTotals8Parts(mat: seq<seq<string>>)
    requires |mat| == 10
    requires mat[7] == [".", ".", ".", ".", ".", ".", "755", "755", "755", "."]
    requires mat[8] == [".", ".", ".", "$", ".", "*", ".", ".", ".", "."]
    requires mat[9] == [".", "664", "664", "664", ".", "598", "598", "598", ".", "."]
    ensures RowTotal(Parts, mat, 8, 10) == 2017
  {
    assert NoneSelectedIn(Parts, [".", ".", ".", "$", ".", "*", ".", ".", ".", "."], 0, 3);
    RowTotalSkip(Parts, mat, 8, 0, 3);
    InteriorNeighbours(mat, 8, 3);
    ScanWindow83([".", ".", "."], [".", "$", "."], ["664", "664", "."]);
    assert Selected(Parts, "$");
    SumOfOne(664);
    assert CellTotal(Parts, mat, 8, 3) == 664;
    assert RowTotal(Parts, mat, 8, 4) == 664;
    assert NoneSelectedIn(Parts, [".", ".", ".", "$", ".", "*", ".", ".", ".", "."], 4, 5);
    RowTotalSkip(Parts, mat, 8, 4, 5);
    InteriorNeighbours(mat, 8, 5);
    ScanWindow85([".", ".", "755"], [".", "*", "."], [".", "598", "598"]);
    assert Selected(Parts, "*");
    SumOfTwo(755, 598);
    assert CellTotal(Parts, mat, 8, 5) == 1353;
    assert RowTotal(Parts, mat, 8, 6) == 2017;
    assert NoneSelectedIn(Parts, [".", ".", ".", "$", ".", "*", ".", ".", ".", "."], 6, 10);
    RowTotalSkip(Parts, mat, 8, 6, 10);
  }

  lemma {:induction false} RowTotals8Gears(mat: seq<seq<string>>)
    requires |mat| == 10
    requires mat[7] == [".", ".", ".", ".", ".", ".", "755", "755", "755", "."]
    requires mat[8] == [".", ".", ".", "$", ".", "*", ".", ".", ".", "."]
    requires mat[9] == [".", "664", "664", "664", ".", "598", "598", "598", ".", "."]
    ensures RowTotal(Gears, mat, 8, 10) == 451490
  {
    assert NoneSelectedIn(Gears, [".", ".", ".", "$", ".", "*", ".", ".", ".", "."], 0, 5);
    RowTotalSkip(Gears, mat, 8, 0, 5);
    InteriorNeighbours(mat, 8, 5);
    ScanWindow85([".", ".", "755"], [".", "*", "."], [".", "598", "598"]);
    assert Selected(Gears, "*");
    SumOfTwo(755, 598);
    assert CellTotal(Gears, mat, 8, 5) == 451490;
    assert RowTotal(Gears, mat, 8, 6) == 451490;
    assert NoneSelectedIn(Gears, [".", ".", ".", "$", ".", "*", ".", ".", ".", "."], 6, 10);
    RowTotalSkip(Gears, mat, 8, 6, 10);
  }

  lemma {:induction false} RowTotals9(mat: seq<seq<string>>)
    requires |mat| == 10
    requires mat[9] == [".", "664", "664", "664", ".", "598", "598", "598", ".", "."]
    ensures RowTotal(Parts, mat, 9, 10) == 0 && RowTotal(Gears, mat, 9, 10) == 0
  {
    assert NoneSelectedIn(Parts, [".", "664", "664", "664", ".", "598", "598", "598", ".", "."], 0, 10);
    RowTotalSkip(Parts, mat, 9, 0, 10);
    assert NoneSelectedIn(Gears, [".", "664", "664", "664", ".", "598", "598", "598", ".", "."], 0, 10);
    RowTotalSkip(Gears, mat, 9, 0, 10);
  }

  lemma {:induction false} GridTotals(mat: seq<seq<string>>)
    requires |mat| == 10
    requires mat[0] == ["467", "467", "467", ".", ".", "114", "114", "114", ".", "."]
    requires mat[1] == [".", ".", ".", "*", ".", ".", ".", ".", ".", "."]
    requires mat[2] == [".", ".", "35", "35", ".", ".", "633", "633", "633", "."]
    requires mat[3] == [".", ".", ".", ".", ".", ".", "#", ".", ".", "."]
    requires mat[4] == ["617", "617", "617", "*", ".", ".", ".", ".", ".", "."]
    requires mat[5] == [".", ".", ".", ".", ".", "+", ".", "58", "58", "."]
    requires mat[6] == [".", ".", "592", "592", "592", ".", ".", ".", ".", "."]
    requires mat[7] == [".", ".", ".", ".", ".", ".", "755", "755", "755", "."]
    requires mat[8] == [".", ".", ".", "$", ".", "*", ".", ".", ".", "."]
    requires mat[9] == [".", "664", "664", "664", ".", "598", "598", "598", ".", "."]
    ensures GridTotal(Parts, mat, 10) == 4361 && GridTotal(Gears, mat, 10) == 467835
  {
    RowTotals0(mat);
    RowTotals1(mat);
    RowTotals2(mat);
    RowTotals3(mat);
    RowTotals4(mat);
    RowTotals5(mat);
    RowTotals6(mat);
    RowTotals7(mat);
    RowTotals8(mat);
    RowTotals9(mat);
    assert GridTotal(Parts, mat, 1) == 0 && GridTotal(Gears, mat, 1) == 0;
    assert GridTotal(Parts, mat, 2) == 502 && GridTotal(Gears, mat, 2) == 16345;
    assert GridTotal(Parts, mat, 3) == 502 && GridTotal(Gears, mat, 3) == 16345;
    assert GridTotal(Parts, mat, 4) == 1135 && GridTotal(Gears, mat, 4) == 16345;
    assert GridTotal(Parts, mat, 5) == 1752 && GridTotal(Gears, mat, 5) == 16345;
    assert GridTotal(Parts, mat, 6) == 2344 && GridTotal(Gears, mat, 6) == 16345;
    assert GridTotal(Parts, mat, 7) == 2344 && GridTotal(Gears, mat, 7) == 16345;
    assert GridTotal(Parts, mat, 8) == 2344 && GridTotal(Gears, mat, 8) == 16345;
    assert GridTotal(Parts, mat, 9) == 4361 && GridTotal(Gears, mat, 9) == 467835;
    assert GridTotal(Parts, mat, 10) == 4361 && GridTotal(Gears, mat, 10) == 467835;
  }

  lemma {:induction false} ExampleExpanded(lines: seq<string>)
    requires lines == ExampleLines()
    ensures Expanded(lines) == ExampleGrid()
  {
    ExpandedRow0(lines[0]);
    ExpandedRow1(lines[1]);
    ExpandedRow2(lines[2]);
    ExpandedRow3(lines[3]);
    ExpandedRow4(lines[4]);
    ExpandedRow5(lines[5]);
    ExpandedRow6(lines[6]);
    ExpandedRow7(lines[7]);
    ExpandedRow8(lines[8]);
    ExpandedRow9(lines[9]);
  }

  lemma {:induction false} ExampleNoPanic(part: Part, mat: seq<seq<string>>)
    requires |mat| == 10
    requires mat[0] == ["467", "467", "467", ".", ".", "114", "114", "114", ".", "."]
    requires mat[1] == [".", ".", ".", "*", ".", ".", ".", ".", ".", "."]
    requires mat[2] == [".", ".", "35", "35", ".", ".", "633", "633", "633", "."]
    requires mat[3] == [".", ".", ".", ".", ".", ".", "#", ".", ".", "."]
    requires mat[4] == ["617", "617", "617", "*", ".", ".", ".", ".", ".", "."]
    requires mat[5] == [".", ".", ".", ".", ".", "+", ".", "58", "58", "."]
    requires mat[6] == [".", ".", "592", "592", "592", ".", ".", ".", ".", "."]
    requires mat[7] == [".", ".", ".", ".", ".", ".", "755", "755", "755", "."]
    requires mat[8] == [".", ".", ".", "$", ".", "*", ".", ".", ".", "."]
    requires mat[9] == [".", "664", "664", "664", ".", "598", "598", "598", ".", "."]
    ensures !Panics(part, mat)
  {
    assert NoneSelectedIn(part, ["467", "467", "467", ".", ".", "114", "114", "114", ".", "."], 0, 10);
    assert FirstColumnClearFrom(part, mat, 10);
    assert FirstColumnClearFrom(part, mat, 9);
    assert FirstColumnClearFrom(part, mat, 8);
    assert FirstColumnClearFrom(part, mat, 7);
    assert FirstColumnClearFrom(part, mat, 6);
    assert FirstColumnClearFrom(part, mat, 5);
    assert FirstColumnClearFrom(part, mat, 4);
    assert FirstColumnClearFrom(part, mat, 3);
    assert FirstColumnClearFrom(part, mat, 2);
    assert FirstColumnClearFrom(part, mat, 1);
    assert FirstColumnClearFrom(part, mat, 0);
    NoPanic(part, mat);
  }

  /** The worked example: the symbols collect part numbers adding up to
      4361, and the two gears have ratios 16345 and 451490, 467835 in all. */
  lemma {:induction false} Example(lines: seq<string>)
    requires lines == ExampleLines()
    ensures Total(Parts, Expanded(lines)) == Some(4361)
    ensures Total(Gears, Expanded(lines)) == Some(467835)
  {
    ExampleExpanded(lines);
    var mat := ExampleGrid();
    assert mat[0] == ["467", "467", "467", ".", ".", "114", "114", "114", ".", "."];
    assert mat[1] == [".", ".", ".", "*", ".", ".", ".", ".", ".", "."];
    assert mat[2] == [".", ".", "35", "35", ".", ".", "633", "633", "633", "."];
    assert mat[3] == [".", ".", ".", ".", ".", ".", "#", ".", ".", "."];
    assert mat[4] == ["617", "617", "617", "*", ".", ".", ".", ".", ".", "."];
    assert mat[5] == [".", ".", ".", ".", ".", "+", ".", "58", "58", "."];
    assert mat[6] == [".", ".", "592", "592", "592", ".", ".", ".", ".", "."];
    assert mat[7] == [".", ".", ".", ".", ".", ".", "755", "755", "755", "."];
    assert mat[8] == [".", ".", ".", "$", ".", "*", ".", ".", ".", "."];
    assert mat[9] == [".", "664", "664", "664", ".", "598", "598", "598", ".", "."];
    ExampleNoPanic(Parts, mat);
    ExampleNoPanic(Gears, mat);
    GridTotals(mat);
  }
}
