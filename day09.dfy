/**
 * Mirage Maintenance: difference tables and extrapolation of a history
 * forwards and backwards (day-09/src/main.rs).
 */
module MirageMaintenance {

  /** Every entry is zero; the empty row counts as all zero. */
  predicate AllZero(row: seq<int>)
  {
    forall k | 0 <= k < |row| :: row[k] == 0
  }

  /** The row of differences of neighbouring entries (`tuple_windows`). */
  function Diff(row: seq<int>): (d: seq<int>)
    ensures |d| == if |row| <= 1 then 0 else |row| - 1
  {
    if |row| <= 1 then [] else [row[1] - row[0]] + Diff(row[1..])
  }

  /** Entry k of the difference row is row[k+1] - row[k]. */
  lemma {:induction false} DiffAt(row: seq<int>, k: nat)
    requires k < |Diff(row)|
    ensures Diff(row)[k] == row[k + 1] - row[k]
  {
    if k > 0 {
      DiffAt(row[1..], k - 1);
    }
  }

  lemma {:induction false} DiffAll(row: seq<int>)
    ensures forall k {:trigger Diff(row)[k]} | 0 <= k < |Diff(row)| :: Diff(row)[k] == row[k + 1] - row[k]
  {
    forall k | 0 <= k < |Diff(row)| ensures Diff(row)[k] == row[k + 1] - row[k] {
      DiffAt(row, k);
    }
  }

  /** The value extrapolated after the last entry: a row that is all zero
      continues with 0, any other row with its last entry plus the value
      extrapolated for its difference row. */
  function Next(row: seq<int>): int
    decreases |row|
  {
    if AllZero(row) then 0 else row[|row| - 1] + Next(Diff(row))
  }

  /** The value extrapolated before the first entry. */
  function Prev(row: seq<int>): int
    decreases |row|
  {
    if AllZero(row) then 0 else row[0] - Prev(Diff(row))
  }

  /** The difference table of a row: the row itself, then its difference
      rows, up to and including the first row that is all zero. */
  function Table(row: seq<int>): (t: seq<seq<int>>)
    ensures 1 <= |t| <= |row| + 1 && t[0] == row
    decreases |row|
  {
    if AllZero(row) then [row] else [row] + Table(Diff(row))
  }

  /** Each row of the table after the first is the difference row of the one
      above it, which is not all zero; the last row is all zero. */
  lemma {:induction false} TableAt(row: seq<int>, k: nat)
    requires k + 1 < |Table(row)|
    ensures !AllZero(Table(row)[k])
    ensures Table(row)[k + 1] == Diff(Table(row)[k])
    decreases |row|
  {
    if k > 0 {
      TableAt(Diff(row), k - 1);
    }
  }

  lemma {:induction false} TableLast(row: seq<int>)
    ensures AllZero(Table(row)[|Table(row)| - 1])
    decreases |row|
  {
    if !AllZero(row) {
      TableLast(Diff(row));
    }
  }

  /** The next difference row, built by pushing one difference per window. */
  method Differences(row: seq<int>) returns (next: seq<int>)
    ensures next == Diff(row)
  {
    next := [];
    var k := 0;
    while k + 1 < |row|
      invariant 0 <= k && (|row| <= 1 ==> k == 0) && (|row| > 1 ==> k <= |row| - 1)
      invariant |next| == k
      invariant forall j | 0 <= j < k :: next[j] == row[j + 1] - row[j]
    {
      next := next + [row[k + 1] - row[k]];
      k := k + 1;
    }
    DiffAll(row);
    assert |next| == |Diff(row)|;
    assert forall j | 0 <= j < |next| :: next[j] == Diff(row)[j];
  }

  /** The difference table: rows are pushed until the newest one is all zero. */
  method DifferenceTable(sequence: seq<int>) returns (diffs: seq<seq<int>>)
    ensures diffs == Table(sequence)
  {
    var i := 0;
    diffs := [sequence];
    while !AllZero(diffs[i])
      invariant |diffs| == i + 1
      invariant diffs[..i] + Table(diffs[i]) == Table(sequence)
      decreases |diffs[i]|
    {
      var row := diffs[i];
      var next := Differences(row);
      assert Table(row) == [row] + Table(next);
      ghost var prefix := diffs[..i];
      diffs := diffs + [next];
      i := i + 1;
      assert diffs[..i] == prefix + [row];
      assert prefix + Table(row) == (prefix + [row]) + Table(next);
    }
    assert Table(diffs[i]) == [diffs[i]];
    assert diffs == diffs[..i] + [diffs[i]];
  }

  /** Part 1 for one history: append 0 to the last row, then from the bottom
      up push last(row) + last(row below); answer the new last entry of row 0. */
  method ExtrapolateForward(sequence: seq<int>) returns (value: int)
    ensures value == Next(sequence)
  {
    var diffs := DifferenceTable(sequence);
    ghost var t := diffs;
    var m := |diffs| - 1;
    TableLast(sequence);
    diffs := diffs[m := diffs[m] + [0]];
    var i := m;
    while i > 0
      invariant 0 <= i <= m && |diffs| == m + 1
      invariant forall k | 0 <= k < i :: diffs[k] == t[k]
      invariant forall k | i <= k <= m :: diffs[k] == t[k] + [Next(t[k])]
    {
      i := i - 1;
      TableAt(sequence, i);
      NextStep(t[i]);
      var below := diffs[i + 1];
      var row := diffs[i];
      var newValue := below[|below| - 1] + row[|row| - 1];
      diffs := diffs[i := row + [newValue]];
    }
    value := diffs[0][|diffs[0]| - 1];
  }

  /** Part 2 for one history: from the bottom up insert
      first(row) - first(row below) in front; answer the new first entry of row 0. */
  method ExtrapolateBackward(sequence: seq<int>) returns (value: int)
    ensures value == Prev(sequence)
  {
    var diffs := DifferenceTable(sequence);
    ghost var t := diffs;
    var m := |diffs| - 1;
    TableLast(sequence);
    diffs := diffs[m := diffs[m] + [0]];
    var i := m;
    while i > 0
      invariant 0 <= i <= m && |diffs| == m + 1
      invariant forall k | 0 <= k < i :: diffs[k] == t[k]
      invariant diffs[m] == t[m] + [0]
      invariant forall k | i <= k < m :: diffs[k] == [Prev(t[k])] + t[k]
    {
      i := i - 1;
      TableAt(sequence, i);
      PrevStep(t[i]);
      var below := diffs[i + 1];
      var row := diffs[i];
      var newValue := row[0] - below[0];
      diffs := diffs[i := [newValue] + row];
    }
    value := diffs[0][0];
  }

  /** Part 1: the sum of the forward extrapolations. */
  method Task1(sequences: seq<seq<int>>) returns (total: int)
    ensures total == SumNext(sequences)
  {
    total := 0;
    for k := 0 to |sequences|
      invariant total == SumNext(sequences[..k])
    {
      var v := ExtrapolateForward(sequences[k]);
      assert sequences[..k + 1][..k] == sequences[..k];
      total := total + v;
    }
    assert sequences[..|sequences|] == sequences;
  }

  /** Part 2: the sum of the backward extrapolations. */
  method Task2(sequences: seq<seq<int>>) returns (total: int)
    ensures total == SumPrev(sequences)
  {
    total := 0;
    for k := 0 to |sequences|
      invariant total == SumPrev(sequences[..k])
    {
      var v := ExtrapolateBackward(sequences[k]);
      assert sequences[..k + 1][..k] == sequences[..k];
      total := total + v;
    }
    assert sequences[..|sequences|] == sequences;
  }

  function SumNext(sequences: seq<seq<int>>): int
  {
    if sequences == [] then 0 else SumNext(sequences[..|sequences| - 1]) + Next(sequences[|sequences| - 1])
  }

  function SumPrev(sequences: seq<seq<int>>): int
  {
    if sequences == [] then 0 else SumPrev(sequences[..|sequences| - 1]) + Prev(sequences[|sequences| - 1])
  }

  /** Appending x to a row appends x minus the old last entry to its differences. */
  lemma {:induction false} DiffSnoc(row: seq<int>, x: int)
    requires |row| >= 1
    ensures Diff(row + [x]) == Diff(row) + [x - row[|row| - 1]]
  {
    if |row| > 1 {
      assert (row + [x])[1..] == row[1..] + [x];
      DiffSnoc(row[1..], x);
    }
  }

  /** The differences of an all-zero row are all zero. */
  lemma {:induction false} ZeroDiff(row: seq<int>)
    requires AllZero(row)
    ensures AllZero(Diff(row))
  {
    DiffAll(row);
  }

  /** Extending a row by its forward extrapolation extends its difference row
      by that row's extrapolation: the table stays a difference table. */
  lemma {:induction false} NextExtendsDifferences(row: seq<int>)
    requires |row| >= 1
    ensures Diff(row + [Next(row)]) == Diff(row) + [Next(Diff(row))]
  {
    NextStep(row);
    DiffSnoc(row, Next(row));
  }

  /** One step of the forward recursion holds for all-zero rows too. */
  lemma {:induction false} NextStep(row: seq<int>)
    requires |row| >= 1
    ensures Next(row) == row[|row| - 1] + Next(Diff(row))
  {
    if AllZero(row) {
      ZeroDiff(row);
    }
  }

  /** One step of the backward recursion holds for all-zero rows too. */
  lemma {:induction false} PrevStep(row: seq<int>)
    requires |row| >= 1
    ensures Prev(row) == row[0] - Prev(Diff(row))
  {
    if AllZero(row) {
      ZeroDiff(row);
    }
  }

  /** The same for the backward extrapolation, at the front. */
  lemma {:induction false} PrevExtendsDifferences(row: seq<int>)
    requires |row| >= 1
    ensures Diff([Prev(row)] + row) == [Prev(Diff(row))] + Diff(row)
  {
    PrevStep(row);
    assert ([Prev(row)] + row)[1..] == row;
  }

  /** A constant row of at least one entry continues with that constant. */
  lemma {:induction false} ConstantRow(d: seq<int>, b: int)
    requires |d| >= 1
    requires forall k | 0 <= k < |d| :: d[k] == b
    ensures Next(d) == b && Prev(d) == b
  {
    DiffAll(d);
    assert AllZero(Diff(d));
    NextStep(d);
    PrevStep(d);
  }

  /** An arithmetic progression of at least two entries is continued:
      a, a+b, ..., a+b(n-1) extrapolates to a+bn forwards and a-b backwards. */
  lemma {:induction false} ArithmeticProgression(row: seq<int>, a: int, b: int)
    requires |row| >= 2
    requires forall k | 0 <= k < |row| :: row[k] == a + b * k
    ensures Next(row) == a + b * |row|
    ensures Prev(row) == a - b
  {
    var d := Diff(row);
    DiffAll(row);
    forall k | 0 <= k < |d| ensures d[k] == b {
      assert row[k + 1] == a + b * k + b;
    }
    ConstantRow(d, b);
    NextStep(row);
    PrevStep(row);
    assert row[|row| - 1] == a + b * |row| - b;
  }

  /** A row whose entries are the neighbouring differences is the difference row. */
  lemma {:induction false} DiffIs(row: seq<int>, d: seq<int>)
    requires |row| >= 1 && |d| == |row| - 1
    requires forall k | 0 <= k < |d| :: d[k] == row[k + 1] - row[k]
    ensures Diff(row) == d
  {
    DiffAll(row);
  }

  lemma {:induction false} SecondHistory()
    ensures Next([1, 3, 6, 10, 15, 21]) == 28 && Prev([1, 3, 6, 10, 15, 21]) == 0
  {
    DiffIs([1, 3, 6, 10, 15, 21], [2, 3, 4, 5, 6]);
    ArithmeticProgression([2, 3, 4, 5, 6], 2, 1);
    NextStep([1, 3, 6, 10, 15, 21]);
    PrevStep([1, 3, 6, 10, 15, 21]);
  }

  lemma {:induction false} ThirdHistory()
    ensures Next([10, 13, 16, 21, 30, 45]) == 68 && Prev([10, 13, 16, 21, 30, 45]) == 5
  {
    DiffIs([3, 3, 5, 9, 15], [0, 2, 4, 6]);
    ArithmeticProgression([0, 2, 4, 6], 0, 2);
    NextStep([3, 3, 5, 9, 15]);
    PrevStep([3, 3, 5, 9, 15]);
    DiffIs([10, 13, 16, 21, 30, 45], [3, 3, 5, 9, 15]);
    NextStep([10, 13, 16, 21, 30, 45]);
    PrevStep([10, 13, 16, 21, 30, 45]);
  }

  /** The three histories of the worked example extrapolate to 114 in total
      forwards and to 2 in total backwards. */
  lemma {:induction false} Examples()
    ensures SumNext([[0, 3, 6, 9, 12, 15], [1, 3, 6, 10, 15, 21], [10, 13, 16, 21, 30, 45]]) == 114
    ensures SumPrev([[0, 3, 6, 9, 12, 15], [1, 3, 6, 10, 15, 21], [10, 13, 16, 21, 30, 45]]) == 2
  {
    var a, b, c := [0, 3, 6, 9, 12, 15], [1, 3, 6, 10, 15, 21], [10, 13, 16, 21, 30, 45];
    FirstHistory();
    SecondHistory();
    ThirdHistory();
    SumsOfThree(a, b, c);
  }

  lemma {:induction false} FirstHistory()
    ensures Next([0, 3, 6, 9, 12, 15]) == 18 && Prev([0, 3, 6, 9, 12, 15]) == -3
  {
    ArithmeticProgression([0, 3, 6, 9, 12, 15], 0, 3);
  }

  /** Both sums over three histories add up the three extrapolations. */
  lemma {:induction false} SumsOfThree(a: seq<int>, b: seq<int>, c: seq<int>)
    ensures SumNext([a, b, c]) == Next(a) + Next(b) + Next(c)
    ensures SumPrev([a, b, c]) == Prev(a) + Prev(b) + Prev(c)
  {
    assert [a, b, c][..2] == [a, b] && [a, b][..1] == [a] && [a][..0] == [];
    assert SumNext([a]) == Next(a) && SumPrev([a]) == Prev(a);
    assert SumNext([a, b]) == Next(a) + Next(b) && SumPrev([a, b]) == Prev(a) + Prev(b);
  }
}
