/**
 * Point of Incidence (day-13/src/main.rs): a pattern of ash '.' and rocks
 * '#' may reflect about a line between two columns or two rows. For each
 * candidate line the solver compares the mirrored pairs outward from it
 * and stops at the first pair that fails. Part 1 asks for perfect
 * reflections; part 2 for reflections whose pairs differ in exactly one
 * cell altogether (the smudge). A pattern scores l + 1 for a mirror after
 * column l and 100 * (t + 1) for one after row t; the row search runs
 * second, so a row mirror overrides a column mirror, and within one search
 * the last mirror found wins.
 */
module PointOfIncidence {
  import opened Common

  type Grid = seq<string>

  /** A pattern as `simple_matrix::Matrix` holds it: at least one row, and
      every row as long as the first, which is not empty. */
  predicate IsMatrix(g: Grid)
  {
    g != [] && g[0] != [] && forall r | 0 <= r < |g| :: |g[r]| == |g[0]|
  }

  /** Lines of one length: the rows of a matrix, or its columns. */
  predicate Uniform(lines: seq<string>)
  {
    forall j | 0 <= j < |lines| :: |lines[j]| == |lines[0]|
  }

  /** `get_col(c).collect_vec()`. */
  function Column(g: Grid, c: nat): seq<char>
    requires IsMatrix(g) && c < |g[0]|
  {
    seq(|g|, r requires 0 <= r < |g| => g[r][c])
  }

  /** Every column of the matrix, left to right. */
  function Columns(g: Grid): (cols: seq<string>)
    requires IsMatrix(g)
    ensures |cols| == |g[0]| && Uniform(cols)
    ensures forall c | 0 <= c < |cols| :: |cols[c]| == |g|
    ensures forall c, r | 0 <= c < |cols| && 0 <= r < |g| :: cols[c][r] == g[r][c]
  {
    seq(|g[0]|, c requires 0 <= c < |g[0]| => Column(g, c))
  }

  // ---------------------------------------------------------- differences

  /** The number of positions at which two lines differ: `zip`, then
      `filter` on inequality, then `count`. */
  function Mismatch(a: string, b: string): nat
  {
    if a == [] || b == [] then 0
    else (if a[0] != b[0] then 1 else 0) + Mismatch(a[1..], b[1..])
  }

  /** Lines of one length are equal exactly when they differ nowhere. */
  lemma {:induction false} MismatchZero(a: string, b: string)
    requires |a| == |b|
    ensures Mismatch(a, b) == 0 <==> a == b
  {
    if a != [] {
      MismatchZero(a[1..], b[1..]);
      assert a == [a[0]] + a[1..] && b == [b[0]] + b[1..];
    }
  }

  /** The number of mirrored pairs, lines l - j and l + 1 + j, that exist
      for a mirror between lines l and l + 1 of n. */
  function Pairs(n: nat, l: nat): (p: nat)
    requires l + 1 < n
    ensures 1 <= p <= l + 1 && l + p < n
    ensures p == l + 1 || l + 1 + p == n
  {
    Min(l + 1, n - l - 1)
  }

  /** The number of cells in which the mirrored pair j, line l - j and
      line l + 1 + j, differs. */
  function PairMismatch(lines: seq<string>, l: nat, j: nat): nat
    requires l + 1 < |lines| && j < Pairs(|lines|, l)
  {
    Mismatch(lines[l - j], lines[l + 1 + j])
  }

  /** The differences of the first k mirrored pairs, summed. */
  function SmudgesUpTo(lines: seq<string>, l: nat, k: nat): nat
    requires l + 1 < |lines| && k <= Pairs(|lines|, l)
  {
    if k == 0 then 0
    else SmudgesUpTo(lines, l, k - 1) + PairMismatch(lines, l, k - 1)
  }

  /** The number of cells in which the two sides of the mirror between
      lines l and l + 1 differ, over every pair that exists. */
  function Smudges(lines: seq<string>, l: nat): nat
    requires l + 1 < |lines|
  {
    SmudgesUpTo(lines, l, Pairs(|lines|, l))
  }

  lemma {:induction false} SmudgesGrow(lines: seq<string>, l: nat, j: nat, k: nat)
    requires l + 1 < |lines| && j <= k <= Pairs(|lines|, l)
    ensures SmudgesUpTo(lines, l, j) <= SmudgesUpTo(lines, l, k)
    decreases k - j
  {
    if j < k {
      SmudgesGrow(lines, l, j, k - 1);
    }
  }

  /** The mirrored pair j is equal. */
  predicate PairMatches(lines: seq<string>, l: nat, j: nat)
    requires l + 1 < |lines| && j < Pairs(|lines|, l)
  {
    lines[l - j] == lines[l + 1 + j]
  }

  lemma {:induction false} PerfectUpTo(lines: seq<string>, l: nat, k: nat)
    requires Uniform(lines) && l + 1 < |lines| && k <= Pairs(|lines|, l)
    ensures SmudgesUpTo(lines, l, k) == 0 <==> forall j | 0 <= j < k :: PairMatches(lines, l, j)
  {
    if k > 0 {
      PerfectUpTo(lines, l, k - 1);
      MismatchZero(lines[l - (k - 1)], lines[l + k]);
      assert PairMismatch(lines, l, k - 1) == 0 <==> PairMatches(lines, l, k - 1);
    }
  }

  /** A mirror without smudges is a perfect reflection: every mirrored
      pair that exists is equal. */
  lemma {:induction false} Perfect(lines: seq<string>, l: nat)
    requires Uniform(lines) && l + 1 < |lines|
    ensures Smudges(lines, l) == 0 <==> forall j | 0 <= j < Pairs(|lines|, l) :: PairMatches(lines, l, j)
  {
    PerfectUpTo(lines, l, Pairs(|lines|, l));
  }

  /** The single smudged pair, when the first k pairs differ in one cell. */
  predicate SmudgedAt(lines: seq<string>, l: nat, k: nat, j: nat)
    requires l + 1 < |lines| && j < k <= Pairs(|lines|, l)
  {
    PairMismatch(lines, l, j) == 1 && forall m | 0 <= m < k && m != j :: PairMatches(lines, l, m)
  }

  lemma {:induction false} OneSmudgeFound(lines: seq<string>, l: nat, k: nat)
    requires Uniform(lines) && l + 1 < |lines| && k <= Pairs(|lines|, l)
    requires SmudgesUpTo(lines, l, k) == 1
    ensures exists j | 0 <= j < k :: SmudgedAt(lines, l, k, j)
  {
    var d := PairMismatch(lines, l, k - 1);
    MismatchZero(lines[l - (k - 1)], lines[l + k]);
    if d == 1 {
      PerfectUpTo(lines, l, k - 1);
      assert SmudgedAt(lines, l, k, k - 1);
    } else {
      OneSmudgeFound(lines, l, k - 1);
      var j :| 0 <= j < k - 1 && SmudgedAt(lines, l, k - 1, j);
      assert SmudgedAt(lines, l, k, j);
    }
  }

  lemma {:induction false} OneSmudgeCounted(lines: seq<string>, l: nat, k: nat, j: nat)
    requires Uniform(lines) && l + 1 < |lines| && j < k <= Pairs(|lines|, l)
    requires SmudgedAt(lines, l, k, j)
    ensures SmudgesUpTo(lines, l, k) == 1
  {
    MismatchZero(lines[l - (k - 1)], lines[l + k]);
    if j == k - 1 {
      PerfectUpTo(lines, l, k - 1);
    } else {
      assert PairMatches(lines, l, k - 1);
      assert SmudgedAt(lines, l, k - 1, j);
      OneSmudgeCounted(lines, l, k - 1, j);
    }
  }

  /** A mirror with one smudge: exactly one mirrored pair differs, in
      exactly one cell, and every other pair is equal. */
  lemma {:induction false} OneSmudge(lines: seq<string>, l: nat)
    requires Uniform(lines) && l + 1 < |lines|
    ensures Smudges(lines, l) == 1 <==> exists j | 0 <= j < Pairs(|lines|, l) :: SmudgedAt(lines, l, Pairs(|lines|, l), j)
  {
    var p := Pairs(|lines|, l);
    if Smudges(lines, l) == 1 {
      OneSmudgeFound(lines, l, p);
    }
    if j :| 0 <= j < p && SmudgedAt(lines, l, p, j) {
      OneSmudgeCounted(lines, l, p, j);
    }
  }

  // ------------------------------------------------------------- searches

  /** The outward comparison of part 1 for the mirror between lines l and
      l + 1: it stops at the first unequal pair, and records the mirror
      when it runs off either edge. */
  method IsMirror(lines: seq<string>, l: nat) returns (found: bool)
    requires Uniform(lines) && l + 1 < |lines|
    ensures found <==> Smudges(lines, l) == 0
  {
    var left, right := lines[l], lines[l + 1];
    found := false;
    var i := 1;
    while left == right
      invariant 1 <= i <= Pairs(|lines|, l)
      invariant left == lines[l - (i - 1)] && right == lines[l + i]
      invariant SmudgesUpTo(lines, l, i - 1) == 0
      invariant !found
      decreases Pairs(|lines|, l) - i
    {
      MismatchZero(left, right);
      if i > l {
        found := true;
        break;
      }
      // `get_col(l - i)` exists, since i <= l.
      left := lines[l - i];
      if l + 1 + i >= |lines| {
        if l + 1 + i == |lines| {
          found := true;
        }
        break;
      }
      right := lines[l + 1 + i];
      i := i + 1;
    }
    if !found {
      MismatchZero(left, right);
      SmudgesGrow(lines, l, i, Pairs(|lines|, l));
    }
  }

  /** The outward comparison of part 2: a pair may differ in one cell, once
      (`changed_char`), and the mirror is recorded only if it did. */
  method IsSmudgedMirror(lines: seq<string>, l: nat) returns (found: bool)
    requires Uniform(lines) && l + 1 < |lines|
    ensures found <==> Smudges(lines, l) == 1
  {
    var left, right := lines[l], lines[l + 1];
    var changed := false;
    found := false;
    var i := 1;
    while left == right || (Mismatch(left, right) == 1 && !changed)
      invariant 1 <= i <= Pairs(|lines|, l)
      invariant left == lines[l - (i - 1)] && right == lines[l + i]
      invariant SmudgesUpTo(lines, l, i - 1) == if changed then 1 else 0
      invariant !found
      decreases Pairs(|lines|, l) - i
    {
      MismatchZero(left, right);
      if left != right {
        changed := true;
      }
      assert SmudgesUpTo(lines, l, i) == if changed then 1 else 0;
      if i > l {
        if changed {
          found := true;
        }
        break;
      }
      // `get_col(l - i)` exists, since i <= l.
      left := lines[l - i];
      if l + 1 + i >= |lines| {
        if l + 1 + i == |lines| && changed {
          found := true;
        }
        break;
      }
      right := lines[l + 1 + i];
      i := i + 1;
    }
    MismatchZero(left, right);
    SmudgesGrow(lines, l, i, Pairs(|lines|, l));
  }

  /** The mirror the `for` over `tuple_windows` records last: the largest
      l below `upto` whose mirrored pairs differ in exactly `smudges`
      cells. */
  function LastMirror(lines: seq<string>, smudges: nat, upto: nat): (r: Option<nat>)
    requires upto < |lines|
    ensures r.Some? ==> r.value < upto && Smudges(lines, r.value) == smudges
    ensures r.Some? ==> forall l | r.value < l < upto :: Smudges(lines, l) != smudges
    ensures r.None? <==> forall l | 0 <= l < upto :: Smudges(lines, l) != smudges
  {
    if upto == 0 then None
    else if Smudges(lines, upto - 1) == smudges then Some(upto - 1)
    else LastMirror(lines, smudges, upto - 1)
  }

  /** The value `res` takes after one window search, starting from `res`. */
  function Recorded(lines: seq<string>, smudges: nat, upto: nat, weight: nat, res: nat): nat
    requires upto < |lines|
  {
    match LastMirror(lines, smudges, upto)
    case Some(l) => (l + 1) * weight
    case None => res
  }

  /** One `for` over `tuple_windows` of task 1 (smudges 0) or task 2
      (smudges 1): every mirror found sets `res` to its score. */
  method RecordMirrors(lines: seq<string>, smudges: nat, weight: nat, res: nat) returns (next: nat)
    requires Uniform(lines) && lines != [] && smudges <= 1
    ensures next == Recorded(lines, smudges, |lines| - 1, weight, res)
  {
    next := res;
    for l := 0 to |lines| - 1
      invariant next == Recorded(lines, smudges, l, weight, res)
    {
      var found;
      if smudges == 0 {
        found := IsMirror(lines, l);
      } else {
        found := IsSmudgedMirror(lines, l);
      }
      RecordedStep(lines, smudges, l, weight, res);
      if found {
        next := (l + 1) * weight;
      }
    }
  }

  /** One more window: a mirror there overrides what was recorded before. */
  lemma {:induction false} RecordedStep(lines: seq<string>, smudges: nat, l: nat, weight: nat, res: nat)
    requires l + 1 < |lines|
    ensures Recorded(lines, smudges, l + 1, weight, res) ==
      if Smudges(lines, l) == smudges then (l + 1) * weight else Recorded(lines, smudges, l, weight, res)
  {
  }

  /** The score of one pattern: a row mirror if there is one, else a
      column mirror, else 0. */
  function Summary(g: Grid, smudges: nat): nat
    requires IsMatrix(g)
  {
    Recorded(g, smudges, |g| - 1, 100, Recorded(Columns(g), smudges, |g[0]| - 1, 1, 0))
  }

  /** The closure mapped over the patterns: columns first, then rows. */
  method Summarize(g: Grid, smudges: nat) returns (res: nat)
    requires IsMatrix(g) && smudges <= 1
    ensures res == Summary(g, smudges)
  {
    res := RecordMirrors(Columns(g), smudges, 1, 0);
    res := RecordMirrors(g, smudges, 100, res);
  }

  /** A row mirror decides the score, whatever the columns. */
  lemma {:induction false} RowsWin(g: Grid, smudges: nat, t: nat)
    requires IsMatrix(g) && t + 1 < |g| && Smudges(g, t) == smudges
    ensures Summary(g, smudges) >= 100
    ensures exists u | t <= u < |g| - 1 ::
              Summary(g, smudges) == 100 * (u + 1) && Smudges(g, u) == smudges
              && forall v | u < v < |g| - 1 :: Smudges(g, v) != smudges
  {
    var r := LastMirror(g, smudges, |g| - 1);
    assert r.Some?;
  }

  /** Without a row mirror, the last column mirror decides the score; and
      without any mirror the score is 0. */
  lemma {:induction false} ColumnsOtherwise(g: Grid, smudges: nat)
    requires IsMatrix(g)
    requires forall t | 0 <= t < |g| - 1 :: Smudges(g, t) != smudges
    ensures Summary(g, smudges) < |g[0]|
    ensures Summary(g, smudges) == 0 <==> forall l | 0 <= l < |g[0]| - 1 :: Smudges(Columns(g), l) != smudges
  {
  }

  /** The patterns' scores, summed. */
  function TotalSummary(patterns: seq<Grid>, smudges: nat): nat
    requires forall k | 0 <= k < |patterns| :: IsMatrix(patterns[k])
  {
    if patterns == [] then 0
    else TotalSummary(patterns[..|patterns| - 1], smudges) + Summary(patterns[|patterns| - 1], smudges)
  }

  method Total(patterns: seq<Grid>, smudges: nat) returns (total: nat)
    requires forall k | 0 <= k < |patterns| :: IsMatrix(patterns[k])
    requires smudges <= 1
    ensures total == TotalSummary(patterns, smudges)
  {
    total := 0;
    for k := 0 to |patterns|
      invariant total == TotalSummary(patterns[..k], smudges)
    {
      assert patterns[..k + 1][..k] == patterns[..k];
      var res := Summarize(patterns[k], smudges);
      total := total + res;
    }
    assert patterns[..|patterns|] == patterns;
  }

  /** `task_1`: perfect reflections. */
  method Task1(patterns: seq<Grid>) returns (total: nat)
    requires forall k | 0 <= k < |patterns| :: IsMatrix(patterns[k])
    ensures total == TotalSummary(patterns, 0)
  {
    total := Total(patterns, 0);
  }

  /** `task_2`: reflections with exactly one smudge. */
  method Task2(patterns: seq<Grid>) returns (total: nat)
    requires forall k | 0 <= k < |patterns| :: IsMatrix(patterns[k])
    ensures total == TotalSummary(patterns, 1)
  {
    total := Total(patterns, 1);
  }
}
