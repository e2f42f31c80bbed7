/** Small shared vocabulary: an optional value and sums over sequences. */
module Common {

  /** A value that may be absent (Rust's `Option`). */
  datatype Option<T> = None | Some(value: T)

  /** Sum of a sequence of integers, folded from the left. */
  function Sum(xs: seq<int>): int
  {
    if xs == [] then 0 else Sum(xs[..|xs| - 1]) + xs[|xs| - 1]
  }

  /** Product of a sequence of integers (1 for the empty sequence). */
  function Product(xs: seq<int>): int
  {
    if xs == [] then 1 else Product(xs[..|xs| - 1]) * xs[|xs| - 1]
  }

  /** A power of a positive base is positive. */
  lemma {:induction false} PowPositive(b: int, e: nat)
    requires b >= 1
    ensures Pow(b, e) >= 1
  {
    if e > 0 {
      PowPositive(b, e - 1);
    }
  }

  /** Sum of a sequence of naturals is a natural. */
  lemma {:induction false} SumNonNegative(xs: seq<int>)
    requires forall i | 0 <= i < |xs| :: xs[i] >= 0
    ensures Sum(xs) >= 0
  {
    if xs != [] {
      SumNonNegative(xs[..|xs| - 1]);
    }
  }

  /** Product of a sequence of naturals is a natural. */
  lemma {:induction false} ProductNonNegative(xs: seq<int>)
    requires forall i | 0 <= i < |xs| :: xs[i] >= 0
    ensures Product(xs) >= 0
  {
    if xs != [] {
      ProductNonNegative(xs[..|xs| - 1]);
    }
  }

  /** Taking the last element off one of two permutations, and the same
      element at position j off the other, leaves two permutations. */
  lemma {:induction false} RemoveMatching<T>(a: seq<T>, b: seq<T>, j: nat)
    requires multiset(a) == multiset(b) && |a| > 0
    requires j < |b| && b[j] == a[|a| - 1]
    ensures multiset(a[..|a| - 1]) == multiset(b[..j] + b[j + 1..])
  {
    var n, e := |a| - 1, a[|a| - 1];
    assert a == a[..n] + [e];
    assert b == b[..j] + [e] + b[j + 1..];
    assert multiset(b) == multiset(b[..j]) + multiset([e]) + multiset(b[j + 1..]);
    assert multiset(a) == multiset(a[..n]) + multiset([e]);
    assert multiset(b[..j] + b[j + 1..]) == multiset(b[..j]) + multiset(b[j + 1..]);
    assert multiset(a[..n]) == multiset(a) - multiset([e]);
  }

  /** Sum distributes over concatenation. */
  lemma {:induction false} SumAppend(xs: seq<int>, ys: seq<int>)
    ensures Sum(xs + ys) == Sum(xs) + Sum(ys)
  {
    if ys == [] {
      assert xs + ys == xs;
    } else {
      assert (xs + ys)[..|xs + ys| - 1] == xs + ys[..|ys| - 1];
      SumAppend(xs, ys[..|ys| - 1]);
    }
  }

  /** Maximum of two integers. */
  function Max(a: int, b: int): int
  {
    if a < b then b else a
  }

  /** Minimum of two integers. */
  function Min(a: int, b: int): int
  {
    if a < b then a else b
  }

  /** Power with a natural exponent. */
  function Pow(b: int, e: nat): int
  {
    if e == 0 then 1 else b * Pow(b, e - 1)
  }

  predicate IsDecimal(c: char) { '0' <= c <= '9' }

  predicate AllDecimal(s: string)
  {
    forall k | 0 <= k < |s| :: IsDecimal(s[k])
  }

  /** Decimal value of a digit string. */
  function DecimalValue(s: string): nat
    requires AllDecimal(s)
  {
    if s == [] then 0 else 10 * DecimalValue(s[..|s| - 1]) + (s[|s| - 1] as int - '0' as int)
  }

  /** The arithmetic step of `DecimalValueAppend`: one more digit scales by ten. */
  lemma {:induction false} ShiftDigit(x: int, p: int, q: int, v: int, w: int, d: int)
    requires q == 10 * p && w == 10 * v + d
    ensures 10 * (x * p + v) + d == x * q + w
  {
  }

  /** Writing the digits of b after those of a scales a's value by 10^|b|. */
  lemma {:induction false} DecimalValueAppend(a: string, b: string)
    requires AllDecimal(a) && AllDecimal(b)
    ensures AllDecimal(a + b)
    ensures DecimalValue(a + b) == DecimalValue(a) * Pow(10, |b|) + DecimalValue(b)
  {
    if b == [] {
      assert a + b == a;
    } else {
      var b', d := b[..|b| - 1], b[|b| - 1] as int - '0' as int;
      assert (a + b)[..|a + b| - 1] == a + b';
      assert (a + b)[|a + b| - 1] == b[|b| - 1];
      assert AllDecimal(b');
      DecimalValueAppend(a, b');
      assert DecimalValue(a + b) == 10 * DecimalValue(a + b') + d;
      assert DecimalValue(b) == 10 * DecimalValue(b') + d;
      assert Pow(10, |b|) == 10 * Pow(10, |b'|);
      ShiftDigit(DecimalValue(a), Pow(10, |b'|), Pow(10, |b|), DecimalValue(b'), DecimalValue(b), d);
    }
  }

  /** `str::parse` of an unsigned number: an optional '+' and at least one
      decimal digit. */
  function ParseNat(s: string): (r: Option<nat>)
    ensures r.Some? <==> (|s| >= 2 && s[0] == '+' && AllDecimal(s[1..])) || (|s| >= 1 && AllDecimal(s))
    ensures r.Some? && s[0] == '+' ==> r.value == DecimalValue(s[1..])
    ensures r.Some? && s[0] != '+' ==> r.value == DecimalValue(s)
  {
    var digits := if |s| > 0 && s[0] == '+' then s[1..] else s;
    if |digits| > 0 && AllDecimal(digits) then Some(DecimalValue(digits)) else None
  }

  /** Rust's `str::split(sep)`: every piece between separators, empty ones kept. */
  function Split(s: string, sep: char): (pieces: seq<string>)
    ensures |pieces| >= 1
    ensures forall k | 0 <= k < |pieces| :: sep !in pieces[k]
    decreases |s|
  {
    if sep !in s then [s]
    else
      var i := FirstIndex(s, sep);
      [s[..i]] + Split(s[i + 1..], sep)
  }

  /** Index of the first occurrence of `c` in `s`. */
  function FirstIndex(s: string, c: char): (i: nat)
    requires c in s
    ensures i < |s| && s[i] == c && c !in s[..i]
  {
    if s[0] == c then 0 else 1 + FirstIndex(s[1..], c)
  }

  /** Joining with the separator undoes `Split`. */
  function Join(pieces: seq<string>, sep: char): string
    requires |pieces| >= 1
  {
    if |pieces| == 1 then pieces[0] else pieces[0] + [sep] + Join(pieces[1..], sep)
  }

  lemma {:induction false} SplitJoin(s: string, sep: char)
    ensures Join(Split(s, sep), sep) == s
    decreases |s|
  {
    if sep in s {
      var i := FirstIndex(s, sep);
      var rest := s[i + 1..];
      var tail := Split(rest, sep);
      assert Split(s, sep) == [s[..i]] + tail;
      assert ([s[..i]] + tail)[1..] == tail;
      SplitJoin(rest, sep);
      assert Join(Split(s, sep), sep) == s[..i] + [sep] + Join(tail, sep);
      assert s == s[..i] + [sep] + rest;
    } else {
      assert Join([s], sep) == s;
    }
  }

  /** Splitting `a + [sep] + b` cuts off `a` first when `a` has no separator. */
  lemma {:induction false} SplitAfter(a: string, sep: char, b: string)
    requires sep !in a
    ensures Split(a + [sep] + b, sep) == [a] + Split(b, sep)
  {
    var s := a + [sep] + b;
    assert s[|a|] == sep;
    assert FirstIndex(s, sep) == |a|;
    assert s[..|a|] == a;
    assert s[|a| + 1..] == b;
  }

  /** Splitting undoes joining when no piece contains the separator. */
  lemma {:induction false} JoinSplit(pieces: seq<string>, sep: char)
    requires |pieces| >= 1
    requires forall k | 0 <= k < |pieces| :: sep !in pieces[k]
    ensures Split(Join(pieces, sep), sep) == pieces
  {
    if |pieces| > 1 {
      var rest := Join(pieces[1..], sep);
      assert Join(pieces, sep) == pieces[0] + [sep] + rest;
      assert sep !in pieces[0];
      SplitAfter(pieces[0], sep, rest);
      JoinSplit(pieces[1..], sep);
      assert pieces == [pieces[0]] + pieces[1..];
    } else {
      assert Join(pieces, sep) == pieces[0];
    }
  }

  /** Rust's `str::lines()` on '\n' line endings: the pieces between line
      feeds, without the empty piece a final line feed leaves; the empty
      string has no lines. */
  function Lines(s: string): (ls: seq<string>)
    ensures forall k | 0 <= k < |ls| :: '\n' !in ls[k]
    ensures ls == [] <==> s == ""
  {
    var pieces := Split(s, '\n');
    SplitJoin(s, '\n');
    if pieces[|pieces| - 1] == "" then pieces[..|pieces| - 1] else pieces
  }

  /** The lines of joined lines are those lines, but for an empty last one. */
  lemma {:induction false} JoinLines(ls: seq<string>)
    requires |ls| >= 1
    requires forall k | 0 <= k < |ls| :: '\n' !in ls[k]
    ensures Lines(Join(ls, '\n')) == if ls[|ls| - 1] == "" then ls[..|ls| - 1] else ls
  {
    JoinSplit(ls, '\n');
  }
}
