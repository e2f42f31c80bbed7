/**
 * Trebuchet calibration (day-01/src/main.rs): every line's value is its first
 * digit times ten plus its last digit; the second part first rewrites each
 * spelled-out digit word into a form that also carries the digit.
 */
module Trebuchet {
  import opened Common

  // ------------------------------------------------------------ part 1

  /** Only '1'..'9' are digits here: '0' is not in the search set. */
  predicate IsDigit(c: char)
  {
    '1' <= c <= '9'
  }

  function DigitValue(c: char): (d: nat)
    requires IsDigit(c)
    ensures 1 <= d <= 9
  {
    (c as int) - ('0' as int)
  }

  /** The digits of a line, left to right (`match_indices` sorted by index). */
  function Digits(line: string): (ds: seq<nat>)
    ensures forall k | 0 <= k < |ds| :: 1 <= ds[k] <= 9
  {
    if line == [] then []
    else (if IsDigit(line[0]) then [DigitValue(line[0])] else []) + Digits(line[1..])
  }

  /** The calibration value of one line: 10 * first + last, or 0 without digits. */
  function LineValue(line: string): (v: nat)
    ensures v == 0 || 11 <= v <= 99
  {
    var ds := Digits(line);
    if |ds| > 0 then 10 * ds[0] + ds[|ds| - 1] else 0
  }

  /** Part 1: the sum of the values of the input's lines. It is at most 99
      per line, and 0 exactly when no line holds a digit '1'..'9'. */
  function Task1(input: string): (r: nat)
    ensures r <= 99 * |Lines(input)|
    ensures r == 0 <==> forall k, j | 0 <= k < |Lines(input)| && 0 <= j < |Lines(input)[k]| :: !IsDigit(Lines(input)[k][j])
  {
    var ls := Lines(input);
    NoDigitLines(ls);
    SumValues(ls)
  }

  function SumValues(lines: seq<string>): (s: nat)
    ensures s <= 99 * |lines|
    ensures s == 0 <==> forall k | 0 <= k < |lines| :: LineValue(lines[k]) == 0
  {
    if lines == [] then 0 else SumValues(lines[..|lines| - 1]) + LineValue(lines[|lines| - 1])
  }

  /** Every line is worth 0 exactly when no line holds a digit. */
  lemma {:induction false} NoDigitLines(ls: seq<string>)
    ensures (forall k | 0 <= k < |ls| :: LineValue(ls[k]) == 0)
        <==> forall k, j | 0 <= k < |ls| && 0 <= j < |ls[k]| :: !IsDigit(ls[k][j])
  {
    forall k | 0 <= k < |ls| {
      LineValueZero(ls[k]);
    }
  }

  lemma {:induction false} DigitsAppend(a: string, b: string)
    ensures Digits(a + b) == Digits(a) + Digits(b)
  {
    if a != [] {
      assert (a + b)[1..] == a[1..] + b;
      DigitsAppend(a[1..], b);
    } else {
      assert a + b == b;
    }
  }

  lemma {:induction false} DigitsEmpty(line: string)
    ensures Digits(line) == [] <==> forall k | 0 <= k < |line| :: !IsDigit(line[k])
  {
    if line != [] {
      DigitsEmpty(line[1..]);
      assert forall k | 1 <= k < |line| :: line[k] == line[1..][k - 1];
    }
  }

  /** A line contributes 0 exactly when it has no character '1'..'9'. */
  lemma {:induction false} LineValueZero(line: string)
    ensures LineValue(line) == 0 <==> forall k | 0 <= k < |line| :: !IsDigit(line[k])
  {
    DigitsEmpty(line);
  }

  /** The value is read off the first and the last digit character. */
  lemma {:induction false} LineValueFirstLast(line: string, i: nat, j: nat)
    requires i <= j < |line| && IsDigit(line[i]) && IsDigit(line[j])
    requires forall k | 0 <= k < i :: !IsDigit(line[k])
    requires forall k | j < k < |line| :: !IsDigit(line[k])
    ensures LineValue(line) == 10 * DigitValue(line[i]) + DigitValue(line[j])
  {
    var mid := line[i..j + 1];
    DigitsWithin(line, i, j);
    DigitsEnds(mid);
    assert mid[0] == line[i] && mid[|mid| - 1] == line[j];
  }

  /** Characters around the digits add no digits. */
  lemma {:induction false} DigitsWithin(line: string, i: nat, j: nat)
    requires i <= j < |line|
    requires forall k | 0 <= k < i :: !IsDigit(line[k])
    requires forall k | j < k < |line| :: !IsDigit(line[k])
    ensures Digits(line) == Digits(line[i..j + 1])
  {
    var pre, mid, post := line[..i], line[i..j + 1], line[j + 1..];
    assert line == pre + mid + post;
    DigitsAppend(pre + mid, post);
    DigitsAppend(pre, mid);
    DigitsEmpty(pre);
    DigitsEmpty(post);
  }

  /** A stretch that begins and ends with a digit has those as its first and
      last digits. */
  lemma {:induction false} DigitsEnds(mid: string)
    requires |mid| >= 1 && IsDigit(mid[0]) && IsDigit(mid[|mid| - 1])
    ensures var ds := Digits(mid);
      |ds| >= 1 && ds[0] == DigitValue(mid[0]) && ds[|ds| - 1] == DigitValue(mid[|mid| - 1])
  {
    assert Digits(mid) == [DigitValue(mid[0])] + Digits(mid[1..]);
    if |mid| > 1 {
      var body := mid[1..|mid| - 1];
      assert mid[1..] == body + [mid[|mid| - 1]];
      DigitsAppend(body, [mid[|mid| - 1]]);
      assert Digits([mid[|mid| - 1]]) == [DigitValue(mid[|mid| - 1])];
    } else {
      assert mid[1..] == [];
    }
  }

  /** A line with a single digit d counts d twice: 11 * d. */
  lemma {:induction false} SingleDigit(line: string, i: nat)
    requires i < |line| && IsDigit(line[i])
    requires forall k | 0 <= k < |line| && k != i :: !IsDigit(line[k])
    ensures LineValue(line) == 11 * DigitValue(line[i])
  {
    LineValueFirstLast(line, i, i);
  }

  /** The four lines of the worked example are worth 12, 38, 15 and 77. */
  lemma {:induction false} ExampleValues()
    ensures LineValue("1abc2") == 12 && LineValue("pqr3stu8vwx") == 38
    ensures LineValue("a1b2c3d4e5f") == 15 && LineValue("treb7uchet") == 77
  {
    FirstExampleValues();
    SecondExampleValues();
  }

  lemma {:induction false} FirstExampleValues()
    ensures LineValue("1abc2") == 12 && LineValue("pqr3stu8vwx") == 38
  {
    FirstLineValue("1abc2");
    SecondLineValue("pqr3stu8vwx");
  }

  lemma {:induction false} FirstLineValue(line: string)
    requires line == "1abc2"
    ensures LineValue(line) == 12
  {
    LineValueFirstLast(line, 0, 4);
  }

  lemma {:induction false} SecondLineValue(line: string)
    requires line == "pqr3stu8vwx"
    ensures LineValue(line) == 38
  {
    LineValueFirstLast(line, 3, 7);
  }

  lemma {:induction false} SecondExampleValues()
    ensures LineValue("a1b2c3d4e5f") == 15 && LineValue("treb7uchet") == 77
  {
    LineValueFirstLast("a1b2c3d4e5f", 1, 9);
    LastExampleValue();
  }

  lemma {:induction false} LastExampleValue()
    ensures LineValue("treb7uchet") == 77
  {
    SingleDigit("treb7uchet", 4);
  }

  lemma {:induction false} ExampleSum()
    ensures SumValues(["1abc2", "pqr3stu8vwx", "a1b2c3d4e5f", "treb7uchet"]) == 142
  {
    ExampleValues();
    SumOfFour("1abc2", "pqr3stu8vwx", "a1b2c3d4e5f", "treb7uchet");
  }

  lemma {:induction false} SumOfFour(a: string, b: string, c: string, d: string)
    ensures SumValues([a, b, c, d]) == LineValue(a) + LineValue(b) + LineValue(c) + LineValue(d)
  {
    assert [a, b, c, d][..3] == [a, b, c];
    assert [a, b, c][..2] == [a, b];
    assert [a, b][..1] == [a];
    assert [a][..0] == [];
    assert SumValues([a]) == LineValue(a);
    assert SumValues([a, b]) == LineValue(a) + LineValue(b);
    assert SumValues([a, b, c]) == LineValue(a) + LineValue(b) + LineValue(c);
  }

  /** The worked example: the four lines joined by line breaks total 142. */
  lemma {:induction false} Example1()
    ensures Task1(Join(["1abc2", "pqr3stu8vwx", "a1b2c3d4e5f", "treb7uchet"], '\n')) == 142
  {
    JoinLines(["1abc2", "pqr3stu8vwx", "a1b2c3d4e5f", "treb7uchet"]);
    ExampleSum();
  }

  // ------------------------------------------------------------ part 2

  /** The spelled-out digits in the order of the replacement table. */
  const Words: seq<string> := ["one", "two", "three", "four", "five", "six", "seven", "eight", "nine"]

  /** Table word n, lower-case letters only. */
  function Word(n: nat): (w: string)
    requires n < |Words|
    ensures 3 <= |w| <= 5 && forall k | 0 <= k < |w| :: 'a' <= w[k] <= 'z'
  {
    Words[n]
  }

  /** The replacement of word n keeps the word on both sides of its digit,
      so a word that overlaps its neighbour is not destroyed. */
  function Wrapped(n: nat): (r: string)
    requires n < |Words|
    ensures |r| == 2 * |Word(n)| + 1 && r[|Word(n)|] == ('1' as int + n) as char
  {
    Word(n) + [('1' as int + n) as char] + Word(n)
  }

  /** One hit of `match_indices`: where it starts and which table word it is. */
  datatype Match = Match(index: nat, word: nat)

  /** w occurs in s starting at position i, compared character by character. */
  predicate Occurs(s: string, i: nat, w: string)
    decreases |w|
  {
    w == [] || (i < |s| && s[i] == w[0] && Occurs(s, i + 1, w[1..]))
  }

  /** `match_indices(w)` from position `from`: the non-overlapping
      occurrences of w, left to right. */
  function MatchIndices(s: string, w: string, from: nat): (r: seq<nat>)
    requires |w| > 0
    ensures forall k | 0 <= k < |r| :: from <= r[k] && Occurs(s, r[k], w)
    decreases |s| - from
  {
    if from + |w| > |s| then []
    else if Occurs(s, from, w) then [from] + MatchIndices(s, w, from + |w|)
    else MatchIndices(s, w, from + 1)
  }

  function Tag(indices: seq<nat>, n: nat): (r: seq<Match>)
    ensures |r| == |indices|
    ensures forall k | 0 <= k < |r| :: r[k] == Match(indices[k], n)
  {
    if indices == [] then [] else Tag(indices[..|indices| - 1], n) + [Match(indices[|indices| - 1], n)]
  }

  /** The `matches` vector after the first n words of the table. */
  function AllMatches(line: string, n: nat): (ms: seq<Match>)
    requires n <= |Words|
    ensures forall k | 0 <= k < |ms| :: ms[k].word < n && Occurs(line, ms[k].index, Word(ms[k].word))
  {
    if n == 0 then [] else AllMatches(line, n - 1) + Tag(MatchIndices(line, Word(n - 1), 0), n - 1)
  }

  /** What `first()` reads after the stable sort by index: the earliest of the
      matches with the smallest index. */
  function FirstMatch(ms: seq<Match>): (r: Match)
    requires |ms| > 0
    ensures r in ms && forall k | 0 <= k < |ms| :: r.index <= ms[k].index
  {
    if |ms| == 1 then ms[0]
    else
      var f := FirstMatch(ms[..|ms| - 1]);
      if ms[|ms| - 1].index < f.index then ms[|ms| - 1] else f
  }

  /** What `last()` reads after the stable sort by index: the latest of the
      matches with the largest index. */
  function LastMatch(ms: seq<Match>): (r: Match)
    requires |ms| > 0
    ensures r in ms && forall k | 0 <= k < |ms| :: r.index >= ms[k].index
  {
    if |ms| == 1 then ms[0]
    else
      var l := LastMatch(ms[..|ms| - 1]);
      if ms[|ms| - 1].index >= l.index then ms[|ms| - 1] else l
  }

  /** `str::replacen(w, r, 1)`: the first occurrence of w replaced by r. */
  function ReplaceFirst(s: string, w: string, r: string): string
    requires |w| > 0
  {
    if |s| < |w| then s
    else if Occurs(s, 0, w) then r + s[|w|..]
    else [s[0]] + ReplaceFirst(s[1..], w, r)
  }

  /** `str::replace(w, r)`: every non-overlapping occurrence, left to right. */
  function ReplaceAll(s: string, w: string, r: string): string
    requires |w| > 0
  {
    if |s| < |w| then s
    else if Occurs(s, 0, w) then r + ReplaceAll(s[|w|..], w, r)
    else [s[0]] + ReplaceAll(s[1..], w, r)
  }

  /** Every hit of every table word, word by word in table order. */
  function Hits(line: string): (ms: seq<Match>)
    ensures forall k | 0 <= k < |ms| :: ms[k].word < |Words| && Occurs(line, ms[k].index, Word(ms[k].word))
  {
    AllMatches(line, |Words|)
  }

  /** The part-2 rewrite of one line: the first word found is wrapped once,
      then every occurrence of the last word found is wrapped. */
  function Rewrite(line: string): string
  {
    var ms := Hits(line);
    if ms == [] then line else
      var f, l := FirstMatch(ms), LastMatch(ms);
      Replace2(line, Word(f.word), Wrapped(f.word), Word(l.word), Wrapped(l.word))
  }

  function Replace2(line: string, a: string, ra: string, b: string, rb: string): string
    requires |a| > 0 && |b| > 0
  {
    ReplaceAll(ReplaceFirst(line, a, ra), b, rb)
  }

  /** The rewrite of one line as the loop pushes matches word by word. */
  method RewriteLine(line: string) returns (res: string)
    ensures res == Rewrite(line)
  {
    var matches: seq<Match> := [];
    for n := 0 to |Words|
      invariant matches == AllMatches(line, n)
    {
      matches := PushHits(matches, MatchIndices(line, Word(n), 0), n);
    }
    assert matches == Hits(line);
    res := line;
    if |matches| > 0 {
      var first, last := FirstMatch(matches), LastMatch(matches);
      res := ReplaceFirst(res, Word(first.word), Wrapped(first.word));
      res := ReplaceAll(res, Word(last.word), Wrapped(last.word));
    }
  }

  /** `for_each(|e| matches.push(e))` over the hits of table word n. */
  method PushHits(matches: seq<Match>, hits: seq<nat>, n: nat) returns (out: seq<Match>)
    ensures out == matches + Tag(hits, n)
  {
    out := matches;
    var k := 0;
    while k < |hits|
      invariant k <= |hits|
      invariant out == matches + Tag(hits[..k], n)
    {
      assert hits[..k + 1][..k] == hits[..k];
      out := out + [Match(hits[k], n)];
      k := k + 1;
    }
    assert hits[..k] == hits;
  }

  /** Part 2: rewrite every line, join them with '\n' again and run part 1;
      the `reduce(..).unwrap()` fails on an input without lines. */
  method Task2(input: string) returns (total: Option<nat>)
    ensures total.None? <==> input == ""
    ensures total.Some? ==> total.value == Task1(Join(Rewritten(Lines(input)), '\n'))
  {
    var lines := Lines(input);
    if lines == [] {
      return None;
    }
    var out := RewriteLines(lines);
    total := Some(Task1(Join(out, '\n')));
  }

  /** The `map` over the lines of the input. */
  method RewriteLines(lines: seq<string>) returns (out: seq<string>)
    ensures out == Rewritten(lines)
  {
    out := [];
    for k := 0 to |lines|
      invariant out == Rewritten(lines[..k])
    {
      var r := RewriteLine(lines[k]);
      RewrittenSnoc(lines, k);
      out := out + [r];
    }
    assert lines[..|lines|] == lines;
  }

  lemma {:induction false} RewrittenSnoc(lines: seq<string>, k: nat)
    requires k < |lines|
    ensures Rewritten(lines[..k + 1]) == Rewritten(lines[..k]) + [Rewrite(lines[k])]
  {
    var next := lines[..k + 1];
    assert next[..k] == lines[..k] && next[k] == lines[k];
  }

  function Rewritten(lines: seq<string>): (r: seq<string>)
    ensures |r| == |lines|
  {
    if lines == [] then [] else Rewritten(lines[..|lines| - 1]) + [Rewrite(lines[|lines| - 1])]
  }

  // ------------------------------------------------------ part 2 properties

  lemma {:induction false} MatchIndicesNone(s: string, w: string, from: nat)
    requires |w| > 0
    requires forall i | from <= i :: !Occurs(s, i, w)
    ensures MatchIndices(s, w, from) == []
    decreases |s| - from
  {
    if from + |w| <= |s| {
      assert !Occurs(s, from, w);
      MatchIndicesNone(s, w, from + 1);
    }
  }

  lemma {:induction false} AllMatchesNone(line: string, n: nat)
    requires n <= |Words|
    requires forall i: nat, m | 0 <= m < |Words| :: !Occurs(line, i, Word(m))
    ensures AllMatches(line, n) == []
  {
    if n > 0 {
      AllMatchesNone(line, n - 1);
      MatchIndicesNone(line, Word(n - 1), 0);
    }
  }

  /** Words that have no hit add nothing to the match vector. */
  lemma {:induction false} AllMatchesTail(line: string, n: nat, m: nat)
    requires n <= m <= |Words|
    requires forall j | n <= j < m :: MatchIndices(line, Word(j), 0) == []
    ensures AllMatches(line, m) == AllMatches(line, n)
  {
    if m > n {
      AllMatchesTail(line, n, m - 1);
      AllMatchesSkip(line, m);
    }
  }

  lemma {:induction false} AllMatchesSkip(line: string, m: nat)
    requires 0 < m <= |Words| && MatchIndices(line, Word(m - 1), 0) == []
    ensures AllMatches(line, m) == AllMatches(line, m - 1)
  {
    assert Tag([], m - 1) == [];
    assert AllMatches(line, m - 1) + [] == AllMatches(line, m - 1);
  }

  /** A line in which no digit word occurs is left as it is. */
  lemma {:induction false} NoWordUnchanged(line: string)
    requires forall i: nat, m | 0 <= m < |Words| :: !Occurs(line, i, Word(m))
    ensures Rewrite(line) == line
  {
    AllMatchesNone(line, |Words|);
    assert Hits(line) == [];
  }

  lemma {:induction false} ReplaceFirstNoSep(s: string, w: string, r: string, c: char)
    requires |w| > 0 && c !in s && c !in r
    ensures c !in ReplaceFirst(s, w, r)
  {
    if |s| >= |w| && !Occurs(s, 0, w) {
      ReplaceFirstNoSep(s[1..], w, r, c);
    }
  }

  lemma {:induction false} ReplaceAllNoSep(s: string, w: string, r: string, c: char)
    requires |w| > 0 && c !in s && c !in r
    ensures c !in ReplaceAll(s, w, r)
    decreases |s|
  {
    if |s| >= |w| {
      if Occurs(s, 0, w) {
        ReplaceAllNoSep(s[|w|..], w, r, c);
      } else {
        ReplaceAllNoSep(s[1..], w, r, c);
      }
    }
  }

  /** The rewrite never introduces a line break. */
  lemma {:induction false} RewriteNoNewline(line: string)
    requires '\n' !in line
    ensures '\n' !in Rewrite(line)
  {
    var ms := Hits(line);
    if ms != [] {
      var f, l := FirstMatch(ms), LastMatch(ms);
      ReplaceFirstNoSep(line, Word(f.word), Wrapped(f.word), '\n');
      ReplaceAllNoSep(ReplaceFirst(line, Word(f.word), Wrapped(f.word)), Word(l.word), Wrapped(l.word), '\n');
    }
  }

  lemma {:induction false} RewrittenNoNewline(lines: seq<string>)
    requires forall k | 0 <= k < |lines| :: '\n' !in lines[k]
    ensures forall k | 0 <= k < |lines| :: '\n' !in Rewritten(lines)[k]
  {
    if lines != [] {
      var init := lines[..|lines| - 1];
      RewrittenNoNewline(init);
      RewriteNoNewline(lines[|lines| - 1]);
      assert Rewritten(lines) == Rewritten(init) + [Rewrite(lines[|lines| - 1])];
    }
  }

  /** Part 2's total is the sum of the part-1 values of the rewritten lines:
      joining with '\n' and taking the lines again gives back the same lines,
      but for an empty last one, which is worth nothing. */
  lemma {:induction false} Task2Lines(input: string)
    requires input != ""
    ensures Task1(Join(Rewritten(Lines(input)), '\n')) == SumValues(Rewritten(Lines(input)))
  {
    var r := Rewritten(Lines(input));
    RewrittenNoNewline(Lines(input));
    JoinLines(r);
    if r[|r| - 1] == "" {
      assert Digits("") == [];
      assert SumValues(r) == SumValues(r[..|r| - 1]) + LineValue("");
    }
  }

  lemma {:induction false} TwoneHits(line: string)
    requires line == "twone"
    ensures Hits(line) == [Match(2, 0), Match(0, 1)]
  {
    assert MatchIndices("twone", "one", 0) == [2];
    assert MatchIndices("twone", "two", 0) == [0];
    assert Word(0) == "one" && Word(1) == "two";
    TwoneOtherWords();
    assert AllMatches(line, 1) == [Match(2, 0)];
    assert AllMatches(line, 2) == [Match(2, 0), Match(0, 1)];
    AllMatchesTail(line, 2, |Words|);
  }

  lemma {:induction false} TwoneOtherWords()
    ensures forall n | 2 <= n < |Words| :: MatchIndices("twone", Word(n), 0) == []
  {
  }

  lemma {:induction false} TwoneReplacements()
    ensures Replace2("twone", "two", "two2two", "one", "one1one") == "two2twone1one"
  {
    TwoneFirst();
    TwoneAll();
  }

  lemma {:induction false} TwoneFirst()
    ensures ReplaceFirst("twone", "two", "two2two") == "two2twone"
  {
  }

  lemma {:induction false} TwoneAll()
    ensures ReplaceAll("two2twone", "one", "one1one") == "two2twone1one"
  {
    var w, r := "one", "one1one";
    assert ReplaceAll("one", w, r) == r;
    ReplaceAllKeep('w', "one", w, r);
    ReplaceAllKeep('t', "wone", w, r);
    ReplaceAllKeep('2', "twone", w, r);
    ReplaceAllKeep('o', "2twone", w, r);
    ReplaceAllKeep('w', "o2twone", w, r);
    ReplaceAllKeep('t', "wo2twone", w, r);
  }

  /** A position where the word does not start is copied. */
  lemma {:induction false} ReplaceAllKeep(c: char, rest: string, w: string, r: string)
    requires |w| > 0 && !Occurs([c] + rest, 0, w)
    ensures ReplaceAll([c] + rest, w, r) == [c] + ReplaceAll(rest, w, r)
  {
    assert ([c] + rest)[1..] == rest;
  }

  lemma {:induction false} TwoneRewrite(line: string)
    requires line == "twone"
    ensures Rewrite(line) == "two2twone1one"
  {
    TwoneHits(line);
    var ms := [Match(2, 0), Match(0, 1)];
    assert FirstMatch(ms) == Match(0, 1);
    assert LastMatch(ms) == Match(2, 0);
    assert Word(0) == "one" && Word(1) == "two";
    assert Wrapped(0) == "one1one" && Wrapped(1) == "two2two";
    TwoneReplacements();
  }

  lemma {:induction false} TwoneValue(r: string)
    requires r == "two2twone1one"
    ensures LineValue(r) == 21
  {
    LineValueFirstLast(r, 3, 9);
  }

  /** "twone": "two" is found first and "one" last, giving "two2twone1one",
      whose value is 21. */
  lemma {:induction false} Twone(line: string)
    requires line == "twone"
    ensures Rewrite(line) == "two2twone1one"
    ensures LineValue(Rewrite(line)) == 21
  {
    TwoneRewrite(line);
    TwoneValue(Rewrite(line));
  }
}
