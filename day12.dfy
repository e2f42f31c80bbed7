/**
 * Hot Springs (day-12/src/main.rs): a record lists springs ('#' damaged,
 * '.' operational, '?' unknown) and the sizes of the groups of damaged
 * springs. Part 1 counts, per record, the ways of filling in the unknown
 * springs that give exactly those group sizes: a worklist expands every
 * '?' into both choices, then the completions whose runs of '#' match the
 * sizes are counted. Part 2 is a stub.
 */
module HotSprings {
  import opened Common

  /** One line of the input, already split into springs and group sizes. */
  datatype Record = Record(springs: string, groups: seq<nat>)

  // ------------------------------------------------------------- unknowns

  /** The number of unknown springs. */
  function Unknowns(s: string): nat
  {
    if s == [] then 0 else (if s[0] == '?' then 1 else 0) + Unknowns(s[1..])
  }

  lemma {:induction false} UnknownsPresent(s: string)
    ensures '?' in s <==> Unknowns(s) > 0
  {
    if s != [] {
      UnknownsPresent(s[1..]);
      assert s == [s[0]] + s[1..];
    }
  }

  /** `replacen("?", c, 1)`: the first '?' becomes c, nothing else changes. */
  function ReplaceFirst(s: string, c: char): (r: string)
    ensures '?' in s ==> r == s[FirstIndex(s, '?') := c]
    ensures '?' !in s ==> r == s
  {
    if s == [] then []
    else if s[0] == '?' then [c] + s[1..]
    else
      assert '?' in s ==> '?' in s[1..];
      [s[0]] + ReplaceFirst(s[1..], c)
  }

  /** Filling in one unknown spring leaves one fewer. */
  lemma {:induction false} ReplaceFirstUnknowns(s: string, c: char)
    requires '?' in s && c != '?'
    ensures Unknowns(ReplaceFirst(s, c)) == Unknowns(s) - 1
  {
    if s[0] != '?' {
      assert '?' in s[1..];
      ReplaceFirstUnknowns(s[1..], c);
      assert ReplaceFirst(s, c)[1..] == ReplaceFirst(s[1..], c);
    } else {
      assert ReplaceFirst(s, c)[1..] == s[1..];
    }
  }

  // ---------------------------------------------------------- completions

  /** Every way of filling in the unknown springs, in the order the
      worklist of `task_1` would produce them were it depth first: the
      first '?' as '#', then as '.'. */
  function Completions(s: string): seq<string>
    decreases Unknowns(s)
  {
    if '?' !in s then [s]
    else
      ReplaceFirstUnknowns(s, '#');
      ReplaceFirstUnknowns(s, '.');
      Completions(ReplaceFirst(s, '#')) + Completions(ReplaceFirst(s, '.'))
  }

  /** t fills in s: the same springs where s knows them, '#' or '.' where
      s has '?'. */
  predicate Fills(s: string, t: string)
  {
    |t| == |s| &&
    forall i | 0 <= i < |s| :: if s[i] == '?' then t[i] == '#' || t[i] == '.' else t[i] == s[i]
  }

  /** A record with k unknown springs has 2^k completions. */
  lemma {:induction false} CompletionsCount(s: string)
    ensures |Completions(s)| == Pow(2, Unknowns(s))
    decreases Unknowns(s)
  {
    UnknownsPresent(s);
    if '?' in s {
      var damaged, operational := ReplaceFirst(s, '#'), ReplaceFirst(s, '.');
      var e := Unknowns(s) - 1;
      assert |Completions(s)| == |Completions(damaged)| + |Completions(operational)|;
      assert Pow(2, e + 1) == 2 * Pow(2, e);
      ReplaceFirstUnknowns(s, '#');
      ReplaceFirstUnknowns(s, '.');
      CompletionsCount(damaged);
      CompletionsCount(operational);
      assert Unknowns(damaged) == e && Unknowns(operational) == e;
      assert |Completions(damaged)| == Pow(2, Unknowns(damaged));
      assert |Completions(operational)| == Pow(2, Unknowns(operational));
      assert Unknowns(s) == e + 1;
    }
  }

  /** Filling the first '?' with c, then the rest, fills s. */
  lemma {:induction false} FillsAfterReplace(s: string, c: char, t: string)
    requires '?' in s && (c == '#' || c == '.')
    ensures Fills(ReplaceFirst(s, c), t) <==> Fills(s, t) && t[FirstIndex(s, '?')] == c
  {
  }

  /** The completions are exactly the fillings of s. */
  lemma {:induction false} CompletionsExact(s: string, t: string)
    ensures t in Completions(s) <==> Fills(s, t)
    decreases Unknowns(s)
  {
    if '?' !in s {
      if Fills(s, t) {
        assert t == s;
      }
    } else {
      ReplaceFirstUnknowns(s, '#');
      ReplaceFirstUnknowns(s, '.');
      CompletionsExact(ReplaceFirst(s, '#'), t);
      CompletionsExact(ReplaceFirst(s, '.'), t);
      FillsAfterReplace(s, '#', t);
      FillsAfterReplace(s, '.', t);
    }
  }

  /** No completion is listed twice. */
  lemma {:induction false} CompletionsDistinct(s: string)
    ensures forall i, j | 0 <= i < j < |Completions(s)| :: Completions(s)[i] != Completions(s)[j]
    decreases Unknowns(s)
  {
    if '?' in s {
      var damaged, operational := ReplaceFirst(s, '#'), ReplaceFirst(s, '.');
      ReplaceFirstUnknowns(s, '#');
      ReplaceFirstUnknowns(s, '.');
      CompletionsDistinct(damaged);
      CompletionsDistinct(operational);
      var left, right := Completions(damaged), Completions(operational);
      var at := FirstIndex(s, '?');
      forall i, j | 0 <= i < |left| && 0 <= j < |right|
        ensures left[i] != right[j]
      {
        CompletionsExact(damaged, left[i]);
        CompletionsExact(operational, right[j]);
        FillsAfterReplace(s, '#', left[i]);
        FillsAfterReplace(s, '.', right[j]);
        assert left[i][at] != right[j][at];
      }
      assert Completions(s) == left + right;
    }
  }

  // ----------------------------------------------------------------- runs

  /** The lengths of the maximal runs of '#', left to right, when a run of
      length `run` is already under way: `group_by` on "is '#'", keeping the
      sizes of the damaged groups. */
  function RunsFrom(s: string, run: nat): seq<nat>
  {
    if s == [] then (if run > 0 then [run] else [])
    else if s[0] == '#' then RunsFrom(s[1..], run + 1)
    else (if run > 0 then [run] else []) + RunsFrom(s[1..], 0)
  }

  /** The sizes of the damaged groups of a row of springs. */
  function RunLengths(s: string): seq<nat>
  {
    RunsFrom(s, 0)
  }

  /** The number of damaged springs. */
  function Damaged(s: string): nat
  {
    if s == [] then 0 else (if s[0] == '#' then 1 else 0) + Damaged(s[1..])
  }

  /** Every group has at least one spring, and the groups hold every
      damaged spring (plus the run already under way). */
  lemma {:induction false} RunsAccount(s: string, run: nat)
    ensures forall k | 0 <= k < |RunsFrom(s, run)| :: RunsFrom(s, run)[k] >= 1
    ensures Sum(RunsFrom(s, run)) == run + Damaged(s)
  {
    if s == [] {
      if run > 0 {
        assert [run as int][..0] == [];
      }
    } else if s[0] == '#' {
      RunsAccount(s[1..], run + 1);
    } else {
      RunsAccount(s[1..], 0);
      var head: seq<nat> := if run > 0 then [run] else [];
      SumAppend(head, RunsFrom(s[1..], 0));
      if run > 0 {
        assert [run as int][..0] == [];
      }
    }
  }

  /** A spring that is not damaged ends any run: the groups on either side
      of it are listed one after the other. */
  lemma {:induction false} RunsSplit(a: string, c: char, b: string, run: nat)
    requires c != '#'
    ensures RunsFrom(a + [c] + b, run) == RunsFrom(a, run) + RunsFrom(b, 0)
  {
    if a == [] {
      assert a + [c] + b == [c] + b;
      assert ([c] + b)[1..] == b;
    } else {
      assert (a + [c] + b)[0] == a[0];
      assert (a + [c] + b)[1..] == a[1..] + [c] + b;
      RunsSplit(a[1..], c, b, if a[0] == '#' then run + 1 else 0);
    }
  }

  /** A run of n damaged springs is one group of size n. */
  lemma {:induction false} RunsOfDamaged(s: string, run: nat)
    requires forall k | 0 <= k < |s| :: s[k] == '#'
    ensures RunsFrom(s, run) == if run + |s| > 0 then [run + |s|] else []
  {
    if s != [] {
      RunsOfDamaged(s[1..], run + 1);
    }
  }

  // ------------------------------------------------------------- counting

  /** A completion counts when its group sizes are exactly the listed ones. */
  predicate Matches(t: string, groups: seq<nat>)
  {
    RunLengths(t) == groups
  }

  /** The fold of `task_1`: how many of ts match. */
  function CountMatching(ts: seq<string>, groups: seq<nat>): (n: nat)
    ensures n <= |ts|
  {
    if ts == [] then 0
    else CountMatching(ts[..|ts| - 1], groups) + (if Matches(ts[|ts| - 1], groups) then 1 else 0)
  }

  lemma {:induction false} CountMatchingAppend(a: seq<string>, b: seq<string>, groups: seq<nat>)
    ensures CountMatching(a + b, groups) == CountMatching(a, groups) + CountMatching(b, groups)
  {
    if b == [] {
      assert a + b == a;
    } else {
      assert (a + b)[..|a + b| - 1] == a + b[..|b| - 1];
      CountMatchingAppend(a, b[..|b| - 1], groups);
    }
  }

  /** The count does not depend on the order of the completions. */
  lemma {:induction false} CountMatchingPermutation(a: seq<string>, b: seq<string>, groups: seq<nat>)
    requires multiset(a) == multiset(b)
    ensures CountMatching(a, groups) == CountMatching(b, groups)
  {
    if a != [] {
      var n := |a| - 1;
      var x := a[n];
      assert x in multiset(b);
      var j :| 0 <= j < |b| && b[j] == x;
      var front, back := b[..j], b[j + 1..];
      var rest := front + back;
      assert b == front + [x] + back;
      assert a == a[..n] + [x];
      assert multiset(b) == multiset(front) + multiset{x} + multiset(back);
      assert multiset(a) == multiset(a[..n]) + multiset{x};
      assert multiset(rest) == multiset(front) + multiset(back);
      assert multiset(a[..n]) == multiset(a) - multiset{x};
      assert multiset(rest) == multiset(b) - multiset{x};
      CountMatchingPermutation(a[..n], rest, groups);
      CountMatchingAppend(front + [x], back, groups);
      CountMatchingAppend(front, [x], groups);
      CountMatchingAppend(front, back, groups);
      assert [x][..0] == [];
      assert CountMatching(a, groups) == CountMatching(a[..n], groups) + CountMatching([x], groups);
    }
  }

  /** The arrangements of one record: its completions that match. */
  function Arrangements(r: Record): nat
  {
    CountMatching(Completions(r.springs), r.groups)
  }

  /** A record with no unknown spring has one arrangement if its groups
      match and none otherwise. */
  lemma {:induction false} NoUnknowns(r: Record)
    requires '?' !in r.springs
    ensures Arrangements(r) == if Matches(r.springs, r.groups) then 1 else 0
  {
    assert Completions(r.springs) == [r.springs];
    assert [r.springs][..0] == [];
  }

  /** A record has at most 2^k arrangements for k unknown springs. */
  lemma {:induction false} ArrangementsBound(r: Record)
    ensures Arrangements(r) <= Pow(2, Unknowns(r.springs))
  {
    CompletionsCount(r.springs);
  }

  // ------------------------------------------------------------- worklist

  /** The completions of every item of a worklist, one item after another. */
  function Flat(items: seq<string>): seq<string>
  {
    if items == [] then [] else Flat(items[..|items| - 1]) + Completions(items[|items| - 1])
  }

  lemma {:induction false} FlatAppend(a: seq<string>, b: seq<string>)
    ensures Flat(a + b) == Flat(a) + Flat(b)
  {
    if b == [] {
      assert a + b == a;
    } else {
      assert (a + b)[..|a + b| - 1] == a + b[..|b| - 1];
      FlatAppend(a, b[..|b| - 1]);
    }
  }

  lemma {:induction false} FlatOne(s: string)
    ensures Flat([s]) == Completions(s)
  {
    assert [s][..0] == [];
  }

  /** Every item has at least one completion. */
  lemma {:induction false} FlatLength(items: seq<string>)
    ensures |Flat(items)| >= |items|
  {
    if items != [] {
      FlatLength(items[..|items| - 1]);
      CompletionsCount(items[|items| - 1]);
      PowPositive(2, Unknowns(items[|items| - 1]));
    }
  }

  /** A worklist without unknown springs is its own completion list. */
  lemma {:induction false} FlatDone(items: seq<string>)
    requires forall k | 0 <= k < |items| :: '?' !in items[k]
    ensures Flat(items) == items
  {
    if items != [] {
      FlatDone(items[..|items| - 1]);
    }
  }

  /** One turn of the worklist replaces item i, which has an unknown
      spring, by its two fillings of the first '?' at the end of the list;
      the completions of the whole list stay the same, up to order. */
  lemma {:induction false} WorklistStep(items: seq<string>, i: nat)
    requires i < |items| && '?' in items[i]
    ensures var line := items[i];
      multiset(Flat(items[..i] + items[i + 1..] + [ReplaceFirst(line, '#')] + [ReplaceFirst(line, '.')])) ==
      multiset(Flat(items))
  {
    var line := items[i];
    var damaged, operational := ReplaceFirst(line, '#'), ReplaceFirst(line, '.');
    assert items == items[..i] + [line] + items[i + 1..];
    FlatAppend(items[..i] + [line], items[i + 1..]);
    FlatAppend(items[..i], [line]);
    FlatOne(line);
    FlatAppend(items[..i] + items[i + 1..] + [damaged], [operational]);
    FlatAppend(items[..i] + items[i + 1..], [damaged]);
    FlatAppend(items[..i], items[i + 1..]);
    FlatOne(damaged);
    FlatOne(operational);
  }

  /** `find_position(|line| line.contains('?'))`: the first item that still
      has an unknown spring. */
  method FindUnknown(items: seq<string>) returns (found: Option<nat>)
    ensures found.Some? ==> found.value < |items| && '?' in items[found.value]
    ensures found.Some? ==> forall k | 0 <= k < found.value :: '?' !in items[k]
    ensures found.None? <==> forall k | 0 <= k < |items| :: '?' !in items[k]
  {
    var k := 0;
    while k < |items|
      invariant k <= |items|
      invariant forall m | 0 <= m < k :: '?' !in items[m]
    {
      if '?' in items[k] {
        return Some(k);
      }
      k := k + 1;
    }
    return None;
  }

  /** The worklist loop of `task_1`: it ends with every completion of the
      springs, each once, in some order. */
  method Expand(springs: string) returns (combinations: seq<string>)
    ensures multiset(combinations) == multiset(Completions(springs))
    ensures forall k | 0 <= k < |combinations| :: '?' !in combinations[k]
  {
    combinations := [springs];
    FlatOne(springs);
    while true
      invariant multiset(Flat(combinations)) == multiset(Completions(springs))
      decreases |Completions(springs)| - |combinations|
    {
      FlatLength(combinations);
      var found := FindUnknown(combinations);
      if found.None? {
        break;
      }
      var i := found.value;
      var line := combinations[i];
      WorklistStep(combinations, i);
      combinations := combinations[..i] + combinations[i + 1..];
      combinations := combinations + [ReplaceFirst(line, '#')];
      combinations := combinations + [ReplaceFirst(line, '.')];
      FlatLength(combinations);
      assert |multiset(Flat(combinations))| == |multiset(Completions(springs))|;
    }
    FlatDone(combinations);
  }

  /** The count of one line of `task_1`. */
  method CountArrangements(r: Record) returns (count: nat)
    ensures count == Arrangements(r)
  {
    var combinations := Expand(r.springs);
    count := CountMatching(combinations, r.groups);
    CountMatchingPermutation(combinations, Completions(r.springs), r.groups);
  }

  /** The arrangements of every record, summed. */
  function TotalArrangements(records: seq<Record>): nat
  {
    if records == [] then 0
    else TotalArrangements(records[..|records| - 1]) + Arrangements(records[|records| - 1])
  }

  /** `task_1`. */
  method Task1(records: seq<Record>) returns (total: nat)
    ensures total == TotalArrangements(records)
  {
    total := 0;
    for k := 0 to |records|
      invariant total == TotalArrangements(records[..k])
    {
      assert records[..k + 1][..k] == records[..k];
      var count := CountArrangements(records[k]);
      total := total + count;
    }
    assert records[..|records|] == records;
  }

  /** `task_2`: a stub that answers 0 whatever the records, so it never
      gives the 525152 that its test expects for the example. */
  function Task2(records: seq<Record>): (r: nat)
    ensures r == 0
  {
    0
  }
}
