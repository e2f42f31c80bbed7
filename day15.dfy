/**
 * Lens Library: the HASH algorithm and the 256 ordered lens boxes
 * (day-15/src/main.rs).
 */
module LensLibrary {
  import opened Common

  // ---------------------------------------------------------------- HASH

  /** The byte `to_ascii_lowercase() as u8` yields: ASCII upper case is
      folded to lower case, then the code point is truncated to 8 bits. */
  function ByteOf(c: char): nat
  {
    (if 'A' <= c <= 'Z' then c as int + 32 else c as int) % 256
  }

  /** One step of the fold; a line feed leaves the accumulator alone. */
  function HashStep(acc: nat, c: char): nat
  {
    if c == '\n' then acc else (acc + ByteOf(c)) * 17 % 256
  }

  /** The HASH of a string: a left fold of `HashStep` starting from 0. */
  function Hash(s: string): (h: nat)
    ensures h < 256
  {
    if s == [] then 0 else HashStep(Hash(s[..|s| - 1]), s[|s| - 1])
  }

  /** ASCII lower-casing of a whole string. */
  function Lower(s: string): (t: string)
    ensures |t| == |s|
  {
    if s == [] then [] else Lower(s[..|s| - 1]) + [if 'A' <= s[|s| - 1] <= 'Z' then (s[|s| - 1] as int + 32) as char else s[|s| - 1]]
  }

  /** The string with every line feed removed. */
  function DropNewlines(s: string): (t: string)
    ensures |t| <= |s|
  {
    if s == [] then [] else DropNewlines(s[..|s| - 1]) + (if s[|s| - 1] == '\n' then [] else [s[|s| - 1]])
  }

  lemma {:induction false} HashOfEmpty()
    ensures Hash("") == 0
  {
  }

  /** HASH does not distinguish upper from lower case. */
  lemma {:induction false} HashCaseInsensitive(s: string)
    ensures Hash(Lower(s)) == Hash(s)
  {
    if s != [] {
      var n := |s| - 1;
      assert Lower(s)[..n] == Lower(s[..n]);
      HashCaseInsensitive(s[..n]);
    }
  }

  /** Line feeds do not contribute to HASH. */
  lemma {:induction false} HashIgnoresNewlines(s: string)
    ensures Hash(DropNewlines(s)) == Hash(s)
  {
    if s != [] {
      var n := |s| - 1;
      var prefix := DropNewlines(s[..n]);
      HashIgnoresNewlines(s[..n]);
      if s[n] != '\n' {
        assert DropNewlines(s) == prefix + [s[n]];
        assert (prefix + [s[n]])[..|prefix|] == prefix;
      } else {
        assert DropNewlines(s) == prefix;
      }
    }
  }

  /** Because of the lower-casing, "HASH" hashes like "hash" (180 here). */
  lemma {:induction false} HashExample()
    ensures Hash("rn=1") == 30
    ensures Hash("HASH") == Hash("hash") == 180
  {
    assert "rn=1"[..3] == "rn=" && "rn="[..2] == "rn" && "rn"[..1] == "r" && "r"[..0] == "";
    assert Hash("r") == 146;
    assert Hash("rn") == 0;
    assert Hash("rn=") == 13;
    assert "HASH"[..3] == "HAS" && "HAS"[..2] == "HA" && "HA"[..1] == "H" && "H"[..0] == "";
    assert "hash"[..3] == "has" && "has"[..2] == "ha" && "ha"[..1] == "h" && "h"[..0] == "";
    assert Hash("H") == Hash("h") == 232;
    assert Hash("HA") == Hash("ha") == 217;
    assert Hash("HAS") == Hash("has") == 12;
  }

  /** Part 1: the sum of the HASH of every comma-separated step. */
  function Task1(input: string): (total: nat)
    ensures total < 256 * |Split(input, ',')|
  {
    SumHashes(Split(input, ','))
  }

  function SumHashes(steps: seq<string>): (total: nat)
    ensures total < 256 * |steps| || (steps == [] && total == 0)
  {
    if steps == [] then 0 else SumHashes(steps[..|steps| - 1]) + Hash(steps[|steps| - 1])
  }

  /** The sum over a concatenation is the sum of the two sums. */
  lemma {:induction false} SumHashesAppend(a: seq<string>, b: seq<string>)
    ensures SumHashes(a + b) == SumHashes(a) + SumHashes(b)
    decreases |b|
  {
    if b == [] {
      assert a + b == a;
    } else {
      assert (a + b)[..|a + b| - 1] == a + b[..|b| - 1];
      SumHashesAppend(a, b[..|b| - 1]);
    }
  }

  lemma {:induction false} SumOfTwo(x: string, y: string)
    ensures SumHashes([x, y]) == Hash(x) + Hash(y)
  {
    assert [x, y][..1] == [x];
    assert [x][..0] == [];
  }

  lemma {:induction false} SumOfThree(x: string, y: string, z: string)
    ensures SumHashes([x, y, z]) == Hash(x) + Hash(y) + Hash(z)
  {
    assert [x, y, z][..2] == [x, y];
    SumOfTwo(x, y);
  }

  /** The steps of the worked example. */
  function ExampleSteps(): seq<string>
  {
    ["rn=1", "cm-", "qp=3", "cm=2", "qp-", "pc=4", "ot=9", "ab=5", "pc-", "pc=6", "ot=7"]
  }

  /** The HASH of the first steps of the worked example. */
  lemma {:induction false} ExampleHashesA()
    ensures Hash("rn=1") == 30 && Hash("cm-") == 253 && Hash("qp=3") == 97
  {
    assert "rn=1"[..3] == "rn=" && "rn="[..2] == "rn" && "rn"[..1] == "r" && "r"[..0] == "";
    assert Hash("r") == 146;
    assert Hash("rn") == 0;
    assert Hash("rn=") == 13;
    assert "cm-"[..2] == "cm" && "cm"[..1] == "c" && "c"[..0] == "";
    assert Hash("c") == 147;
    assert Hash("cm") == 0;
    assert "qp=3"[..3] == "qp=" && "qp="[..2] == "qp" && "qp"[..1] == "q" && "q"[..0] == "";
    assert Hash("q") == 129;
    assert Hash("qp") == 1;
    assert Hash("qp=") == 30;
  }

  lemma {:induction false} ExampleHashesB()
    ensures Hash("cm=2") == 47 && Hash("qp-") == 14 && Hash("pc=4") == 180
  {
    assert "cm=2"[..3] == "cm=" && "cm="[..2] == "cm" && "cm"[..1] == "c" && "c"[..0] == "";
    assert Hash("c") == 147;
    assert Hash("cm") == 0;
    assert Hash("cm=") == 13;
    assert "qp-"[..2] == "qp" && "qp"[..1] == "q" && "q"[..0] == "";
    assert Hash("q") == 129;
    assert Hash("qp") == 1;
    assert "pc=4"[..3] == "pc=" && "pc="[..2] == "pc" && "pc"[..1] == "p" && "p"[..0] == "";
    assert Hash("p") == 112;
    assert Hash("pc") == 3;
    assert Hash("pc=") == 64;
  }

  lemma {:induction false} ExampleHashesC()
    ensures Hash("ot=9") == 9 && Hash("ab=5") == 197 && Hash("pc-") == 48
  {
    assert "ot=9"[..3] == "ot=" && "ot="[..2] == "ot" && "ot"[..1] == "o" && "o"[..0] == "";
    assert Hash("o") == 95;
    assert Hash("ot") == 3;
    assert Hash("ot=") == 64;
    assert "ab=5"[..3] == "ab=" && "ab="[..2] == "ab" && "ab"[..1] == "a" && "a"[..0] == "";
    assert Hash("a") == 113;
    assert Hash("ab") == 3;
    assert Hash("ab=") == 64;
    assert "pc-"[..2] == "pc" && "pc"[..1] == "p" && "p"[..0] == "";
    assert Hash("p") == 112;
    assert Hash("pc") == 3;
  }

  lemma {:induction false} ExampleHashesD()
    ensures Hash("pc=6") == 214 && Hash("ot=7") == 231
  {
    assert "pc=6"[..3] == "pc=" && "pc="[..2] == "pc" && "pc"[..1] == "p" && "p"[..0] == "";
    assert Hash("p") == 112;
    assert Hash("pc") == 3;
    assert Hash("pc=") == 64;
    assert "ot=7"[..3] == "ot=" && "ot="[..2] == "ot" && "ot"[..1] == "o" && "o"[..0] == "";
    assert Hash("o") == 95;
    assert Hash("ot") == 3;
    assert Hash("ot=") == 64;
  }

  /** Part 1 of the worked example, its steps joined by commas, is 1320. */
  lemma {:induction false} Example1()
    ensures Task1(Join(ExampleSteps(), ',')) == 1320
  {
    var steps := ExampleSteps();
    assert forall k | 0 <= k < |steps| :: ',' !in steps[k];
    JoinSplit(steps, ',');
    ExampleSum();
  }

  lemma {:induction false} ExampleSum()
    ensures SumHashes(ExampleSteps()) == 1320
  {
    var first, c, d := ExampleSteps()[..6], ["ot=9", "ab=5", "pc-"], ["pc=6", "ot=7"];
    assert ExampleSteps() == first + c + d;
    SumHashesAppend(first + c, d);
    SumHashesAppend(first, c);
    ExampleSumFirst();
    ExampleHashesC();
    SumOfThree("ot=9", "ab=5", "pc-");
    ExampleHashesD();
    SumOfTwo("pc=6", "ot=7");
  }

  lemma {:induction false} ExampleSumFirst()
    ensures SumHashes(ExampleSteps()[..6]) == 621
  {
    var a, b := ["rn=1", "cm-", "qp=3"], ["cm=2", "qp-", "pc=4"];
    assert ExampleSteps()[..6] == a + b;
    SumHashesAppend(a, b);
    ExampleHashesA();
    SumOfThree("rn=1", "cm-", "qp=3");
    ExampleHashesB();
    SumOfThree("cm=2", "qp-", "pc=4");
  }

  // ------------------------------------------------------------ the boxes

  datatype Lens = Lens(name: string, focal: nat)

  /** A parsed step: `name=n` puts a lens, `name-` takes one out. */
  datatype Step = Put(name: string, focal: nat) | Take(name: string)

  /** One step of part 2. A step containing '=' is split at the first '='
      and its right part must parse as a number; any other step must contain
      '-' and is split at the first '-'. Anything else panics (None). */
  function ParseStep(s: string): (r: Option<Step>)
    ensures r.Some? && r.value.Put? ==> '=' in s && r.value.name == s[..FirstIndex(s, '=')]
    ensures r.Some? && r.value.Take? ==> '=' !in s && '-' in s && r.value.name == s[..FirstIndex(s, '-')]
    ensures r.None? <==> ('=' in s && ParseNat(s[FirstIndex(s, '=') + 1..]).None?) || ('=' !in s && '-' !in s)
  {
    if '=' in s then
      var i := FirstIndex(s, '=');
      match ParseNat(s[i + 1..])
      case Some(n) => Some(Put(s[..i], n))
      case None => None
    else if '-' in s then Some(Take(s[..FirstIndex(s, '-')]))
    else None
  }

  /** Position of the first lens carrying `name` (`iter().position`). */
  function Position(box: seq<Lens>, name: string): (r: Option<nat>)
    ensures r.Some? ==> r.value < |box| && box[r.value].name == name
    ensures r.Some? ==> forall k | 0 <= k < r.value :: box[k].name != name
    ensures r.None? <==> forall k | 0 <= k < |box| :: box[k].name != name
  {
    if box == [] then None
    else if box[0].name == name then Some(0)
    else match Position(box[1..], name)
      case Some(i) => Some(i + 1)
      case None => None
  }

  /** `name=n` on one box: replace the lens in place, or append it. */
  function PutLens(box: seq<Lens>, name: string, focal: nat): seq<Lens>
  {
    match Position(box, name)
    case Some(i) => box[..i] + [Lens(name, focal)] + box[i + 1..]
    case None => box + [Lens(name, focal)]
  }

  /** `name-` on one box: remove the lens if it is there. */
  function TakeLens(box: seq<Lens>, name: string): seq<Lens>
  {
    match Position(box, name)
    case Some(i) => box[..i] + box[i + 1..]
    case None => box
  }

  /** The labels of a box are pairwise distinct. */
  ghost predicate DistinctLabels(box: seq<Lens>)
  {
    forall j, k | 0 <= j < k < |box| :: box[j].name != box[k].name
  }

  /** The focal length stored for `name`, if any. */
  function Lookup(box: seq<Lens>, name: string): Option<nat>
  {
    match Position(box, name)
    case Some(i) => Some(box[i].focal)
    case None => None
  }

  /** `name=n` leaves the box length alone when the name was there, and
      the lens keeps its slot. */
  lemma {:induction false} PutReplacesInPlace(box: seq<Lens>, name: string, focal: nat)
    requires Position(box, name).Some?
    ensures var i := Position(box, name).value;
      |PutLens(box, name, focal)| == |box| &&
      PutLens(box, name, focal)[i] == Lens(name, focal) &&
      forall k | 0 <= k < |box| && k != i :: PutLens(box, name, focal)[k] == box[k]
  {
    var i := Position(box, name).value;
    var r := box[..i] + [Lens(name, focal)] + box[i + 1..];
    assert PutLens(box, name, focal) == r;
    assert |r| == |box|;
    forall k | 0 <= k < |box| && k != i
      ensures r[k] == box[k]
    {
      if k < i {
        assert r[k] == box[..i][k];
      } else {
        assert r[k] == box[i + 1..][k - i - 1];
      }
    }
  }

  /** `name=n` with a new name adds it after every lens already there. */
  lemma {:induction false} PutAppendsNew(box: seq<Lens>, name: string, focal: nat)
    requires forall k | 0 <= k < |box| :: box[k].name != name
    ensures PutLens(box, name, focal) == box + [Lens(name, focal)]
  {
  }

  /** After `name=n` the box answers n for that name and is otherwise unchanged,
      and its labels stay distinct. */
  lemma {:induction false} PutLookup(box: seq<Lens>, name: string, focal: nat, other: string)
    requires DistinctLabels(box)
    ensures DistinctLabels(PutLens(box, name, focal))
    ensures Lookup(PutLens(box, name, focal), name) == Some(focal)
    ensures other != name ==> Lookup(PutLens(box, name, focal), other) == Lookup(box, other)
  {
    var r := PutLens(box, name, focal);
    match Position(box, name)
    case Some(i) =>
      assert forall k | 0 <= k < |r| :: r[k] == if k == i then Lens(name, focal) else box[k];
      assert LabelsEqual(r, box);
      PositionByLabels(r, box, name);
      if other != name {
        LookupByLabels(r, box, other);
      }
    case None =>
      assert r[..|box|] == box;
      LookupAppend(box, Lens(name, focal), other);
      LookupAppend(box, Lens(name, focal), name);
  }

  ghost predicate LabelsEqual(a: seq<Lens>, b: seq<Lens>)
  {
    |a| == |b| && forall k | 0 <= k < |a| :: a[k].name == b[k].name
  }

  lemma {:induction false} PositionByLabels(a: seq<Lens>, b: seq<Lens>, name: string)
    requires LabelsEqual(a, b)
    ensures Position(a, name) == Position(b, name)
  {
    if a != [] {
      PositionByLabels(a[1..], b[1..], name);
    }
  }

  lemma {:induction false} LookupByLabels(a: seq<Lens>, b: seq<Lens>, name: string)
    requires LabelsEqual(a, b)
    requires forall k | 0 <= k < |a| && a[k].name == name :: a[k] == b[k]
    ensures Lookup(a, name) == Lookup(b, name)
  {
    PositionByLabels(a, b, name);
  }

  lemma {:induction false} LookupAppend(box: seq<Lens>, lens: Lens, name: string)
    ensures Position(box, name).Some? ==> Position(box + [lens], name) == Position(box, name)
    ensures Position(box, name).None? && lens.name == name ==> Position(box + [lens], name) == Some(|box|)
    ensures Position(box, name).None? && lens.name != name ==> Position(box + [lens], name).None?
  {
    if box != [] {
      assert (box + [lens])[1..] == box[1..] + [lens];
      LookupAppend(box[1..], lens, name);
    }
  }

  /** `name-` removes exactly that name and keeps the others in order:
      on a box with distinct labels it is the same as filtering the name out. */
  lemma {:induction false} TakeIsFilter(box: seq<Lens>, name: string)
    requires DistinctLabels(box)
    ensures TakeLens(box, name) == Without(box, name)
  {
    if box != [] {
      var rest := box[1..];
      assert DistinctLabels(rest) by {
        forall j, k | 0 <= j < k < |rest| ensures rest[j].name != rest[k].name {
          assert rest[j] == box[j + 1] && rest[k] == box[k + 1];
        }
      }
      if box[0].name == name {
        assert forall k | 0 <= k < |rest| :: rest[k].name != name by {
          forall k | 0 <= k < |rest| ensures rest[k].name != name {
            assert rest[k] == box[k + 1];
          }
        }
        WithoutAbsent(rest, name);
        assert TakeLens(box, name) == rest;
      } else {
        TakeIsFilter(rest, name);
        TakeCons(box, name);
      }
    }
  }

  /** Taking a name that is not at the head leaves the head in front. */
  lemma {:induction false} TakeCons(box: seq<Lens>, name: string)
    requires box != [] && box[0].name != name
    ensures TakeLens(box, name) == [box[0]] + TakeLens(box[1..], name)
  {
    var rest := box[1..];
    match Position(rest, name)
    case Some(i) =>
      assert Position(box, name) == Some(i + 1);
      RemoveAfterHead(box, i);
    case None =>
      assert Position(box, name).None?;
  }

  /** Removing index i + 1 of a sequence is removing index i of its tail. */
  lemma {:induction false} RemoveAfterHead<T>(s: seq<T>, i: nat)
    requires i + 1 < |s|
    ensures s[..i + 1] + s[i + 2..] == [s[0]] + (s[1..][..i] + s[1..][i + 1..])
  {
    assert s[..i + 1] == [s[0]] + s[1..][..i];
    assert s[i + 2..] == s[1..][i + 1..];
  }

  /** The lenses of `box` whose name is not `name`, in order. */
  function Without(box: seq<Lens>, name: string): (r: seq<Lens>)
    ensures forall k | 0 <= k < |r| :: r[k].name != name
  {
    if box == [] then []
    else (if box[0].name == name then [] else [box[0]]) + Without(box[1..], name)
  }

  lemma {:induction false} NoneAfter(box: seq<Lens>, name: string)
    requires DistinctLabels(box) && box != [] && box[0].name == name
    ensures forall k | 0 <= k < |box[1..]| :: box[1..][k].name != name
  {
  }

  lemma {:induction false} WithoutAbsent(box: seq<Lens>, name: string)
    requires forall k | 0 <= k < |box| :: box[k].name != name
    ensures Without(box, name) == box
  {
    if box != [] {
      WithoutAbsent(box[1..], name);
    }
  }

  /** Every lens in box b carries a name whose HASH is b, once. */
  ghost predicate BoxInvariant(box: seq<Lens>, b: nat)
  {
    DistinctLabels(box) && forall k | 0 <= k < |box| :: Hash(box[k].name) == b
  }

  lemma {:induction false} PutKeepsInvariant(box: seq<Lens>, name: string, focal: nat)
    requires BoxInvariant(box, Hash(name))
    ensures BoxInvariant(PutLens(box, name, focal), Hash(name))
  {
    PutLookup(box, name, focal, name);
  }

  lemma {:induction false} TakeKeepsInvariant(box: seq<Lens>, name: string)
    requires BoxInvariant(box, Hash(name))
    ensures BoxInvariant(TakeLens(box, name), Hash(name))
  {
    match Position(box, name)
    case Some(i) => RemoveAtKeepsInvariant(box, i, Hash(name));
    case None =>
  }

  lemma {:induction false} RemoveAtKeepsInvariant(box: seq<Lens>, i: nat, b: nat)
    requires i < |box| && BoxInvariant(box, b)
    ensures BoxInvariant(box[..i] + box[i + 1..], b)
  {
    var r := box[..i] + box[i + 1..];
    assert forall k | 0 <= k < |r| :: r[k] == box[if k < i then k else k + 1];
    forall j, k | 0 <= j < k < |r| ensures r[j].name != r[k].name {
      var j', k' := if j < i then j else j + 1, if k < i then k else k + 1;
      assert r[j] == box[j'] && r[k] == box[k'];
    }
  }

  /** Focusing power of one box with number b: sum of (b+1)(slot+1)·focal. */
  function BoxPower(box: seq<Lens>, b: nat): nat
  {
    if box == [] then 0 else BoxPower(box[..|box| - 1], b) + (b + 1) * |box| * box[|box| - 1].focal
  }

  /** Focusing power of boxes[..n]. */
  function Power(boxes: seq<seq<Lens>>): nat
  {
    if boxes == [] then 0 else Power(boxes[..|boxes| - 1]) + BoxPower(boxes[|boxes| - 1], |boxes| - 1)
  }

  /** Applying one step to the 256 boxes: only box HASH(name) changes. */
  function Apply(boxes: seq<seq<Lens>>, step: Step): (r: seq<seq<Lens>>)
    requires |boxes| == 256
    ensures |r| == 256
    ensures forall b | 0 <= b < 256 && b != Hash(step.name) :: r[b] == boxes[b]
  {
    var h := Hash(step.name);
    match step
    case Put(name, focal) => boxes[h := PutLens(boxes[h], name, focal)]
    case Take(name) => boxes[h := TakeLens(boxes[h], name)]
  }

  /** The boxes after every step, starting from 256 empty boxes. */
  function Arrange(steps: seq<Step>): (r: seq<seq<Lens>>)
    ensures |r| == 256
  {
    if steps == [] then seq(256, _ => []) else Apply(Arrange(steps[..|steps| - 1]), steps[|steps| - 1])
  }

  /** Every reachable arrangement keeps the box invariant. */
  lemma {:induction false} ArrangeInvariant(steps: seq<Step>)
    ensures forall b | 0 <= b < 256 :: BoxInvariant(Arrange(steps)[b], b)
  {
    if steps != [] {
      var prev := Arrange(steps[..|steps| - 1]);
      ArrangeInvariant(steps[..|steps| - 1]);
      var step := steps[|steps| - 1];
      match step
      case Put(name, focal) => PutKeepsInvariant(prev[Hash(name)], name, focal);
      case Take(name) => TakeKeepsInvariant(prev[Hash(name)], name);
    }
  }

  /** The parsed steps, or None as soon as one step fails to parse. */
  function ParseSteps(pieces: seq<string>): (r: Option<seq<Step>>)
    ensures r.Some? ==> |r.value| == |pieces|
  {
    if pieces == [] then Some([])
    else match (ParseSteps(pieces[..|pieces| - 1]), ParseStep(pieces[|pieces| - 1]))
      case (Some(prefix), Some(step)) => Some(prefix + [step])
      case _ => None
  }

  /** The 256 boxes of part 2, updated in place. */
  class Boxes {
    const slots: array<seq<Lens>>

    ghost predicate Valid()
      reads this, slots
    {
      slots.Length == 256 && forall b | 0 <= b < 256 :: BoxInvariant(slots[b], b)
    }

    constructor ()
      ensures Valid() && fresh(slots)
      ensures slots[..] == Arrange([])
    {
      slots := new seq<Lens>[256](_ => []);
    }

    /** `name=n`: replace in place (remove then insert at the same index) or push. */
    method Put(name: string, focal: nat)
      requires Valid()
      modifies slots
      ensures Valid()
      ensures slots[..] == Apply(old(slots[..]), Step.Put(name, focal))
    {
      var h := Hash(name);
      var box := slots[h];
      var i := 0;
      while i < |box| && box[i].name != name
        invariant 0 <= i <= |box|
        invariant forall k | 0 <= k < i :: box[k].name != name
      {
        i := i + 1;
      }
      if i < |box| {
        slots[h] := box[..i] + [Lens(name, focal)] + box[i + 1..];
      } else {
        slots[h] := box + [Lens(name, focal)];
      }
      PutKeepsInvariant(box, name, focal);
    }

    /** `name-`: remove the lens carrying the name, if any. */
    method Take(name: string)
      requires Valid()
      modifies slots
      ensures Valid()
      ensures slots[..] == Apply(old(slots[..]), Step.Take(name))
    {
      var h := Hash(name);
      var box := slots[h];
      var i := 0;
      while i < |box| && box[i].name != name
        invariant 0 <= i <= |box|
        invariant forall k | 0 <= k < i :: box[k].name != name
      {
        i := i + 1;
      }
      if i < |box| {
        slots[h] := box[..i] + box[i + 1..];
      }
      TakeKeepsInvariant(box, name);
    }

    /** Focusing power of all boxes: the final fold of part 2. */
    method FocusingPower() returns (total: nat)
      requires Valid()
      ensures total == Power(slots[..])
    {
      total := 0;
      for b := 0 to 256
        invariant total == Power(slots[..b])
      {
        var box := slots[b];
        var boxTotal := 0;
        for j := 0 to |box|
          invariant boxTotal == BoxPower(box[..j], b)
        {
          boxTotal := boxTotal + (b + 1) * (j + 1) * box[j].focal;
          assert box[..j + 1][..j] == box[..j];
        }
        assert box[..|box|] == box;
        assert slots[..b + 1][..b] == slots[..b];
        total := total + boxTotal;
      }
      assert slots[..256] == slots[..];
    }
  }

  /** Part 2: run every step on the boxes and return the focusing power;
      None when some step does not parse (the source panics). */
  method Task2(input: string) returns (r: Option<nat>)
    ensures ParseSteps(Split(input, ',')).None? ==> r.None?
    ensures ParseSteps(Split(input, ',')).Some? ==> r == Some(Power(Arrange(ParseSteps(Split(input, ',')).value)))
  {
    var pieces := Split(input, ',');
    var boxes := new Boxes();
    var done: seq<Step> := [];
    for k := 0 to |pieces|
      invariant boxes.Valid()
      invariant ParseSteps(pieces[..k]) == Some(done)
      invariant boxes.slots[..] == Arrange(done)
    {
      assert pieces[..k + 1][..k] == pieces[..k];
      match ParseStep(pieces[k])
      case None =>
        ParseStepsFailure(pieces, k + 1);
        assert pieces[..|pieces|] == pieces;
        return None;
      case Some(step) =>
        assert Arrange(done + [step]) == Apply(Arrange(done), step) by {
          assert (done + [step])[..|done|] == done;
        }
        assert ParseSteps(pieces[..k + 1]) == Some(done + [step]);
        match step {
          case Put(name, focal) => boxes.Put(name, focal);
          case Take(name) => boxes.Take(name);
        }
        done := done + [step];
    }
    assert pieces[..|pieces|] == pieces;
    var p := boxes.FocusingPower();
    r := Some(p);
  }

  /** One unparsable piece makes the whole parse fail. */
  lemma {:induction false} ParseStepsFailure(pieces: seq<string>, n: nat)
    requires 0 < n <= |pieces| && ParseStep(pieces[n - 1]).None?
    ensures ParseSteps(pieces).None?
    decreases |pieces|
  {
    if n < |pieces| {
      assert pieces[..|pieces| - 1][n - 1] == pieces[n - 1];
      ParseStepsFailure(pieces[..|pieces| - 1], n);
    }
  }
}
