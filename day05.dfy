/**
 * If You Give A Seed A Fertilizer (day-05/src/main.rs): seeds pass through
 * a chain of maps, each a list of conversions. Part 1 remaps single seeds;
 * part 2 remaps half-open ranges of seeds. Numbers are unbounded here.
 */
module SeedMaps {
  import opened Common

  /** One map line "dest src offset". */
  datatype Conversion = Conversion(src: int, dest: int, offset: int)

  /** `parse_conversion`: the first number is the destination, the second
      the source and the third the offset; fewer than three is an error. */
  function ParseConversion(nums: seq<int>): (r: Option<Conversion>)
    ensures |nums| >= 3 <==> r.Some?
    ensures r.Some? ==> r.value.dest == nums[0] && r.value.src == nums[1] && r.value.offset == nums[2]
  {
    if |nums| < 3 then None else Some(Conversion(nums[1], nums[0], nums[2]))
  }

  /** The smallest element of a non-empty sequence. */
  function MinOf(xs: seq<int>): (m: int)
    requires |xs| > 0
    ensures m in xs && forall k | 0 <= k < |xs| :: m <= xs[k]
  {
    if |xs| == 1 then xs[0] else Min(MinOf(xs[..|xs| - 1]), xs[|xs| - 1])
  }

  // --------------------------------------------------------------- part 1

  /** Part 1's test: src <= s <= src + offset, the upper end included. */
  predicate Covers(c: Conversion, s: int)
  {
    c.src <= s <= c.src + c.offset
  }

  /** A seed is moved by the first conversion from index i on that covers
      it, and kept when none does. */
  function RemapFrom(convs: seq<Conversion>, s: int, i: nat): int
    decreases |convs| - i
  {
    if i >= |convs| then s
    else if Covers(convs[i], s) then s - convs[i].src + convs[i].dest
    else RemapFrom(convs, s, i + 1)
  }

  function Remap(convs: seq<Conversion>, s: int): int
  {
    RemapFrom(convs, s, 0)
  }

  /** Index of the first conversion from index i on that covers s, if any. */
  function FirstCover(convs: seq<Conversion>, s: int, i: nat): (r: Option<nat>)
    ensures r.Some? ==> i <= r.value < |convs| && Covers(convs[r.value], s)
    ensures r.Some? ==> forall k | i <= k < r.value :: !Covers(convs[k], s)
    ensures r.None? ==> forall k | i <= k < |convs| :: !Covers(convs[k], s)
    decreases |convs| - i
  {
    if i >= |convs| then None
    else if Covers(convs[i], s) then Some(i)
    else FirstCover(convs, s, i + 1)
  }

  /** Remapping is the shift by the first covering conversion; later ones
      are never tried, and a seed no conversion covers keeps its value. */
  lemma {:induction false} RemapByFirst(convs: seq<Conversion>, s: int, i: nat)
    ensures match FirstCover(convs, s, i)
      case None => RemapFrom(convs, s, i) == s
      case Some(j) => RemapFrom(convs, s, i) == s - convs[j].src + convs[j].dest
    decreases |convs| - i
  {
    if i < |convs| && !Covers(convs[i], s) {
      RemapByFirst(convs, s, i + 1);
    }
  }

  /** The upper end src + offset is still moved, to dest + offset. */
  lemma {:induction false} UpperEndIncluded(c: Conversion, rest: seq<Conversion>)
    requires c.offset >= 0
    ensures Remap([c] + rest, c.src + c.offset) == c.dest + c.offset
  {
    assert ([c] + rest)[0] == c;
  }

  /** All seeds through one map. */
  function RemapAll(convs: seq<Conversion>, seeds: seq<int>): (r: seq<int>)
    ensures |r| == |seeds|
  {
    seq(|seeds|, k requires 0 <= k < |seeds| => Remap(convs, seeds[k]))
  }

  /** All seeds through the maps from index m on. */
  function Through(maps: seq<seq<Conversion>>, seeds: seq<int>, m: nat): (r: seq<int>)
    ensures |r| == |seeds|
    decreases |maps| - m
  {
    if m >= |maps| then seeds else Through(maps, RemapAll(maps[m], seeds), m + 1)
  }

  /** One seed through the maps from index m on. */
  function Locate(maps: seq<seq<Conversion>>, s: int, m: nat): int
    decreases |maps| - m
  {
    if m >= |maps| then s else Locate(maps, Remap(maps[m], s), m + 1)
  }

  /** The maps act on each seed independently of the others. */
  lemma {:induction false} ThroughIsLocate(maps: seq<seq<Conversion>>, seeds: seq<int>, m: nat)
    ensures forall k | 0 <= k < |seeds| :: Through(maps, seeds, m)[k] == Locate(maps, seeds[k], m)
    decreases |maps| - m
  {
    if m < |maps| {
      ThroughIsLocate(maps, RemapAll(maps[m], seeds), m + 1);
    }
  }

  /** Part 1's answer: the lowest location, or None without seeds (the
      `unwrap` of an empty minimum). */
  function Lowest(maps: seq<seq<Conversion>>, seeds: seq<int>): Option<int>
  {
    if seeds == [] then None else Some(MinOf(Through(maps, seeds, 0)))
  }

  /** The answer is the location of some seed, and no seed lands lower. */
  lemma {:induction false} LowestIsLowestLocation(maps: seq<seq<Conversion>>, seeds: seq<int>)
    ensures Lowest(maps, seeds).None? <==> seeds == []
    ensures Lowest(maps, seeds).Some? ==>
      (exists k | 0 <= k < |seeds| :: Lowest(maps, seeds).value == Locate(maps, seeds[k], 0)) &&
      (forall k | 0 <= k < |seeds| :: Lowest(maps, seeds).value <= Locate(maps, seeds[k], 0))
  {
    ThroughIsLocate(maps, seeds, 0);
    if seeds != [] {
      var xs := Through(maps, seeds, 0);
      var i :| 0 <= i < |xs| && xs[i] == MinOf(xs);
      assert Lowest(maps, seeds).value == Locate(maps, seeds[i], 0);
    }
  }

  /** The inner loops of `task_1`: every seed is rewritten in place by the
      first conversion that covers it. */
  method RemapSeeds(seeds: array<int>, convs: seq<Conversion>)
    modifies seeds
    ensures seeds[..] == RemapAll(convs, old(seeds[..]))
  {
    for k := 0 to seeds.Length
      invariant forall m | 0 <= m < k :: seeds[m] == Remap(convs, old(seeds[m]))
      invariant forall m | k <= m < seeds.Length :: seeds[m] == old(seeds[m])
    {
      ghost var s0 := seeds[k];
      for i := 0 to |convs|
        invariant seeds[k] == s0
        invariant Remap(convs, s0) == RemapFrom(convs, s0, i)
        invariant forall m | 0 <= m < seeds.Length :: seeds[m] == old(seeds[m]) || m < k
        invariant forall m | 0 <= m < k :: seeds[m] == Remap(convs, old(seeds[m]))
      {
        var conv := convs[i];
        if conv.src <= seeds[k] && conv.src + conv.offset >= seeds[k] {
          seeds[k] := seeds[k] - conv.src + conv.dest;
          break;
        }
      }
      assert seeds[k] == Remap(convs, s0);
    }
  }

  /** `task_1` on parsed seeds and maps. */
  method Task1(seeds: seq<int>, maps: seq<seq<Conversion>>) returns (r: Option<int>)
    ensures r == Lowest(maps, seeds)
  {
    var a := new int[|seeds|](k requires 0 <= k < |seeds| reads {} => seeds[k]);
    assert a[..] == seeds;
    for m := 0 to |maps|
      invariant Through(maps, a[..], m) == Through(maps, seeds, 0)
    {
      RemapSeeds(a, maps[m]);
    }
    if a.Length == 0 {
      return None;
    }
    r := Some(MinOf(a[..]));
  }

  // --------------------------------------------------------------- part 2

  /** A half-open range start..end of seeds. */
  datatype Range = Range(start: int, end: int)

  predicate Valid(r: Range) { r.start <= r.end }

  function Width(r: Range): int { r.end - r.start }

  /** `parse_seeds_tuple`: each "start len" pair is the range start..start+len. */
  function SeedRanges(pairs: seq<(int, int)>): (rs: seq<Range>)
    ensures |rs| == |pairs|
    ensures forall k | 0 <= k < |pairs| :: rs[k].start == pairs[k].0 && Width(rs[k]) == pairs[k].1
  {
    seq(|pairs|, k requires 0 <= k < |pairs| => Range(pairs[k].0, pairs[k].0 + pairs[k].1))
  }

  /** The pieces one conversion pushes for one range, following the four
      cases on whether each end lies in [src, src + offset]. */
  function Pieces(r: Range, c: Conversion): seq<Range>
  {
    var diff := c.dest - c.src;
    var top := c.src + c.offset;
    if r.start >= c.src && r.start <= top then
      if r.end >= c.src && r.end <= top then [Range(r.start + diff, r.end + diff)]
      else [Range(r.start + diff, c.dest + c.offset), Range(top, r.end)]
    else if r.end >= c.src && r.end <= top then [Range(r.start, c.src), Range(c.dest, r.end + diff)]
    else if r.start < c.src && r.end > top then [Range(r.start, c.src), Range(c.dest, c.dest + c.offset), Range(top, r.end)]
    else []
  }

  /** The pieces of the conversions from index i on for one range, in order. */
  function PiecesFrom(r: Range, convs: seq<Conversion>, i: nat): seq<Range>
    decreases |convs| - i
  {
    if i >= |convs| then [] else Pieces(r, convs[i]) + PiecesFrom(r, convs, i + 1)
  }

  function PiecesAll(r: Range, convs: seq<Conversion>): seq<Range>
  {
    PiecesFrom(r, convs, 0)
  }

  /** The pieces collected from the ranges of `from` at index k on. */
  function CollectedFrom(from: seq<Range>, convs: seq<Conversion>, k: nat): seq<Range>
    decreases |from| - k
  {
    if k >= |from| then [] else PiecesAll(from[k], convs) + CollectedFrom(from, convs, k + 1)
  }

  /** The `to` vector built from the ranges `from`. */
  function Collected(from: seq<Range>, convs: seq<Conversion>): seq<Range>
  {
    CollectedFrom(from, convs, 0)
  }

  /** One map: the collected pieces, or `from` unchanged when none were
      collected. */
  function StepMap(from: seq<Range>, convs: seq<Conversion>): (to: seq<Range>)
    ensures |from| > 0 ==> |to| > 0
  {
    var to := Collected(from, convs);
    if |to| == 0 then from else to
  }

  /** The ranges after the maps from index m on; never empty when `from`
      is not, so the minimum below always exists. */
  function ThroughRanges(maps: seq<seq<Conversion>>, from: seq<Range>, m: nat): (to: seq<Range>)
    ensures |from| > 0 ==> |to| > 0
    decreases |maps| - m
  {
    if m >= |maps| then from else ThroughRanges(maps, StepMap(from, maps[m]), m + 1)
  }

  function Starts(rs: seq<Range>): (xs: seq<int>)
    ensures |xs| == |rs|
  {
    seq(|rs|, k requires 0 <= k < |rs| => rs[k].start)
  }

  /** The lowest start reached from one seed range. */
  function LowestFrom(maps: seq<seq<Conversion>>, r: Range): int
  {
    MinOf(Starts(ThroughRanges(maps, [r], 0)))
  }

  function LowestFroms(maps: seq<seq<Conversion>>, seedRanges: seq<Range>): (xs: seq<int>)
    ensures |xs| == |seedRanges|
  {
    seq(|seedRanges|, k requires 0 <= k < |seedRanges| => LowestFrom(maps, seedRanges[k]))
  }

  /** Part 2's answer: the lowest start over all seed ranges, or None
      without seed ranges. */
  function LowestRanges(maps: seq<seq<Conversion>>, seedRanges: seq<Range>): Option<int>
  {
    if seedRanges == [] then None else Some(MinOf(LowestFroms(maps, seedRanges)))
  }

  /** A range with both ends in the conversion is shifted by dest - src. */
  lemma {:induction false} InsideShifted(r: Range, c: Conversion)
    requires c.src <= r.start && r.end <= c.src + c.offset && Valid(r)
    ensures Pieces(r, c) == [Range(r.start + c.dest - c.src, r.end + c.dest - c.src)]
  {
  }

  function SumWidths(rs: seq<Range>): int
  {
    if rs == [] then 0 else SumWidths(rs[..|rs| - 1]) + Width(rs[|rs| - 1])
  }

  lemma {:induction false} SumWidthsTwo(a: Range, b: Range)
    ensures SumWidths([a, b]) == Width(a) + Width(b)
  {
    var ab := [a, b];
    assert ab[..1] == [a];
    var one := [a];
    assert one[..0] == [];
    assert SumWidths(one) == Width(a);
  }

  lemma {:induction false} SumWidthsThree(a: Range, b: Range, c: Range)
    ensures SumWidths([a, b, c]) == Width(a) + Width(b) + Width(c)
  {
    assert [a, b, c][..2] == [a, b];
    SumWidthsTwo(a, b);
  }

  /** For a valid range and a conversion with a non-negative offset, nothing
      is pushed exactly when the range misses [src, src + offset]; otherwise
      every piece is valid and the pieces' widths add up to the range's. */
  lemma {:induction false} PiecesCover(r: Range, c: Conversion)
    requires Valid(r) && c.offset >= 0
    ensures Pieces(r, c) == [] <==> r.end < c.src || r.start > c.src + c.offset
    ensures forall k | 0 <= k < |Pieces(r, c)| :: Valid(Pieces(r, c)[k])
    ensures Pieces(r, c) != [] ==> SumWidths(Pieces(r, c)) == Width(r)
  {
    var ps := Pieces(r, c);
    if |ps| == 1 {
      assert ps[..0] == [];
    } else if |ps| == 2 {
      SumWidthsTwo(ps[0], ps[1]);
      assert ps == [ps[0], ps[1]];
    } else if |ps| == 3 {
      SumWidthsThree(ps[0], ps[1], ps[2]);
      assert ps == [ps[0], ps[1], ps[2]];
    }
  }

  lemma {:induction false} CollectedEmpty(from: seq<Range>, convs: seq<Conversion>, k: nat)
    requires forall i | 0 <= i < |from| :: PiecesAll(from[i], convs) == []
    ensures CollectedFrom(from, convs, k) == []
    decreases |from| - k
  {
    if k < |from| {
      CollectedEmpty(from, convs, k + 1);
    }
  }

  /** When no range meets any conversion, the map passes `from` through. */
  lemma {:induction false} UnmatchedPassThrough(from: seq<Range>, convs: seq<Conversion>)
    requires forall k | 0 <= k < |from| :: PiecesAll(from[k], convs) == []
    ensures StepMap(from, convs) == from
  {
    CollectedEmpty(from, convs, 0);
  }

  lemma {:induction false} CollectedShift(a: seq<Range>, b: seq<Range>, convs: seq<Conversion>, j: nat)
    ensures CollectedFrom(a + b, convs, |a| + j) == CollectedFrom(b, convs, j)
    decreases |b| - j
  {
    if j < |b| {
      assert (a + b)[|a| + j] == b[j];
      CollectedShift(a, b, convs, j + 1);
    }
  }

  lemma {:induction false} CollectedAppend(a: seq<Range>, b: seq<Range>, convs: seq<Conversion>, k: nat)
    requires k <= |a|
    ensures CollectedFrom(a + b, convs, k) == CollectedFrom(a, convs, k) + CollectedFrom(b, convs, 0)
    decreases |a| - k
  {
    if k == |a| {
      CollectedShift(a, b, convs, 0);
    } else {
      assert (a + b)[k] == a[k];
      CollectedAppend(a, b, convs, k + 1);
    }
  }

  /** Once some range yields pieces, a range that meets no conversion is
      dropped: the result is the same as without it. */
  lemma {:induction false} UnmatchedDropped(from: seq<Range>, convs: seq<Conversion>, i: nat)
    requires i < |from| && PiecesAll(from[i], convs) == []
    requires Collected(from, convs) != []
    ensures StepMap(from, convs) == StepMap(from[..i] + from[i + 1..], convs)
  {
    var pre, x, post := from[..i], from[i], from[i + 1..];
    assert from == pre + ([x] + post);
    CollectedAppend(pre, [x] + post, convs, 0);
    CollectedShift([x], post, convs, 0);
    CollectedAppend(pre, post, convs, 0);
    assert CollectedFrom([x] + post, convs, 0) == CollectedFrom(post, convs, 0);
  }

  /** The body of the innermost loop: what one conversion pushes for one
      range. */
  method PushConversion(to0: seq<Range>, r: Range, conv: Conversion) returns (to: seq<Range>)
    ensures to == to0 + Pieces(r, conv)
  {
    to := to0;
    var diff := conv.dest - conv.src;
    if r.start >= conv.src && r.start <= conv.src + conv.offset {
      var sConv := r.start + diff;
      if r.end >= conv.src && r.end <= conv.src + conv.offset {
        var eConv := r.end + diff;
        to := to + [Range(sConv, eConv)];
      } else {
        var eConv := conv.dest + conv.offset;
        to := to + [Range(sConv, eConv)];
        to := to + [Range(conv.src + conv.offset, r.end)];
      }
    } else {
      var sConv := conv.dest;
      if r.end >= conv.src && r.end <= conv.src + conv.offset {
        var eConv := r.end + diff;
        to := to + [Range(r.start, conv.src)];
        to := to + [Range(sConv, eConv)];
      } else if r.start < conv.src && r.end > conv.src + conv.offset {
        to := to + [Range(r.start, conv.src)];
        to := to + [Range(conv.dest, conv.dest + conv.offset)];
        to := to + [Range(conv.src + conv.offset, r.end)];
      }
    }
  }

  /** The loop over the conversions of one map for one range of `from`. */
  method PushPieces(to0: seq<Range>, r: Range, convs: seq<Conversion>) returns (to: seq<Range>)
    ensures to == to0 + PiecesAll(r, convs)
  {
    to := to0;
    for i := 0 to |convs|
      invariant to + PiecesFrom(r, convs, i) == to0 + PiecesAll(r, convs)
    {
      to := PushConversion(to, r, convs[i]);
    }
  }

  /** The loop over the ranges of `from`, pushing every piece into `to`. */
  method CollectPieces(from: seq<Range>, convs: seq<Conversion>) returns (to: seq<Range>)
    ensures to == Collected(from, convs)
  {
    to := [];
    for k := 0 to |from|
      invariant to + CollectedFrom(from, convs, k) == Collected(from, convs)
    {
      ghost var before := to;
      to := PushPieces(to, from[k], convs);
      PushedStep(before, from, convs, k);
    }
  }

  lemma {:induction false} PushedStep(before: seq<Range>, from: seq<Range>, convs: seq<Conversion>, k: nat)
    requires k < |from|
    ensures (before + PiecesAll(from[k], convs)) + CollectedFrom(from, convs, k + 1) == before + CollectedFrom(from, convs, k)
  {
  }

  /** One map applied to the ranges `from`, as the source rebuilds `to`. */
  method ApplyMap(from: seq<Range>, convs: seq<Conversion>) returns (to: seq<Range>)
    ensures to == StepMap(from, convs)
  {
    to := CollectPieces(from, convs);
    if |to| == 0 {
      to := from;
    }
  }

  /** The loop over the maps for one seed range. */
  method ApplyMaps(from0: seq<Range>, maps: seq<seq<Conversion>>) returns (from: seq<Range>)
    ensures from == ThroughRanges(maps, from0, 0)
  {
    from := from0;
    for m := 0 to |maps|
      invariant ThroughRanges(maps, from, m) == ThroughRanges(maps, from0, 0)
    {
      from := ApplyMap(from, maps[m]);
    }
  }

  lemma {:induction false} LowestFromsSnoc(maps: seq<seq<Conversion>>, seedRanges: seq<Range>, k: nat)
    requires k < |seedRanges|
    ensures LowestFroms(maps, seedRanges[..k + 1]) == LowestFroms(maps, seedRanges[..k]) + [LowestFrom(maps, seedRanges[k])]
  {
    var a := LowestFroms(maps, seedRanges[..k + 1]);
    var b := LowestFroms(maps, seedRanges[..k]) + [LowestFrom(maps, seedRanges[k])];
    assert |a| == |b|;
    forall i | 0 <= i < |a|
      ensures a[i] == b[i]
    {
      if i < k {
        assert seedRanges[..k + 1][i] == seedRanges[..k][i];
      }
    }
  }

  /** `task_2` on parsed seed ranges and maps. */
  method Task2(seedRanges: seq<Range>, maps: seq<seq<Conversion>>) returns (r: Option<int>)
    ensures r == LowestRanges(maps, seedRanges)
  {
    var lows: seq<int> := [];
    for k := 0 to |seedRanges|
      invariant lows == LowestFroms(maps, seedRanges[..k])
    {
      var from := ApplyMaps([seedRanges[k]], maps);
      LowestFromsSnoc(maps, seedRanges, k);
      lows := lows + [MinOf(Starts(from))];
    }
    assert seedRanges[..|seedRanges|] == seedRanges;
    if |lows| == 0 {
      return None;
    }
    r := Some(MinOf(lows));
  }

  // ------------------------------------------------------- worked example

  function ExampleMaps(): seq<seq<Conversion>>
  {
    [[Conversion(98, 50, 2), Conversion(50, 52, 48)],
     [Conversion(15, 0, 37), Conversion(52, 37, 2), Conversion(0, 39, 15)],
     [Conversion(53, 49, 8), Conversion(11, 0, 42), Conversion(0, 42, 7), Conversion(7, 57, 4)],
     [Conversion(18, 88, 7), Conversion(25, 18, 70)],
     [Conversion(77, 45, 23), Conversion(45, 81, 19), Conversion(64, 68, 13)],
     [Conversion(69, 0, 1), Conversion(0, 1, 69)],
     [Conversion(56, 60, 37), Conversion(93, 56, 4)]]
  }

  /** The seeds 79, 14, 55, 13 land at 82, 43, 86, 35; the lowest is 35. */
  lemma {:induction false} ExampleSeeds(maps: seq<seq<Conversion>>)
    requires maps == ExampleMaps()
    ensures Lowest(maps, [79, 14, 55, 13]) == Some(35)
  {
    var seeds := [79, 14, 55, 13];
    ThroughIsLocate(maps, seeds, 0);
    ExampleLocations();
    var xs := Through(maps, seeds, 0);
    assert xs == [82, 43, 86, 35];
    assert MinOf([82, 43, 86, 35]) == 35;
  }

  /** Where each example seed lands. */
  lemma {:induction false} ExampleLocations()
    ensures Locate(ExampleMaps(), 79, 0) == 82 && Locate(ExampleMaps(), 14, 0) == 43
    ensures Locate(ExampleMaps(), 55, 0) == 86 && Locate(ExampleMaps(), 13, 0) == 35
  {
    ExampleLocation79();
    ExampleLocation14();
    ExampleLocation55();
    ExampleLocation13();
  }

  lemma {:induction false} ExampleLocation79() ensures Locate(ExampleMaps(), 79, 0) == 82 { }
  lemma {:induction false} ExampleLocation14() ensures Locate(ExampleMaps(), 14, 0) == 43 { }
  lemma {:induction false} ExampleLocation55() ensures Locate(ExampleMaps(), 55, 0) == 86 { }
  lemma {:induction false} ExampleLocation13() ensures Locate(ExampleMaps(), 13, 0) == 35 { }

  /** Seven maps applied one at a time: each stage's ranges are the
      previous stage's after one map. */
  lemma {:induction false} SevenStages(maps: seq<seq<Conversion>>, stages: seq<seq<Range>>)
    requires |maps| == 7 && |stages| == 8
    requires forall m | 0 <= m < 7 :: StepMap(stages[m], maps[m]) == stages[m + 1]
    ensures ThroughRanges(maps, stages[0], 0) == stages[7]
  {
    StagesFrom(maps, stages, 0);
  }

  lemma {:induction false} StagesFrom(maps: seq<seq<Conversion>>, stages: seq<seq<Range>>, m: nat)
    requires |stages| == |maps| + 1 && m <= |maps|
    requires forall i | 0 <= i < |maps| :: StepMap(stages[i], maps[i]) == stages[i + 1]
    ensures ThroughRanges(maps, stages[m], m) == stages[|maps|]
    decreases |maps| - m
  {
    if m < |maps| {
      StagesFrom(maps, stages, m + 1);
    }
  }

  lemma {:induction false} FirstStage0()
    ensures StepMap([Range(79, 93)], ExampleMaps()[0]) == [Range(81, 95)]
  {
  }

  lemma {:induction false} FirstStage1()
    ensures StepMap([Range(81, 95)], ExampleMaps()[1]) == [Range(81, 95)]
  {
  }

  lemma {:induction false} FirstStage2()
    ensures StepMap([Range(81, 95)], ExampleMaps()[2]) == [Range(81, 95)]
  {
  }

  lemma {:induction false} FirstStage3()
    ensures StepMap([Range(81, 95)], ExampleMaps()[3]) == [Range(74, 88)]
  {
  }

  lemma {:induction false} FirstStage4()
    ensures StepMap([Range(74, 88)], ExampleMaps()[4]) == [Range(74, 77), Range(45, 56), Range(78, 81), Range(77, 88)]
  {
  }

  lemma {:induction false} FirstStage5()
    ensures StepMap([Range(74, 77), Range(45, 56), Range(78, 81), Range(77, 88)], ExampleMaps()[5]) == [Range(46, 57)]
  {
  }

  lemma {:induction false} FirstStage6()
    ensures StepMap([Range(46, 57)], ExampleMaps()[6]) == [Range(46, 56), Range(60, 61)]
  {
  }

  /** The range 79..93 map by map. */
  lemma {:induction false} FirstStages() returns (stages: seq<seq<Range>>)
    ensures |stages| == 8 && stages[0] == [Range(79, 93)] && stages[7] == [Range(46, 56), Range(60, 61)]
    ensures forall m | 0 <= m < 7 :: StepMap(stages[m], ExampleMaps()[m]) == stages[m + 1]
  {
    FirstStage0();
    FirstStage1();
    FirstStage2();
    FirstStage3();
    FirstStage4();
    FirstStage5();
    FirstStage6();
    stages := [[Range(79, 93)],
      [Range(81, 95)],
      [Range(81, 95)],
      [Range(81, 95)],
      [Range(74, 88)],
      [Range(74, 77), Range(45, 56), Range(78, 81), Range(77, 88)],
      [Range(46, 57)],
      [Range(46, 56), Range(60, 61)]];
  }

  lemma {:induction false} SecondStage0()
    ensures StepMap([Range(55, 68)], ExampleMaps()[0]) == [Range(57, 70)]
  {
  }

  lemma {:induction false} SecondStage1()
    ensures StepMap([Range(57, 70)], ExampleMaps()[1]) == [Range(57, 70)]
  {
  }

  lemma {:induction false} SecondStage2()
    ensures StepMap([Range(57, 70)], ExampleMaps()[2]) == [Range(53, 57), Range(61, 70)]
  {
  }

  lemma {:induction false} SecondStage3()
    ensures StepMap([Range(53, 57), Range(61, 70)], ExampleMaps()[3]) == [Range(46, 50), Range(54, 63)]
  {
  }

  lemma {:induction false} SecondStage4()
    ensures StepMap([Range(46, 50), Range(54, 63)], ExampleMaps()[4]) == [Range(82, 86), Range(90, 99)]
  {
  }

  lemma {:induction false} SecondStage5()
    ensures StepMap([Range(82, 86), Range(90, 99)], ExampleMaps()[5]) == [Range(82, 86), Range(90, 99)]
  {
  }

  lemma {:induction false} SecondStage6()
    ensures StepMap([Range(82, 86), Range(90, 99)], ExampleMaps()[6]) == [Range(86, 90), Range(94, 97), Range(93, 99), Range(90, 93), Range(56, 60), Range(97, 99)]
  {
  }

  /** The range 55..68 map by map. */
  lemma {:induction false} SecondStages() returns (stages: seq<seq<Range>>)
    ensures |stages| == 8 && stages[0] == [Range(55, 68)] && stages[7] == [Range(86, 90), Range(94, 97), Range(93, 99), Range(90, 93), Range(56, 60), Range(97, 99)]
    ensures forall m | 0 <= m < 7 :: StepMap(stages[m], ExampleMaps()[m]) == stages[m + 1]
  {
    SecondStage0();
    SecondStage1();
    SecondStage2();
    SecondStage3();
    SecondStage4();
    SecondStage5();
    SecondStage6();
    stages := [[Range(55, 68)],
      [Range(57, 70)],
      [Range(57, 70)],
      [Range(53, 57), Range(61, 70)],
      [Range(46, 50), Range(54, 63)],
      [Range(82, 86), Range(90, 99)],
      [Range(82, 86), Range(90, 99)],
      [Range(86, 90), Range(94, 97), Range(93, 99), Range(90, 93), Range(56, 60), Range(97, 99)]];
  }

  /** The range 79..93 ends as 46..56 and 60..61. */
  lemma {:induction false} ExampleFirstRange(maps: seq<seq<Conversion>>)
    requires maps == ExampleMaps()
    ensures LowestFrom(maps, Range(79, 93)) == 46
  {
    var stages := FirstStages();
    SevenStages(maps, stages);
    assert Starts([Range(46, 56), Range(60, 61)]) == [46, 60];
  }

  /** The range 55..68 ends as six ranges. */
  lemma {:induction false} ExampleSecondRangeEnds(maps: seq<seq<Conversion>>)
    requires maps == ExampleMaps()
    ensures ThroughRanges(maps, [Range(55, 68)], 0) ==
      [Range(86, 90), Range(94, 97), Range(93, 99), Range(90, 93), Range(56, 60), Range(97, 99)]
  {
    var stages := SecondStages();
    SevenStages(maps, stages);
  }

  /** Of those six, the lowest starts at 56. */
  lemma {:induction false} ExampleSecondRange(maps: seq<seq<Conversion>>)
    requires maps == ExampleMaps()
    ensures LowestFrom(maps, Range(55, 68)) == 56
  {
    ExampleSecondRangeEnds(maps);
    var rs := [Range(86, 90), Range(94, 97), Range(93, 99), Range(90, 93), Range(56, 60), Range(97, 99)];
    assert Starts(rs) == [86, 94, 93, 90, 56, 97];
    SecondRangeLowest();
  }

  lemma {:induction false} SecondRangeLowest()
    ensures MinOf([86, 94, 93, 90, 56, 97]) == 56
  {
  }

  /** The seed ranges 79..93 and 55..68 reach a lowest location of 46. */
  lemma {:induction false} ExampleRanges(maps: seq<seq<Conversion>>)
    requires maps == ExampleMaps()
    ensures LowestRanges(maps, SeedRanges([(79, 14), (55, 13)])) == Some(46)
  {
    var rs := SeedRanges([(79, 14), (55, 13)]);
    assert rs == [Range(79, 93), Range(55, 68)];
    LowestRangesTwo(maps, Range(79, 93), Range(55, 68));
    ExampleFirstRange(maps);
    ExampleSecondRange(maps);
  }

  /** Two seed ranges: the lower of their two lowest starts. */
  lemma {:induction false} LowestRangesTwo(maps: seq<seq<Conversion>>, a: Range, b: Range)
    ensures LowestRanges(maps, [a, b]) == Some(Min(LowestFrom(maps, a), LowestFrom(maps, b)))
  {
    var xs := LowestFroms(maps, [a, b]);
    assert xs == [LowestFrom(maps, a), LowestFrom(maps, b)];
    assert xs[..1] == [xs[0]];
  }

  /** With two maps, the unmatched pieces 0..10 and 15..20 left by the first
      are dropped by the second because 100..105 matched there. */
  lemma {:induction false} DroppedRangeExample()
    ensures ThroughRanges([[Conversion(10, 100, 5)], [Conversion(100, 200, 5)]], [Range(0, 20)], 0) == [Range(200, 205)]
  {
  }
}
