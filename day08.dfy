/**
 * Haunted Wasteland (day-08/src/main.rs): a network of named nodes, each
 * with a left and a right successor, is walked following a cyclic list of
 * L/R instructions until a goal node is reached. Part 1 walks from "AAA"
 * to "ZZZ"; part 2 walks from every node whose name ends in 'A' to a node
 * whose name ends in 'Z' and combines the step counts by a least common
 * multiple built from prime factorisations, keeping the largest exponent
 * of every prime.
 */
module HauntedWasteland {
  import opened Common

  datatype Direction = L | R

  datatype Node = Node(value: string, l: string, r: string)

  /** `parse_direction`: only 'R' and 'L' are instructions. */
  function ParseDirection(c: char): (d: Option<Direction>)
    ensures d.Some? <==> c == 'R' || c == 'L'
    ensures d == Some(R) <==> c == 'R'
  {
    match c
      case 'R' => Some(R)
      case 'L' => Some(L)
      case _ => None
  }

  // ---------------------------------------------------------- lookups

  /** `tree.iter().find(|n| n.value == name)` from position i on. */
  function FindFrom(tree: seq<Node>, name: string, i: nat): Option<Node>
    decreases |tree| - i
  {
    if i >= |tree| then None
    else if tree[i].value == name then Some(tree[i])
    else FindFrom(tree, name, i + 1)
  }

  function Find(tree: seq<Node>, name: string): Option<Node>
  {
    FindFrom(tree, name, 0)
  }

  lemma {:induction false} FindFromIsFirst(tree: seq<Node>, name: string, i: nat)
    ensures FindFrom(tree, name, i).None? <==> forall k | i <= k < |tree| :: tree[k].value != name
    ensures FindFrom(tree, name, i).Some? ==> exists k | i <= k < |tree| ::
      tree[k] == FindFrom(tree, name, i).value && tree[k].value == name &&
      forall j | i <= j < k :: tree[j].value != name
    decreases |tree| - i
  {
    if i < |tree| && tree[i].value != name {
      FindFromIsFirst(tree, name, i + 1);
      if FindFrom(tree, name, i).Some? {
        var k :| i + 1 <= k < |tree| && tree[k] == FindFrom(tree, name, i).value && tree[k].value == name &&
          forall j | i + 1 <= j < k :: tree[j].value != name;
        assert forall j | i <= j < k :: tree[j].value != name;
      }
    }
  }

  /** The node found is the first node of the network with that name, and
      nothing is found exactly when no node has it. */
  lemma {:induction false} FindIsFirst(tree: seq<Node>, name: string)
    ensures Find(tree, name).None? <==> forall k | 0 <= k < |tree| :: tree[k].value != name
    ensures Find(tree, name).Some? ==> exists k | 0 <= k < |tree| ::
      tree[k] == Find(tree, name).value && tree[k].value == name &&
      forall j | 0 <= j < k :: tree[j].value != name
  {
    FindFromIsFirst(tree, name, 0);
  }

  /** One step: the instruction at i modulo the number of instructions
      picks the right or the left name, which is then looked up; a name
      that is not in the network makes the `unwrap` fail (None). */
  function Step(tree: seq<Node>, dirs: seq<Direction>, node: Node, i: nat): Option<Node>
    requires |dirs| > 0
  {
    match dirs[i % |dirs|]
      case R => Find(tree, node.r)
      case L => Find(tree, node.l)
  }

  /** The instructions repeat: step i and step i + |dirs| go the same way. */
  lemma {:induction false} StepPeriodic(tree: seq<Node>, dirs: seq<Direction>, node: Node, i: nat)
    requires |dirs| > 0
    ensures Step(tree, dirs, node, i + |dirs|) == Step(tree, dirs, node, i)
  {
    ShiftMod(i, |dirs|);
  }

  lemma {:induction false} ShiftMod(i: nat, d: nat)
    requires d > 0
    ensures (i + d) % d == i % d
  {
    var q, r := i / d, i % d;
    var q2, r2 := (i + d) / d, (i + d) % d;
    var k := q2 - q - 1;
    assert k * d == r - r2;
    if k >= 1 {
      MulAtLeast(k, d);
    } else if k <= -1 {
      MulAtLeast(-k, d);
    }
  }

  lemma {:induction false} MulAtLeast(k: int, d: nat)
    requires k >= 1
    ensures k * d >= d
  {
    var m := k - 1;
    assert k * d == m * d + d;
    assert m * d >= 0;
  }

  // ------------------------------------------------------------ walking

  /** What the walk stops at: part 1 at the name "ZZZ", part 2 at any name
      ending in 'Z'. */
  datatype Goal = Exactly(name: string) | EndsWith(last: char)

  predicate AtGoal(goal: Goal, node: Node)
  {
    match goal
      case Exactly(name) => node.value == name
      case EndsWith(c) => |node.value| > 0 && node.value[|node.value| - 1] == c
  }

  /** How a walk ends: at the goal after some steps, at a name missing from
      the network, or with its step budget spent. */
  datatype Outcome = Arrived(steps: nat) | Lost | Exhausted

  /** The node after k steps from start, None once a name is missing. */
  function Position(tree: seq<Node>, dirs: seq<Direction>, start: Node, k: nat): Option<Node>
    requires |dirs| > 0
  {
    if k == 0 then Some(start)
    else
      match Position(tree, dirs, start, k - 1)
        case None => None
        case Some(p) => Step(tree, dirs, p, k - 1)
  }

  /** The first k positions exist and none of them is the goal. */
  predicate NotYet(tree: seq<Node>, dirs: seq<Direction>, start: Node, goal: Goal, k: nat)
    requires |dirs| > 0
  {
    forall j | 0 <= j < k :: Position(tree, dirs, start, j).Some? && !AtGoal(goal, Position(tree, dirs, start, j).value)
  }

  /** The `while` loop from `node`, which is reached after i steps, with at
      most `fuel` more steps. */
  function Walk(tree: seq<Node>, dirs: seq<Direction>, node: Node, goal: Goal, i: nat, fuel: nat): Outcome
    requires |dirs| > 0
    decreases fuel
  {
    if AtGoal(goal, node) then Arrived(i)
    else if fuel == 0 then Exhausted
    else
      match Step(tree, dirs, node, i)
        case None => Lost
        case Some(next) => Walk(tree, dirs, next, goal, i + 1, fuel - 1)
  }

  lemma {:induction false} WalkSound(tree: seq<Node>, dirs: seq<Direction>, start: Node, goal: Goal,
                                     node: Node, i: nat, fuel: nat)
    requires |dirs| > 0
    requires Position(tree, dirs, start, i) == Some(node) && NotYet(tree, dirs, start, goal, i)
    ensures Walk(tree, dirs, node, goal, i, fuel).Arrived? ==>
      var n := Walk(tree, dirs, node, goal, i, fuel).steps;
      i <= n <= i + fuel && NotYet(tree, dirs, start, goal, n) &&
      Position(tree, dirs, start, n).Some? && AtGoal(goal, Position(tree, dirs, start, n).value)
    decreases fuel
  {
    if !AtGoal(goal, node) && fuel > 0 {
      var next := Step(tree, dirs, node, i);
      if next.Some? {
        assert Position(tree, dirs, start, i + 1) == next;
        WalkSound(tree, dirs, start, goal, next.value, i + 1, fuel - 1);
      }
    }
  }

  lemma {:induction false} WalkComplete(tree: seq<Node>, dirs: seq<Direction>, start: Node, goal: Goal,
                                        node: Node, i: nat, fuel: nat, n: nat)
    requires |dirs| > 0
    requires Position(tree, dirs, start, i) == Some(node) && i <= n <= i + fuel
    requires NotYet(tree, dirs, start, goal, n)
    requires Position(tree, dirs, start, n).Some? && AtGoal(goal, Position(tree, dirs, start, n).value)
    ensures Walk(tree, dirs, node, goal, i, fuel) == Arrived(n)
    decreases fuel
  {
    if i < n {
      assert Position(tree, dirs, start, i + 1) == Step(tree, dirs, node, i);
      WalkComplete(tree, dirs, start, goal, Step(tree, dirs, node, i).value, i + 1, fuel - 1, n);
    }
  }

  /** A walk from start arrives after n steps exactly when the n-th
      position is the first at the goal and the budget allows n steps. */
  lemma {:induction false} WalkArrivesAtFirstGoal(tree: seq<Node>, dirs: seq<Direction>, start: Node,
                                                  goal: Goal, fuel: nat, n: nat)
    requires |dirs| > 0
    ensures Walk(tree, dirs, start, goal, 0, fuel) == Arrived(n) <==>
      (n <= fuel && NotYet(tree, dirs, start, goal, n) &&
       Position(tree, dirs, start, n).Some? && AtGoal(goal, Position(tree, dirs, start, n).value))
  {
    WalkSound(tree, dirs, start, goal, start, 0, fuel);
    if n <= fuel && NotYet(tree, dirs, start, goal, n) &&
       Position(tree, dirs, start, n).Some? && AtGoal(goal, Position(tree, dirs, start, n).value) {
      WalkComplete(tree, dirs, start, goal, start, 0, fuel, n);
    }
  }

  /** A larger budget does not change where a walk arrives. */
  lemma {:induction false} WalkMoreFuel(tree: seq<Node>, dirs: seq<Direction>, node: Node, goal: Goal,
                                        i: nat, fuel: nat, more: nat)
    requires |dirs| > 0 && fuel <= more
    ensures Walk(tree, dirs, node, goal, i, fuel).Arrived? ==>
      Walk(tree, dirs, node, goal, i, more) == Walk(tree, dirs, node, goal, i, fuel)
    ensures Walk(tree, dirs, node, goal, i, fuel) == Lost ==> Walk(tree, dirs, node, goal, i, more) == Lost
    decreases fuel
  {
    if !AtGoal(goal, node) && fuel > 0 {
      var next := Step(tree, dirs, node, i);
      if next.Some? {
        WalkMoreFuel(tree, dirs, next.value, goal, i + 1, fuel - 1, more - 1);
      }
    }
  }

  /** The `while` loop of `task_1` and of the closure in `task_2`: `i`
      counts the steps and `node` is the current node. */
  method WalkLoop(tree: seq<Node>, dirs: seq<Direction>, start: Node, goal: Goal, fuel: nat) returns (o: Outcome)
    requires |dirs| > 0
    ensures o == Walk(tree, dirs, start, goal, 0, fuel)
  {
    var node := start;
    var i := 0;
    while !AtGoal(goal, node)
      invariant i <= fuel
      invariant Walk(tree, dirs, node, goal, i, fuel - i) == Walk(tree, dirs, start, goal, 0, fuel)
      decreases fuel - i
    {
      if i == fuel {
        return Exhausted;
      }
      var next := Step(tree, dirs, node, i);
      if next.None? {
        return Lost;
      }
      node := next.value;
      i := i + 1;
    }
    return Arrived(i);
  }

  /** Part 1 as a specification: start at "AAA" (missing: Lost). */
  function Steps1(tree: seq<Node>, dirs: seq<Direction>, fuel: nat): Outcome
    requires |dirs| > 0
  {
    match Find(tree, "AAA")
      case None => Lost
      case Some(start) => Walk(tree, dirs, start, Exactly("ZZZ"), 0, fuel)
  }

  method Task1(tree: seq<Node>, dirs: seq<Direction>, fuel: nat) returns (o: Outcome)
    requires |dirs| > 0
    ensures o == Steps1(tree, dirs, fuel)
  {
    var start := Find(tree, "AAA");
    if start.None? {
      return Lost;
    }
    o := WalkLoop(tree, dirs, start.value, Exactly("ZZZ"), fuel);
  }

  /** The nodes whose name ends in 'A', in network order. */
  function StartsFrom(tree: seq<Node>, i: nat): seq<Node>
    decreases |tree| - i
  {
    if i >= |tree| then []
    else (if AtGoal(EndsWith('A'), tree[i]) then [tree[i]] else []) + StartsFrom(tree, i + 1)
  }

  function Starts(tree: seq<Node>): seq<Node>
  {
    StartsFrom(tree, 0)
  }

  lemma {:induction false} StartsFromMembers(tree: seq<Node>, i: nat)
    ensures forall n :: n in StartsFrom(tree, i) <==> exists k | i <= k < |tree| :: tree[k] == n && AtGoal(EndsWith('A'), n)
    decreases |tree| - i
  {
    if i < |tree| {
      StartsFromMembers(tree, i + 1);
      var head := if AtGoal(EndsWith('A'), tree[i]) then [tree[i]] else [];
      assert StartsFrom(tree, i) == head + StartsFrom(tree, i + 1);
      forall n
        ensures n in StartsFrom(tree, i) <==> exists k | i <= k < |tree| :: tree[k] == n && AtGoal(EndsWith('A'), n)
      {
        if exists k | i <= k < |tree| :: tree[k] == n && AtGoal(EndsWith('A'), n) {
          var k :| i <= k < |tree| && tree[k] == n && AtGoal(EndsWith('A'), n);
          if k > i {
            assert n in StartsFrom(tree, i + 1);
          }
        }
      }
    }
  }

  /** The starting nodes of part 2 are exactly the nodes ending in 'A'. */
  lemma {:induction false} StartsMembers(tree: seq<Node>)
    ensures forall n :: n in Starts(tree) <==> n in tree && AtGoal(EndsWith('A'), n)
  {
    StartsFromMembers(tree, 0);
  }

  /** Part 2 as a specification: one walk per start, in order. */
  function WalksFrom(tree: seq<Node>, dirs: seq<Direction>, starts: seq<Node>, fuel: nat, k: nat): seq<Outcome>
    requires |dirs| > 0
    decreases |starts| - k
  {
    if k >= |starts| then []
    else [Walk(tree, dirs, starts[k], EndsWith('Z'), 0, fuel)] + WalksFrom(tree, dirs, starts, fuel, k + 1)
  }

  function Steps2(tree: seq<Node>, dirs: seq<Direction>, fuel: nat): seq<Outcome>
    requires |dirs| > 0
  {
    WalksFrom(tree, dirs, Starts(tree), fuel, 0)
  }

  /** The `zs` of `task_2`: the outcome of the walk from every start. */
  method Task2Walks(tree: seq<Node>, dirs: seq<Direction>, fuel: nat) returns (zs: seq<Outcome>)
    requires |dirs| > 0
    ensures zs == Steps2(tree, dirs, fuel)
  {
    var starts := Starts(tree);
    zs := [];
    var k := 0;
    while k < |starts|
      invariant k <= |starts|
      invariant zs + WalksFrom(tree, dirs, starts, fuel, k) == Steps2(tree, dirs, fuel)
    {
      var o := WalkLoop(tree, dirs, starts[k], EndsWith('Z'), fuel);
      zs := zs + [o];
      k := k + 1;
    }
  }

  // ------------------------------------------------------------------ lcm

  /** A factorisation: (prime, exponent) pairs. */
  type Factors = seq<(nat, nat)>

  /** `iter_mut().find(|f| f.0 == p)`: the first entry for p from i on. */
  function IndexOf(b: Factors, p: nat, i: nat): (r: Option<nat>)
    ensures r.Some? ==> i <= r.value < |b| && b[r.value].0 == p
    decreases |b| - i
  {
    if i >= |b| then None
    else if b[i].0 == p then Some(i)
    else IndexOf(b, p, i + 1)
  }

  lemma {:induction false} IndexOfNone(b: Factors, p: nat, i: nat)
    ensures IndexOf(b, p, i).None? <==> forall k | i <= k < |b| :: b[k].0 != p
    decreases |b| - i
  {
    if i < |b| {
      IndexOfNone(b, p, i + 1);
    }
  }

  /** The exponent recorded for p (its first entry), 0 when absent. */
  function ExpOf(b: Factors, p: nat): nat
  {
    match IndexOf(b, p, 0)
      case None => 0
      case Some(k) => b[k].1
  }

  /** Every prime has at most one entry. */
  predicate DistinctPrimes(b: Factors)
  {
    forall j, k | 0 <= j < k < |b| :: b[j].0 != b[k].0
  }

  /** One factor merged into the biggest factors so far: a larger exponent
      replaces the recorded one, a new prime is pushed. */
  function MergeOne(b: Factors, f: (nat, nat)): Factors
  {
    match IndexOf(b, f.0, 0)
      case None => b + [f]
      case Some(k) => if b[k].1 < f.1 then b[k := (b[k].0, f.1)] else b
  }

  lemma {:induction false} MergeOneExp(b: Factors, f: (nat, nat), p: nat)
    requires DistinctPrimes(b)
    ensures DistinctPrimes(MergeOne(b, f))
    ensures ExpOf(MergeOne(b, f), p) == if p == f.0 then Max(ExpOf(b, p), f.1) else ExpOf(b, p)
  {
    var m := MergeOne(b, f);
    IndexOfNone(b, f.0, 0);
    IndexOfNone(b, p, 0);
    IndexOfNone(m, p, 0);
    IndexOfUnique(b, p);
    IndexOfUnique(m, p);
    match IndexOf(b, f.0, 0)
    case None =>
      if p == f.0 {
        assert m[|b|] == f;
      }
    case Some(k) =>
      if b[k].1 < f.1 {
        assert m[k] == (f.0, f.1);
      }
  }

  /** With each prime once, the entry of p is wherever p appears. */
  lemma {:induction false} IndexOfUnique(b: Factors, p: nat)
    requires DistinctPrimes(b)
    ensures forall k | 0 <= k < |b| && b[k].0 == p :: IndexOf(b, p, 0) == Some(k)
  {
    IndexOfNone(b, p, 0);
  }

  /** The largest exponent of p among fs[j..] (0 when p does not occur). */
  function MaxExp(fs: Factors, p: nat, j: nat): nat
    decreases |fs| - j
  {
    if j >= |fs| then 0
    else Max(if fs[j].0 == p then fs[j].1 else 0, MaxExp(fs, p, j + 1))
  }

  /** The inner `for factor in factors` loop from the j-th factor on. */
  function MergeFrom(b: Factors, fs: Factors, j: nat): Factors
    decreases |fs| - j
  {
    if j >= |fs| then b else MergeFrom(MergeOne(b, fs[j]), fs, j + 1)
  }

  lemma {:induction false} MergeFromExp(b: Factors, fs: Factors, j: nat, p: nat)
    requires DistinctPrimes(b)
    ensures DistinctPrimes(MergeFrom(b, fs, j))
    ensures ExpOf(MergeFrom(b, fs, j), p) == Max(ExpOf(b, p), MaxExp(fs, p, j))
    decreases |fs| - j
  {
    if j < |fs| {
      MergeOneExp(b, fs[j], p);
      MergeFromExp(MergeOne(b, fs[j]), fs, j + 1, p);
    }
  }

  /** The outer `for n in inp` loop from the i-th factorisation on. */
  function MergeAll(b: Factors, ns: seq<Factors>, i: nat): Factors
    decreases |ns| - i
  {
    if i >= |ns| then b else MergeAll(MergeFrom(b, ns[i], 0), ns, i + 1)
  }

  /** The largest exponent of p over the factorisations ns[i..]. */
  function MaxExpAll(ns: seq<Factors>, p: nat, i: nat): nat
    decreases |ns| - i
  {
    if i >= |ns| then 0 else Max(MaxExp(ns[i], p, 0), MaxExpAll(ns, p, i + 1))
  }

  lemma {:induction false} MergeAllExp(b: Factors, ns: seq<Factors>, i: nat, p: nat)
    requires DistinctPrimes(b)
    ensures DistinctPrimes(MergeAll(b, ns, i))
    ensures ExpOf(MergeAll(b, ns, i), p) == Max(ExpOf(b, p), MaxExpAll(ns, p, i))
    decreases |ns| - i
  {
    if i < |ns| {
      MergeFromExp(b, ns[i], 0, p);
      MergeAllExp(MergeFrom(b, ns[i], 0), ns, i + 1, p);
    }
  }

  /** `lcm` records every prime once, with the largest exponent it has in
      any of the factorisations. */
  lemma {:induction false} LcmKeepsLargestExponent(ns: seq<Factors>, p: nat)
    ensures DistinctPrimes(MergeAll([], ns, 0))
    ensures ExpOf(MergeAll([], ns, 0), p) == MaxExpAll(ns, p, 0)
  {
    MergeAllExp([], ns, 0, p);
  }

  /** Π p^e over the entries. */
  function PowProduct(b: Factors): int
  {
    if b == [] then 1 else PowProduct(b[..|b| - 1]) * Pow(b[|b| - 1].0, b[|b| - 1].1)
  }

  /** The product over two runs of entries is the product of the two. */
  lemma {:induction false} PowProductAppend(x: Factors, y: Factors)
    ensures PowProduct(x + y) == PowProduct(x) * PowProduct(y)
  {
    if y == [] {
      assert x + y == x;
    } else {
      var front, last := y[..|y| - 1], y[|y| - 1];
      assert (x + y)[..|x + y| - 1] == x + front;
      assert (x + y)[|x + y| - 1] == last;
      PowProductAppend(x, front);
      MulRegroup(PowProduct(x), PowProduct(front), Pow(last.0, last.1));
    }
  }

  lemma {:induction false} MulRegroup(x: int, y: int, z: int)
    ensures (x * y) * z == x * (y * z) && (x * z) * y == (x * y) * z
  {
  }

  /** The product of p^e does not depend on the order of the entries, so
      the order in which the merged factors were recorded does not matter. */
  lemma {:induction false} PowProductReordered(a: Factors, b: Factors)
    requires multiset(a) == multiset(b)
    ensures PowProduct(a) == PowProduct(b)
    decreases |a|
  {
    if a == [] {
      assert |b| == |multiset(b)| == 0;
    } else {
      var n := |a| - 1;
      var e := a[n];
      assert a == a[..n] + [e];
      assert e in multiset(a);
      var j :| 0 <= j < |b| && b[j] == e;
      var left, right := b[..j], b[j + 1..];
      assert b == left + [e] + right;
      RemoveMatching(a, b, j);
      PowProductReordered(a[..n], left + right);
      PowProductAppend(left, right);
      PowProductAppend(left + [e], right);
      PowProductAppend(left, [e]);
      assert PowProduct([e]) == Pow(e.0, e.1) by {
        assert [e][..0] == [];
      }
      MulRegroup(PowProduct(left), Pow(e.0, e.1), PowProduct(right));
    }
  }

  /** The search of `iter_mut().find` for the entry of p. */
  method FindEntry(b: Factors, p: nat) returns (r: Option<nat>)
    ensures r == IndexOf(b, p, 0)
  {
    var k := 0;
    while k < |b|
      invariant k <= |b|
      invariant IndexOf(b, p, k) == IndexOf(b, p, 0)
    {
      if b[k].0 == p {
        return Some(k);
      }
      k := k + 1;
    }
    return None;
  }

  /** `lcm` over the factorisations of its inputs: the nested loops update
      `biggest` in place, then the product is taken. */
  method Lcm(ns: seq<Factors>) returns (r: int)
    ensures r == PowProduct(MergeAll([], ns, 0))
  {
    var biggest: Factors := [];
    var i := 0;
    while i < |ns|
      invariant i <= |ns|
      invariant MergeAll(biggest, ns, i) == MergeAll([], ns, 0)
    {
      var factors := ns[i];
      ghost var before := biggest;
      var j := 0;
      while j < |factors|
        invariant j <= |factors|
        invariant MergeFrom(biggest, factors, j) == MergeFrom(before, factors, 0)
      {
        var f := factors[j];
        var k := FindEntry(biggest, f.0);
        if k.Some? {
          if biggest[k.value].1 < f.1 {
            biggest := biggest[k.value := (biggest[k.value].0, f.1)];
          }
        } else {
          biggest := biggest + [f];
        }
        j := j + 1;
      }
      i := i + 1;
    }
    r := PowProduct(biggest);
  }

  // ------------------------------------------------------- worked examples

  function Example1(): seq<Node>
  {
    [Node("AAA", "BBB", "CCC"), Node("BBB", "DDD", "EEE"), Node("CCC", "ZZZ", "GGG"), Node("DDD", "DDD", "DDD"),
     Node("EEE", "EEE", "EEE"), Node("GGG", "GGG", "GGG"), Node("ZZZ", "ZZZ", "ZZZ")]
  }

  /** RL from AAA: right to CCC, left to ZZZ, 2 steps. */
  lemma {:induction false} ExampleTwoSteps(fuel: nat)
    requires fuel >= 2
    ensures Steps1(Example1(), [R, L], fuel) == Arrived(2)
  {
    var tree := Example1();
    assert Find(tree, "AAA") == Some(tree[0]);
    assert Walk(tree, [R, L], tree[0], Exactly("ZZZ"), 0, 2) == Arrived(2);
    WalkMoreFuel(tree, [R, L], tree[0], Exactly("ZZZ"), 0, 2, fuel);
  }

  function Example2(): seq<Node>
  {
    [Node("AAA", "BBB", "BBB"), Node("BBB", "AAA", "ZZZ"), Node("ZZZ", "ZZZ", "ZZZ")]
  }

  /** LLR from AAA repeats the instructions twice: 6 steps. */
  lemma {:induction false} ExampleSixSteps(fuel: nat)
    requires fuel >= 6
    ensures Steps1(Example2(), [L, L, R], fuel) == Arrived(6)
  {
    var tree := Example2();
    assert Find(tree, "AAA") == Some(tree[0]);
    assert Walk(tree, [L, L, R], tree[0], Exactly("ZZZ"), 0, 6) == Arrived(6);
    WalkMoreFuel(tree, [L, L, R], tree[0], Exactly("ZZZ"), 0, 6, fuel);
  }

  function Example3(): seq<Node>
  {
    [Node("11A", "11B", "XXX"), Node("11B", "XXX", "11Z"), Node("11Z", "11B", "XXX"), Node("22A", "22B", "XXX"),
     Node("22B", "22C", "22C"), Node("22C", "22Z", "22Z"), Node("22Z", "22B", "22B"), Node("XXX", "XXX", "XXX")]
  }

  /** From 11A and 22A the ghosts need 2 and 3 steps. */
  lemma {:induction false} ExampleGhostWalks(fuel: nat)
    requires fuel >= 3
    ensures Steps2(Example3(), [L, R], fuel) == [Arrived(2), Arrived(3)]
  {
    var tree := Example3();
    assert Starts(tree) == [tree[0], tree[3]];
    assert Walk(tree, [L, R], tree[0], EndsWith('Z'), 0, 3) == Arrived(2);
    assert Walk(tree, [L, R], tree[3], EndsWith('Z'), 0, 3) == Arrived(3);
    WalkMoreFuel(tree, [L, R], tree[0], EndsWith('Z'), 0, 3, fuel);
    WalkMoreFuel(tree, [L, R], tree[3], EndsWith('Z'), 0, 3, fuel);
  }

  /** 2 = 2^1 and 3 = 3^1 merge to 2^1 · 3^1 = 6. */
  lemma {:induction false} ExampleLcm()
    ensures PowProduct(MergeAll([], [[(2, 1)], [(3, 1)]], 0)) == 6
  {
    assert MergeAll([], [[(2, 1)], [(3, 1)]], 0) == [(2, 1), (3, 1)];
  }
}
