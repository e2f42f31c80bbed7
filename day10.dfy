/**
 * Pipe Maze (day-10/src/main.rs): a grid of pipe tiles, each at a position
 * (column, row) with rows growing downwards. Two tiles connect when the
 * first opens towards the second and the second opens back; the start tile
 * connects to every orthogonal tile that is not ground. A breadth-first
 * search from the start collects the loop; a tile off the loop is enclosed
 * when an odd number of loop walls lie to its left in its row.
 */
module PipeMaze {
  import opened Common

  datatype TileType = NorthSouth | EastWest | NorthEast | NorthWest | SouthWest | SouthEast | Start | Ground

  /** `position` is (column, row). */
  datatype Tile = Tile(t: TileType, position: (int, int))

  /** `parse_tile`: the eight characters of the maze. */
  function ParseTile(c: char, position: (int, int)): (r: Option<Tile>)
    ensures r.Some? <==> c in "|-LJ7F.S"
    ensures r.Some? ==> r.value.position == position
    ensures r.Some? ==> (r.value.t == Start <==> c == 'S') && (r.value.t == Ground <==> c == '.')
  {
    match c
      case '|' => Some(Tile(NorthSouth, position))
      case '-' => Some(Tile(EastWest, position))
      case 'L' => Some(Tile(NorthEast, position))
      case 'J' => Some(Tile(NorthWest, position))
      case '7' => Some(Tile(SouthWest, position))
      case 'F' => Some(Tile(SouthEast, position))
      case '.' => Some(Tile(Ground, position))
      case 'S' => Some(Tile(Start, position))
      case _ => None
  }

  // ------------------------------------------------------ relative places

  /** `is_above`: other is in the same column on an earlier row. */
  predicate IsAbove(a: Tile, other: Tile)
  {
    a.position.1 > other.position.1 && a.position.0 == other.position.0
  }

  /** `is_below`: other is in the same column on a later row. */
  predicate IsBelow(a: Tile, other: Tile)
  {
    a.position.1 < other.position.1 && a.position.0 == other.position.0
  }

  /** `is_right`: other is in the same row on an earlier column. */
  predicate IsRight(a: Tile, other: Tile)
  {
    a.position.0 > other.position.0 && a.position.1 == other.position.1
  }

  /** `is_left`: other is in the same row on a later column. */
  predicate IsLeft(a: Tile, other: Tile)
  {
    a.position.0 < other.position.0 && a.position.1 == other.position.1
  }

  /** `process_north`: other is above and opens to the south. */
  predicate ProcessNorth(a: Tile, other: Tile)
  {
    IsAbove(a, other) && other.t in {SouthEast, SouthWest, NorthSouth}
  }

  /** `process_south`: other is below and opens to the north. */
  predicate ProcessSouth(a: Tile, other: Tile)
  {
    IsBelow(a, other) && other.t in {NorthEast, NorthWest, NorthSouth}
  }

  /** `process_west`: other is to the west and opens to the east. */
  predicate ProcessWest(a: Tile, other: Tile)
  {
    IsRight(a, other) && other.t in {EastWest, NorthEast, SouthEast}
  }

  /** `process_east`: other is to the east and opens to the west. */
  predicate ProcessEast(a: Tile, other: Tile)
  {
    IsLeft(a, other) && other.t in {EastWest, NorthWest, SouthWest}
  }

  /** `can_be_connected`. */
  predicate CanBeConnected(a: Tile, other: Tile)
  {
    match a.t
      case NorthSouth => ProcessNorth(a, other) || ProcessSouth(a, other)
      case EastWest => ProcessEast(a, other) || ProcessWest(a, other)
      case NorthEast => ProcessNorth(a, other) || ProcessEast(a, other)
      case NorthWest => ProcessNorth(a, other) || ProcessWest(a, other)
      case SouthWest => ProcessSouth(a, other) || ProcessWest(a, other)
      case SouthEast => ProcessSouth(a, other) || ProcessEast(a, other)
      case Start =>
        (IsAbove(a, other) || IsBelow(a, other) || IsLeft(a, other) || IsRight(a, other)) && other.t != Ground
      case Ground => false
  }

  /** The sides a pipe opens to. */
  predicate OpensNorth(t: TileType) { t in {NorthSouth, NorthEast, NorthWest} }
  predicate OpensSouth(t: TileType) { t in {NorthSouth, SouthEast, SouthWest} }
  predicate OpensEast(t: TileType) { t in {EastWest, NorthEast, SouthEast} }
  predicate OpensWest(t: TileType) { t in {EastWest, NorthWest, SouthWest} }

  /** Ground connects to nothing and nothing connects to ground, and two
      tiles only connect along a row or a column, never diagonally. */
  lemma {:induction false} ConnectionShape(a: Tile, b: Tile)
    ensures CanBeConnected(a, b) ==> a.t != Ground && b.t != Ground
    ensures CanBeConnected(a, b) ==>
      (a.position.0 == b.position.0) != (a.position.1 == b.position.1)
  {
  }

  /** A pipe connects to a tile exactly when the pipe opens towards it and
      the tile opens back; a pipe never connects to the start tile. */
  lemma {:induction false} PipeConnects(a: Tile, b: Tile)
    requires a.t != Start && a.t != Ground
    ensures CanBeConnected(a, b) <==>
      (IsAbove(a, b) && OpensNorth(a.t) && OpensSouth(b.t)) ||
      (IsBelow(a, b) && OpensSouth(a.t) && OpensNorth(b.t)) ||
      (IsRight(a, b) && OpensWest(a.t) && OpensEast(b.t)) ||
      (IsLeft(a, b) && OpensEast(a.t) && OpensWest(b.t))
    ensures b.t == Start ==> !CanBeConnected(a, b)
  {
  }

  /** The start connects to every tile in its row or column that is not
      ground. */
  lemma {:induction false} StartConnects(a: Tile, b: Tile)
    requires a.t == Start
    ensures CanBeConnected(a, b) <==>
      ((a.position.0 == b.position.0) != (a.position.1 == b.position.1)) && b.t != Ground
  {
  }

  // ---------------------------------------------------------------- maze

  /** `get_by_position`: the first tile of the maze at p. */
  function GetByPositionFrom(maze: seq<Tile>, p: (int, int), i: nat): (r: Option<Tile>)
    ensures r.Some? ==> r.value in maze && r.value.position == p
    ensures r.None? ==> forall k | i <= k < |maze| :: maze[k].position != p
    decreases |maze| - i
  {
    if i >= |maze| then None
    else if maze[i].position == p then Some(maze[i])
    else GetByPositionFrom(maze, p, i + 1)
  }

  function GetByPosition(maze: seq<Tile>, p: (int, int)): Option<Tile>
  {
    GetByPositionFrom(maze, p, 0)
  }

  /** The eight surrounding offsets in the order `get_neighborhood` tries
      them: the row above, the two sides, the row below. */
  const Offsets: seq<(int, int)> := [(-1, -1), (0, -1), (1, -1), (-1, 0), (1, 0), (-1, 1), (0, 1), (1, 1)]

  function NeighborsAt(maze: seq<Tile>, point: Tile, offsets: seq<(int, int)>): (r: seq<Tile>)
    requires forall o | o in offsets :: -1 <= o.0 <= 1 && -1 <= o.1 <= 1 && o != (0, 0)
    ensures forall n | n in r :: n in maze
    ensures forall n | n in r ::
      -1 <= n.position.0 - point.position.0 <= 1 && -1 <= n.position.1 - point.position.1 <= 1 &&
      n.position != point.position
  {
    if offsets == [] then []
    else
      var p := (point.position.0 + offsets[0].0, point.position.1 + offsets[0].1);
      (match GetByPosition(maze, p) case None => [] case Some(n) => [n]) + NeighborsAt(maze, point, offsets[1..])
  }

  /** `get_neighborhood`: the tiles of the maze around point, each within
      one row and one column of it and not at its position. */
  function Neighborhood(maze: seq<Tile>, point: Tile): seq<Tile>
  {
    NeighborsAt(maze, point, Offsets)
  }

  /** b is a connected neighbour of a. */
  predicate Linked(maze: seq<Tile>, a: Tile, b: Tile)
  {
    b in Neighborhood(maze, a) && CanBeConnected(a, b)
  }

  predicate NoDuplicates(s: seq<Tile>)
  {
    forall i, j | 0 <= i < j < |s| :: s[i] != s[j]
  }

  /** The tiles of the maze not yet visited. */
  ghost function Unvisited(maze: seq<Tile>, visited: seq<Tile>): set<Tile>
  {
    (set t | t in maze) - (set t | t in visited)
  }

  /** Visiting a fresh tile of the maze leaves fewer tiles unvisited. */
  lemma {:induction false} FreshShrinks(maze: seq<Tile>, visited: seq<Tile>, c: Tile)
    requires c in maze && c !in visited
    ensures |Unvisited(maze, visited + [c])| < |Unvisited(maze, visited)|
  {
    assert (set t | t in visited + [c]) == (set t | t in visited) + {c};
    assert Unvisited(maze, visited + [c]) == Unvisited(maze, visited) - {c};
  }

  /** The loop of `bfs` over the neighbourhood of curr: the neighbours it
      can be connected to, in neighbourhood order. */
  method Connections(maze: seq<Tile>, curr: Tile) returns (connections: seq<Tile>)
    ensures forall c | c in connections :: Linked(maze, curr, c)
    ensures forall n | Linked(maze, curr, n) :: n in connections
  {
    var neighbors := Neighborhood(maze, curr);
    connections := [];
    var k := 0;
    while k < |neighbors|
      invariant k <= |neighbors|
      invariant forall c | c in connections :: Linked(maze, curr, c)
      invariant forall m | 0 <= m < k && CanBeConnected(curr, neighbors[m]) :: neighbors[m] in connections
    {
      if CanBeConnected(curr, neighbors[k]) {
        connections := connections + [neighbors[k]];
      }
      k := k + 1;
    }
  }

  /** from[i] indexes the visited tile that enqueued queue[i]. */
  predicate EnqueuedBy(maze: seq<Tile>, visited: seq<Tile>, queue: seq<Tile>, from: seq<nat>)
  {
    |from| == |queue| &&
    forall i | 0 <= i < |queue| :: from[i] < |visited| && Linked(maze, visited[from[i]], queue[i])
  }

  /** Visiting curr and appending its connections keeps every queued tile
      tied to the visited tile that enqueued it. */
  lemma {:induction false} EnqueuedStep(maze: seq<Tile>, visited: seq<Tile>, queue: seq<Tile>, from: seq<nat>,
                                        curr: Tile, connections: seq<Tile>)
    requires visited != [] ==> EnqueuedBy(maze, visited, queue, from)
    requires visited == [] ==> queue == [] && from == []
    requires forall c | c in connections :: Linked(maze, curr, c)
    ensures EnqueuedBy(maze, visited + [curr], queue + connections, from + seq(|connections|, _ => |visited|))
  {
    var v, q, f := visited + [curr], queue + connections, from + seq(|connections|, _ => |visited|);
    forall i | 0 <= i < |q|
      ensures f[i] < |v| && Linked(maze, v[f[i]], q[i])
    {
      if i < |queue| {
        assert q[i] == queue[i] && f[i] == from[i];
        assert v[f[i]] == visited[f[i]];
      } else {
        assert q[i] == connections[i - |queue|] && f[i] == |visited|;
      }
    }
  }

  /** What holds of the search between two turns of the loop of `bfs`:
      from[i] is the index in visited of the tile that enqueued queue[i] and
      parents[k] the same for visited[k]. */
  ghost predicate Searching(maze: seq<Tile>, start: Tile, visited: seq<Tile>, queue: seq<Tile>,
                            from: seq<nat>, parents: seq<nat>)
  {
    (forall q | q in queue :: q in maze) &&
    (forall v | v in visited :: v in maze) &&
    NoDuplicates(visited) &&
    (visited == [] ==> queue == [start] && |from| == 1) &&
    (visited != [] ==> visited[0] == start && EnqueuedBy(maze, visited, queue, from)) &&
    |parents| == |visited| &&
    (forall k | 1 <= k < |visited| :: parents[k] < k && Linked(maze, visited[parents[k]], visited[k])) &&
    (forall v, n | v in visited && Linked(maze, v, n) :: n in visited || n in queue)
  }

  /** A dequeued tile that is already visited is dropped. */
  lemma {:induction false} SkipStep(maze: seq<Tile>, start: Tile, visited: seq<Tile>, queue: seq<Tile>,
                                    from: seq<nat>, parents: seq<nat>)
    requires Searching(maze, start, visited, queue, from, parents)
    requires queue != [] && queue[0] in visited
    ensures Searching(maze, start, visited, queue[1..], from[1..], parents)
  {
    assert visited != [];
    forall v, n | v in visited && Linked(maze, v, n)
      ensures n in visited || n in queue[1..]
    {
      if n !in visited {
        assert n in queue && n != queue[0];
        var i :| 0 <= i < |queue| && queue[i] == n;
        assert queue[1..][i - 1] == n;
      }
    }
  }

  /** A dequeued tile not yet visited is visited and its connections are
      enqueued behind the rest of the queue. */
  lemma {:induction false} VisitStep(maze: seq<Tile>, start: Tile, visited: seq<Tile>, queue: seq<Tile>,
                                     from: seq<nat>, parents: seq<nat>, connections: seq<Tile>)
    requires Searching(maze, start, visited, queue, from, parents)
    requires queue != [] && queue[0] !in visited
    requires forall c | c in connections :: Linked(maze, queue[0], c)
    requires forall n | Linked(maze, queue[0], n) :: n in connections
    ensures Searching(maze, start, visited + [queue[0]], queue[1..] + connections,
                      from[1..] + seq(|connections|, _ => |visited|), parents + [from[0]])
  {
    var curr := queue[0];
    EnqueuedStep(maze, visited, queue[1..], from[1..], curr, connections);
    VisitDistinct(visited, curr);
    VisitParents(maze, visited, parents, from[0], curr);
    VisitClosed(maze, visited, queue, connections);
  }

  lemma {:induction false} VisitDistinct(visited: seq<Tile>, curr: Tile)
    requires NoDuplicates(visited) && curr !in visited
    ensures NoDuplicates(visited + [curr])
  {
    var v := visited + [curr];
    forall i, j | 0 <= i < j < |v|
      ensures v[i] != v[j]
    {
      if j == |visited| {
        assert v[i] == visited[i];
      }
    }
  }

  lemma {:induction false} VisitParents(maze: seq<Tile>, visited: seq<Tile>, parents: seq<nat>, parent: nat, curr: Tile)
    requires |parents| == |visited|
    requires forall k | 1 <= k < |visited| :: parents[k] < k && Linked(maze, visited[parents[k]], visited[k])
    requires visited != [] ==> parent < |visited| && Linked(maze, visited[parent], curr)
    ensures forall k | 1 <= k < |visited| + 1 ::
      (parents + [parent])[k] < k && Linked(maze, (visited + [curr])[(parents + [parent])[k]], (visited + [curr])[k])
  {
    var v, p := visited + [curr], parents + [parent];
    forall k | 1 <= k < |v|
      ensures p[k] < k && Linked(maze, v[p[k]], v[k])
    {
      if k == |visited| {
        assert v[p[k]] == visited[parent];
      } else {
        assert v[p[k]] == visited[parents[k]];
      }
    }
  }

  lemma {:induction false} VisitClosed(maze: seq<Tile>, visited: seq<Tile>, queue: seq<Tile>, connections: seq<Tile>)
    requires queue != []
    requires forall v, n | v in visited && Linked(maze, v, n) :: n in visited || n in queue
    requires forall n | Linked(maze, queue[0], n) :: n in connections
    ensures forall v, n | v in visited + [queue[0]] && Linked(maze, v, n) ::
      n in visited + [queue[0]] || n in queue[1..] + connections
  {
    var curr := queue[0];
    var v, q := visited + [curr], queue[1..] + connections;
    forall w, n | w in v && Linked(maze, w, n)
      ensures n in v || n in q
    {
      if w == curr {
        assert n in connections;
      } else if n !in visited && n != curr {
        assert n in queue && n != queue[0];
        var i :| 0 <= i < |queue| && queue[i] == n;
        assert q[i - 1] == n;
      }
    }
  }

  /** Once the queue is empty the visited tiles are the result. */
  lemma {:induction false} SearchDone(maze: seq<Tile>, start: Tile, visited: seq<Tile>, from: seq<nat>, parents: seq<nat>)
    requires Searching(maze, start, visited, [], from, parents)
    ensures |visited| >= 1 && visited[0] == start
    ensures NoDuplicates(visited)
    ensures forall v | v in visited :: v in maze
    ensures forall k | 1 <= k < |visited| :: exists j | 0 <= j < k :: Linked(maze, visited[j], visited[k])
    ensures forall v, n | v in visited && Linked(maze, v, n) :: n in visited
  {
    forall k | 1 <= k < |visited|
      ensures exists j | 0 <= j < k :: Linked(maze, visited[j], visited[k])
    {
      assert Linked(maze, visited[parents[k]], visited[k]);
    }
  }

  /** One turn of the loop of `bfs`: the front of the queue is taken off
      and, unless already visited, visited with its connections enqueued. */
  method Turn(maze: seq<Tile>, ghost start: Tile, visited: seq<Tile>, queue: seq<Tile>,
              ghost from: seq<nat>, ghost parents: seq<nat>)
    returns (visited': seq<Tile>, queue': seq<Tile>, ghost from': seq<nat>, ghost parents': seq<nat>)
    requires queue != [] && Searching(maze, start, visited, queue, from, parents)
    ensures Searching(maze, start, visited', queue', from', parents')
    ensures |Unvisited(maze, visited')| < |Unvisited(maze, visited)| ||
      (visited' == visited && |queue'| < |queue|)
  {
    if queue[0] in visited {
      SkipStep(maze, start, visited, queue, from, parents);
      return visited, queue[1..], from[1..], parents;
    }
    visited', queue', from', parents' := Visit(maze, start, visited, queue, from, parents);
    FreshShrinks(maze, visited, queue[0]);
  }

  /** The front of the queue is not yet visited: it is visited and its
      connections are enqueued. */
  method Visit(maze: seq<Tile>, ghost start: Tile, visited: seq<Tile>, queue: seq<Tile>,
               ghost from: seq<nat>, ghost parents: seq<nat>)
    returns (visited': seq<Tile>, queue': seq<Tile>, ghost from': seq<nat>, ghost parents': seq<nat>)
    requires queue != [] && queue[0] !in visited && Searching(maze, start, visited, queue, from, parents)
    ensures Searching(maze, start, visited', queue', from', parents')
    ensures visited' == visited + [queue[0]]
  {
    var connections := Connections(maze, queue[0]);
    visited' := visited + [queue[0]];
    queue' := queue[1..] + connections;
    from' := from[1..] + seq(|connections|, _ => |visited|);
    parents' := parents + [from[0]];
    VisitStep(maze, start, visited, queue, from, parents, connections);
  }

  /** `bfs`: the queue is consumed from the front, a tile already visited
      is skipped, otherwise its connected neighbours are appended and it is
      visited. The result starts with the start tile, holds no tile twice,
      every later tile is a connected neighbour of an earlier one, and every
      connected neighbour of a visited tile is visited. */
  method Bfs(maze: seq<Tile>, start: Tile) returns (visited: seq<Tile>)
    requires start in maze
    ensures |visited| >= 1 && visited[0] == start
    ensures NoDuplicates(visited)
    ensures forall v | v in visited :: v in maze
    ensures forall k | 1 <= k < |visited| :: exists j | 0 <= j < k :: Linked(maze, visited[j], visited[k])
    ensures forall v, n | v in visited && Linked(maze, v, n) :: n in visited
  {
    visited := [];
    var queue := [start];
    ghost var from: seq<nat> := [0];
    ghost var parents: seq<nat> := [];
    while queue != []
      invariant Searching(maze, start, visited, queue, from, parents)
      decreases |Unvisited(maze, visited)|, |queue|
    {
      visited, queue, from, parents := Turn(maze, start, visited, queue, from, parents);
    }
    SearchDone(maze, start, visited, from, parents);
  }

  // ----------------------------------------------------------- crossings

  /** `get_row`: the tiles of the maze in the row of p. */
  function Row(maze: seq<Tile>, p: (int, int)): (r: seq<Tile>)
    ensures forall t | t in r :: t in maze && t.position.1 == p.1
  {
    if maze == [] then []
    else Row(maze[..|maze| - 1], p) + (if maze[|maze| - 1].position.1 == p.1 then [maze[|maze| - 1]] else [])
  }

  /** The tiles of the row to the left of point that lie on the path. */
  function LeftOnPath(row: seq<Tile>, point: Tile, path: seq<Tile>): (r: seq<Tile>)
    ensures forall t | t in r :: t in row && IsLeft(t, point) && t in path
  {
    if row == [] then []
    else
      var last := row[|row| - 1];
      LeftOnPath(row[..|row| - 1], point, path) + (if IsLeft(last, point) && last in path then [last] else [])
  }

  /** The last corner opening to the east ('L' or 'F') among ts. */
  function LastCorner(ts: seq<Tile>): Option<TileType>
  {
    if ts == [] then None
    else if ts[|ts| - 1].t in {NorthEast, SouthEast} then Some(ts[|ts| - 1].t)
    else LastCorner(ts[..|ts| - 1])
  }

  /** What a tile adds to the crossings after the tiles before it: a '|'
      always, a 'J' after an 'F', a '7' after an 'L'. */
  function Contribution(before: seq<Tile>, t: Tile): nat
  {
    match t.t
      case NorthSouth => 1
      case NorthWest => if LastCorner(before) == Some(SouthEast) then 1 else 0
      case SouthWest => if LastCorner(before) == Some(NorthEast) then 1 else 0
      case _ => 0
  }

  /** The walls crossed going through ts from left to right. */
  function Crossings(ts: seq<Tile>): (n: nat)
    ensures n <= |ts|
  {
    if ts == [] then 0 else Crossings(ts[..|ts| - 1]) + Contribution(ts[..|ts| - 1], ts[|ts| - 1])
  }

  /** Passing one more tile: its contribution is added and an east-opening
      corner becomes the last corner. */
  lemma {:induction false} CrossingsStep(passed: seq<Tile>, tile: Tile)
    ensures Crossings(passed + [tile]) == Crossings(passed) + Contribution(passed, tile)
    ensures LastCorner(passed + [tile]) == if tile.t in {NorthEast, SouthEast} then Some(tile.t) else LastCorner(passed)
  {
    assert (passed + [tile])[..|passed|] == passed;
  }

  lemma {:induction false} LeftOnPathStep(row: seq<Tile>, point: Tile, path: seq<Tile>, k: nat)
    requires k < |row|
    ensures LeftOnPath(row[..k + 1], point, path) ==
      LeftOnPath(row[..k], point, path) + (if IsLeft(row[k], point) && row[k] in path then [row[k]] else [])
  {
    assert row[..k + 1][..k] == row[..k];
  }

  /** intersects and the list of corners account for the tiles passed. */
  ghost predicate Tracks(passed: seq<Tile>, intersects: nat, angles: seq<Tile>)
  {
    intersects == Crossings(passed) &&
    (angles == [] <==> LastCorner(passed) == None) &&
    (angles != [] ==> LastCorner(passed) == Some(angles[|angles| - 1].t))
  }

  /** The body of the loop of `intersections` for one tile of the row that
      lies on the path to the left of the point. */
  method CrossTile(ghost passed: seq<Tile>, tile: Tile, intersects: nat, angles: seq<Tile>)
    returns (intersects': nat, angles': seq<Tile>)
    requires Tracks(passed, intersects, angles)
    ensures Tracks(passed + [tile], intersects', angles')
  {
    CrossingsStep(passed, tile);
    intersects', angles' := intersects, angles;
    match tile.t {
      case NorthSouth =>
        intersects' := intersects + 1;
      case NorthEast =>
        angles' := angles + [tile];
      case SouthEast =>
        angles' := angles + [tile];
      case NorthWest =>
        if angles != [] && angles[|angles| - 1].t == SouthEast {
          intersects' := intersects + 1;
        }
      case SouthWest =>
        if angles != [] && angles[|angles| - 1].t == NorthEast {
          intersects' := intersects + 1;
        }
      case _ =>
    }
  }

  /** `intersections`: one pass over the row, counting '|' and pushing the
      east-opening corners onto a list whose last entry decides whether a
      'J' or a '7' closes a crossing. */
  method Intersections(maze: seq<Tile>, point: Tile, path: seq<Tile>) returns (intersects: nat)
    requires point in maze
    ensures intersects == Crossings(LeftOnPath(Row(maze, point.position), point, path))
  {
    var row := Row(maze, point.position);
    intersects := 0;
    var angles: seq<Tile> := [];
    ghost var passed: seq<Tile> := [];
    var k := 0;
    while k < |row|
      invariant k <= |row|
      invariant passed == LeftOnPath(row[..k], point, path)
      invariant Tracks(passed, intersects, angles)
    {
      var tile := row[k];
      LeftOnPathStep(row, point, path, k);
      if IsLeft(tile, point) && tile in path {
        intersects, angles := CrossTile(passed, tile, intersects, angles);
        passed := passed + [tile];
      }
      k := k + 1;
    }
    assert row[..|row|] == row;
  }

  /** `is_enclosed`: a tile on the loop is never enclosed; any other tile is
      enclosed when it crosses an odd number of walls to its left. */
  predicate Enclosed(maze: seq<Tile>, point: Tile, path: seq<Tile>)
  {
    point !in path && Crossings(LeftOnPath(Row(maze, point.position), point, path)) % 2 == 1
  }

  method IsEnclosed(maze: seq<Tile>, point: Tile, path: seq<Tile>) returns (b: bool)
    requires point in maze
    ensures b == Enclosed(maze, point, path)
  {
    if point in path {
      return false;
    }
    var n := Intersections(maze, point, path);
    b := n % 2 == 1;
  }

  /** The number of enclosed tiles among tiles. */
  function CountEnclosed(maze: seq<Tile>, tiles: seq<Tile>, path: seq<Tile>): (n: nat)
    ensures n <= |tiles|
  {
    if tiles == [] then 0
    else CountEnclosed(maze, tiles[..|tiles| - 1], path) + (if Enclosed(maze, tiles[|tiles| - 1], path) then 1 else 0)
  }

  /** No tile of the loop is counted, so at most the tiles off the loop are. */
  lemma {:induction false} LoopTilesNotCounted(maze: seq<Tile>, tiles: seq<Tile>, path: seq<Tile>)
    requires forall t | t in tiles :: t in path
    ensures CountEnclosed(maze, tiles, path) == 0
  {
    if tiles != [] {
      LoopTilesNotCounted(maze, tiles[..|tiles| - 1], path);
      assert tiles[|tiles| - 1] in tiles;
    }
  }

  /** `find_start`: the first start tile. */
  function FindStart(maze: seq<Tile>, i: nat): (r: Option<Tile>)
    ensures r.Some? ==> r.value in maze && r.value.t == Start
    ensures r.None? ==> forall k | i <= k < |maze| :: maze[k].t != Start
    decreases |maze| - i
  {
    if i >= |maze| then None
    else if maze[i].t == Start then Some(maze[i])
    else FindStart(maze, i + 1)
  }

  /** `task_1`: half the length of the loop found from the start; without
      a start tile the `unwrap` fails (None). */
  method Task1(maze: seq<Tile>) returns (r: Option<nat>, path: seq<Tile>)
    ensures r.None? <==> FindStart(maze, 0).None?
    ensures r.Some? ==> |path| >= 1 && path[0] == FindStart(maze, 0).value && NoDuplicates(path)
    ensures r.Some? ==> forall v, n | v in path && Linked(maze, v, n) :: n in path
    ensures r.Some? ==> r.value == |path| / 2
  {
    var start := FindStart(maze, 0);
    if start.None? {
      return None, [];
    }
    path := Bfs(maze, start.value);
    r := Some(|path| / 2);
  }

  /** `task_2`: the number of tiles of the maze enclosed by the loop;
      without a start tile the `unwrap` fails (None). */
  method Task2(maze: seq<Tile>) returns (r: Option<nat>, path: seq<Tile>)
    ensures r.None? <==> FindStart(maze, 0).None?
    ensures r.Some? ==> |path| >= 1 && path[0] == FindStart(maze, 0).value && NoDuplicates(path)
    ensures r.Some? ==> forall v, n | v in path && Linked(maze, v, n) :: n in path
    ensures r.Some? ==> r.value == CountEnclosed(maze, maze, path)
  {
    var start := FindStart(maze, 0);
    if start.None? {
      return None, [];
    }
    path := Bfs(maze, start.value);
    var count := 0;
    var k := 0;
    while k < |maze|
      invariant k <= |maze|
      invariant count == CountEnclosed(maze, maze[..k], path)
    {
      assert maze[..k + 1][..k] == maze[..k];
      var b := IsEnclosed(maze, maze[k], path);
      if b {
        count := count + 1;
      }
      k := k + 1;
    }
    assert maze[..|maze|] == maze;
    r := Some(count);
  }

  // ------------------------------------------------------------- examples

  /** Along F, J, | two walls are crossed: F then J, and the '|'. */
  lemma {:induction false} ExampleCrossings()
    ensures Crossings([Tile(SouthEast, (0, 0)), Tile(NorthWest, (1, 0)), Tile(NorthSouth, (2, 0))]) == 2
  {
    var ts := [Tile(SouthEast, (0, 0)), Tile(NorthWest, (1, 0)), Tile(NorthSouth, (2, 0))];
    assert ts[..2][..1] == [ts[0]];
    assert LastCorner(ts[..2][..1]) == Some(SouthEast);
  }

  /** L followed by 7 crosses one wall. */
  lemma {:induction false} ExampleZigzag()
    ensures Crossings([Tile(NorthEast, (0, 0)), Tile(SouthWest, (1, 0))]) == 1
  {
    var ts := [Tile(NorthEast, (0, 0)), Tile(SouthWest, (1, 0))];
    assert ts[..1] == [ts[0]];
    assert LastCorner(ts[..1]) == Some(NorthEast);
  }

  /** L followed by J turns back: no wall is crossed. */
  lemma {:induction false} ExampleUTurn()
    ensures Crossings([Tile(NorthEast, (0, 0)), Tile(EastWest, (1, 0)), Tile(NorthWest, (2, 0))]) == 0
  {
    var ts := [Tile(NorthEast, (0, 0)), Tile(EastWest, (1, 0)), Tile(NorthWest, (2, 0))];
    assert ts[..2][..1] == [ts[0]];
    assert LastCorner(ts[..2]) == Some(NorthEast);
  }
}
