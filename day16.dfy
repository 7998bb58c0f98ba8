/** Day 16: a reindeer runs a maze from its start tile to its end tile;
    each step forward scores 1 and each quarter turn scores 1000. */
module Day16 {
  import opened Common
  import opened Picture

  /** (row, column). */
  type Coordinates = (nat, nat)

  function AbsDiff(a: nat, b: nat): nat
  {
    if a < b then b - a else a - b
  }

  function ManhattanDistance(a: Coordinates, b: Coordinates): (d: nat)
    ensures d == 0 <==> a == b
  {
    AbsDiff(a.0, b.0) + AbsDiff(a.1, b.1)
  }

  lemma ManhattanSymmetric(a: Coordinates, b: Coordinates)
    ensures ManhattanDistance(a, b) == ManhattanDistance(b, a)
  {
  }

  lemma ManhattanTriangle(a: Coordinates, b: Coordinates, c: Coordinates)
    ensures ManhattanDistance(a, c) <= ManhattanDistance(a, b) + ManhattanDistance(b, c)
  {
  }

  // ---- Facings ----

  datatype Facing = North | East | South | West

  const Facings: set<Facing> := {North, East, South, West}

  function RotateClockwise(f: Facing): Facing
  {
    match f
    case North => East
    case East => South
    case South => West
    case West => North
  }

  function RotateCounterclockwise(f: Facing): Facing
  {
    match f
    case North => West
    case East => North
    case South => East
    case West => South
  }

  /** The two rotations undo each other ... */
  lemma RotationsInverse(f: Facing)
    ensures RotateCounterclockwise(RotateClockwise(f)) == f
    ensures RotateClockwise(RotateCounterclockwise(f)) == f
  {
  }

  /** ... and four quarter turns come back to the start. */
  lemma FourClockwiseTurns(f: Facing)
    ensures RotateClockwise(RotateClockwise(RotateClockwise(RotateClockwise(f)))) == f
  {
  }

  predicate Vertical(f: Facing)
  {
    f == North || f == South
  }

  /** A quarter turn either way changes between vertical and horizontal. */
  lemma RotationsArePerpendicular(f: Facing)
    ensures Vertical(RotateClockwise(f)) != Vertical(f)
    ensures Vertical(RotateCounterclockwise(f)) != Vertical(f)
    ensures RotateClockwise(f) != RotateCounterclockwise(f)
  {
  }

  /** c is the cell directly ahead of pos when facing f. */
  predicate Ahead(f: Facing, pos: Coordinates, c: Coordinates)
  {
    match f
    case North => c.0 + 1 == pos.0 && c.1 == pos.1
    case East => c.0 == pos.0 && c.1 == pos.1 + 1
    case South => c.0 == pos.0 + 1 && c.1 == pos.1
    case West => c.0 == pos.0 && c.1 + 1 == pos.1
  }

  lemma AheadIsAdjacent(f: Facing, pos: Coordinates, c: Coordinates)
    requires Ahead(f, pos, c)
    ensures ManhattanDistance(pos, c) == 1
  {
  }

  // ---- The maze ----

  datatype Maze = Maze(hedges: set<Coordinates>, start: Coordinates, end: Coordinates, bounds: (nat, nat))

  /** A tile inside the bounds that is not a hedge. */
  predicate Open(maze: Maze, c: Coordinates)
  {
    c.0 < maze.bounds.0 && c.1 < maze.bounds.1 && c !in maze.hedges
  }

  function Delta(f: Facing): (int, int)
  {
    match f
    case North => (-1, 0)
    case East => (0, 1)
    case South => (1, 0)
    case West => (0, -1)
  }

  /** `Facing::forwards`: the tile ahead, unless it is off the grid or a hedge. */
  function Forwards(f: Facing, pos: Coordinates, maze: Maze): (r: Option<Coordinates>)
    ensures r.Some? ==> Ahead(f, pos, r.value) && Open(maze, r.value)
    ensures r.None? ==> forall c :: Ahead(f, pos, c) ==> !Open(maze, c)
  {
    var r1 := pos.0 + Delta(f).0;
    var c1 := pos.1 + Delta(f).1;
    if 0 <= r1 < maze.bounds.0 && 0 <= c1 < maze.bounds.1 && (r1, c1) !in maze.hedges then Some((r1, c1))
    else None
  }

  // ---- Positions ----

  datatype Position = Position(coordinates: Coordinates, facing: Facing, score: nat, distance: nat, visited: seq<Coordinates>)

  function Last<T>(s: seq<T>): T
    requires s != []
  {
    s[|s| - 1]
  }

  /** `Maze::starting_position`: facing East on the start tile, score 0. */
  function StartingPosition(maze: Maze): (p: Position)
    ensures Consistent(maze, p) && p.score == 0 && p.facing == East
  {
    Position(maze.start, East, 0, ManhattanDistance(maze.start, maze.end), [maze.start])
  }

  /** What every position reached from the start satisfies: the visited
      tiles run from the start to the current tile one step at a time over
      open tiles, the distance is the distance to the end, and the score is
      one per step plus a whole number of thousands for the turns. */
  predicate Consistent(maze: Maze, p: Position)
  {
    && p.visited != [] && p.visited[0] == maze.start && Last(p.visited) == p.coordinates
    && p.distance == ManhattanDistance(p.coordinates, maze.end)
    && (forall k :: 0 < k < |p.visited| ==> ManhattanDistance(p.visited[k - 1], p.visited[k]) == 1)
    && (forall k :: 0 < k < |p.visited| ==> Open(maze, p.visited[k]))
    && p.score >= |p.visited| - 1
    && (p.score - (|p.visited| - 1)) % 1000 == 0
  }

  /** `Position::next`: a quarter turn each way in place, then the step
      forward when the tile ahead is open. */
  function Next(p: Position, maze: Maze): (r: seq<Position>)
    ensures 2 <= |r| <= 3 && (|r| == 3 <==> Forwards(p.facing, p.coordinates, maze).Some?)
    ensures forall q :: q in r ==> p.score < q.score <= p.score + 1000
  {
    var turns := [p.(facing := RotateClockwise(p.facing), score := p.score + 1000),
                  p.(facing := RotateCounterclockwise(p.facing), score := p.score + 1000)];
    match Forwards(p.facing, p.coordinates, maze)
    case None => turns
    case Some(c) => turns + [Position(c, p.facing, p.score + 1, ManhattanDistance(c, maze.end), p.visited + [c])]
  }

  /** q turns a quarter in place from p, for 1000. */
  predicate IsTurn(p: Position, q: Position)
  {
    && q.coordinates == p.coordinates && Vertical(q.facing) != Vertical(p.facing)
    && q.score == p.score + 1000 && q.distance == p.distance && q.visited == p.visited
  }

  /** q steps onto the open tile ahead of p, for 1. */
  predicate IsStep(maze: Maze, p: Position, q: Position)
  {
    && Ahead(p.facing, p.coordinates, q.coordinates) && Open(maze, q.coordinates)
    && q.facing == p.facing && q.score == p.score + 1
    && q.distance == ManhattanDistance(q.coordinates, maze.end)
    && q.visited == p.visited + [q.coordinates]
  }

  /** The successors are exactly the two turns and the step, when there is one. */
  lemma NextMembers(maze: Maze, p: Position, q: Position)
    ensures q in Next(p, maze) <==> IsTurn(p, q) || IsStep(maze, p, q)
  {
    RotationsArePerpendicular(p.facing);
    if IsStep(maze, p, q) {
      var f := Forwards(p.facing, p.coordinates, maze);
      assert f.Some? && f.value == q.coordinates;
    }
  }

  lemma NextConsistent(maze: Maze, p: Position, q: Position)
    requires Consistent(maze, p) && q in Next(p, maze)
    ensures Consistent(maze, q)
  {
    NextMembers(maze, p, q);
    if IsStep(maze, p, q) {
      AheadIsAdjacent(p.facing, p.coordinates, q.coordinates);
      var n := |p.visited| - 1;
      assert q.score - (|q.visited| - 1) == p.score - n;
      forall k | 0 < k < |q.visited|
        ensures ManhattanDistance(q.visited[k - 1], q.visited[k]) == 1 && Open(maze, q.visited[k])
      {
        if k < |p.visited| {
          assert q.visited[k - 1] == p.visited[k - 1] && q.visited[k] == p.visited[k];
        }
      }
    } else {
      assert q.score - (|q.visited| - 1) == (p.score - (|p.visited| - 1)) + 1000;
    }
  }

  /** A route: positions from the starting position, each a successor of
      the one before. */
  ghost predicate IsRoute(maze: Maze, route: seq<Position>)
  {
    && route != [] && route[0] == StartingPosition(maze)
    && forall k :: 0 < k < |route| ==> route[k] in Next(route[k - 1], maze)
  }

  lemma RouteStart(maze: Maze)
    ensures IsRoute(maze, [StartingPosition(maze)])
  {
  }

  lemma RouteExtend(maze: Maze, route: seq<Position>, q: Position)
    requires IsRoute(maze, route) && q in Next(Last(route), maze)
    ensures IsRoute(maze, route + [q]) && Last(route + [q]) == q
  {
  }

  /** Every position along a route is consistent. */
  lemma {:induction false} RouteConsistent(maze: Maze, route: seq<Position>)
    requires IsRoute(maze, route)
    ensures Consistent(maze, Last(route))
  {
    if |route| > 1 {
      var front := route[..|route| - 1];
      assert IsRoute(maze, front);
      RouteConsistent(maze, front);
      NextConsistent(maze, Last(front), Last(route));
    }
  }

  ghost function Elems<T>(s: seq<T>): set<T>
  {
    set x | x in s
  }

  /** The tiles a route stands on. */
  ghost function Stood(route: seq<Position>): set<Coordinates>
  {
    set k | 0 <= k < |route| :: route[k].coordinates
  }

  lemma StoodAppend(route: seq<Position>, q: Position)
    ensures Stood(route + [q]) == Stood(route) + {q.coordinates}
  {
    var r := route + [q];
    forall c | c in Stood(r)
      ensures c in Stood(route) + {q.coordinates}
    {
      var k :| 0 <= k < |r| && r[k].coordinates == c;
      if k < |route| {
        assert route[k] == r[k];
      }
    }
    forall c | c in Stood(route)
      ensures c in Stood(r)
    {
      var k :| 0 <= k < |route| && route[k].coordinates == c;
      assert r[k] == route[k];
    }
    assert r[|route|] == q;
  }

  /** A turn keeps the visited tiles; a step adds the new tile. */
  lemma VisitedStep(maze: Maze, p: Position, q: Position)
    requires Consistent(maze, p) && q in Next(p, maze)
    ensures Elems(q.visited) == Elems(p.visited) + {q.coordinates}
  {
    NextMembers(maze, p, q);
    if IsTurn(p, q) {
      assert q.coordinates == p.visited[|p.visited| - 1];
    } else {
      assert Elems(q.visited) == Elems(p.visited) + {q.coordinates};
    }
  }

  /** The visited tiles of a route's last position are the tiles it stood on. */
  lemma {:induction false} RouteVisited(maze: Maze, route: seq<Position>)
    requires IsRoute(maze, route)
    ensures Elems(Last(route).visited) == Stood(route)
  {
    if |route| == 1 {
      assert Elems(Last(route).visited) == {maze.start};
      assert route[0].coordinates == maze.start;
    } else {
      var front := route[..|route| - 1];
      assert IsRoute(maze, front);
      assert route == front + [Last(route)];
      hide IsRoute, Next, Consistent;
      RouteVisited(maze, front);
      RouteConsistent(maze, front);
      VisitedStep(maze, Last(front), Last(route));
      StoodAppend(front, Last(route));
    }
  }

  // ---- The queue order ----

  datatype Ordering = Less | Equal | Greater

  function Cmp(x: nat, y: nat): Ordering
  {
    if x < y then Less else if x == y then Equal else Greater
  }

  function Then(first: Ordering, second: Ordering): Ordering
  {
    if first == Equal then second else first
  }

  /** a is taken off the queue before b: a lower score, or the same score
      and nearer the end. */
  predicate PopsBefore(a: Position, b: Position)
  {
    a.score < b.score || (a.score == b.score && a.distance < b.distance)
  }

  /** `Ord for Position`: reversed on the score, then reversed on the
      distance, so that the max-heap pops the lowest score first. */
  function Compare(a: Position, b: Position): (o: Ordering)
    ensures o == Greater <==> PopsBefore(a, b)
    ensures o == Less <==> PopsBefore(b, a)
    ensures o == Equal <==> a.score == b.score && a.distance == b.distance
  {
    Then(Cmp(b.score, a.score), Cmp(b.distance, a.distance))
  }

  lemma CompareAntisymmetric(a: Position, b: Position)
    ensures Compare(a, b) == Greater <==> Compare(b, a) == Less
  {
  }

  lemma PopsBeforeTransitive(a: Position, b: Position, c: Position)
    requires PopsBefore(a, b) && PopsBefore(b, c)
    ensures PopsBefore(a, c)
  {
  }

  /** `BinaryHeap::pop` on a queue kept as a sequence: the index of an
      element no other is ordered above. */
  method Greatest(heap: seq<Position>) returns (i: nat)
    requires heap != []
    ensures i < |heap| && forall x :: x in heap ==> !PopsBefore(x, heap[i])
  {
    i := 0;
    var k := 1;
    while k < |heap|
      invariant i < k <= |heap|
      invariant forall j :: 0 <= j < k ==> !PopsBefore(heap[j], heap[i])
    {
      if Compare(heap[k], heap[i]) == Greater {
        i := k;
      }
      k := k + 1;
    }
  }

  function Remove<T>(s: seq<T>, i: nat): (r: seq<T>)
    requires i < |s|
    ensures |r| == |s| - 1 && multiset(r) + multiset{s[i]} == multiset(s)
  {
    assert s == s[..i] + [s[i]] + s[i + 1..];
    s[..i] + s[i + 1..]
  }

  lemma RemoveMembers<T>(s: seq<T>, i: nat, x: T)
    requires i < |s| && x in Remove(s, i)
    ensures x in s
  {
    assert x in multiset(Remove(s, i));
  }

  /** Positions leave the queue in order of score. */
  ghost predicate ScoresAscend(popped: seq<Position>)
  {
    forall i, j :: 0 <= i < j < |popped| ==> popped[i].score <= popped[j].score
  }

  lemma AscendPush(popped: seq<Position>, floor: nat, p: Position)
    requires ScoresAscend(popped) && (forall x :: x in popped ==> x.score <= floor) && floor <= p.score
    ensures ScoresAscend(popped + [p]) && forall x :: x in popped + [p] ==> x.score <= p.score
  {
    var s := popped + [p];
    forall i, j | 0 <= i < j < |s|
      ensures s[i].score <= s[j].score
    {
      assert s[i] == popped[i] && popped[i] in popped;
      if j < |popped| {
        assert s[j] == popped[j];
      }
    }
  }

  lemma AscendStart()
    ensures ScoresAscend([])
  {
  }

  /** The tiles the search can stand on. */
  function Area(maze: Maze): set<Coordinates>
  {
    (set r: nat, c: nat | r < maze.bounds.0 && c < maze.bounds.1 :: (r, c)) + {maze.start}
  }

  lemma ConsistentInArea(maze: Maze, p: Position)
    requires Consistent(maze, p)
    ensures p.coordinates in Area(maze)
  {
    var k := |p.visited| - 1;
    if k > 0 {
      assert Open(maze, p.visited[k]);
    }
  }

  /** What the queue of the search holds: each position with a route that
      reaches it, with a score no lower than the last one popped. */
  ghost predicate Queued(maze: Maze, heap: seq<Position>, routes: seq<seq<Position>>, floor: nat)
  {
    && |routes| == |heap|
    && (forall i :: 0 <= i < |heap| ==> IsRoute(maze, routes[i]) && Last(routes[i]) == heap[i])
    && (forall p :: p in heap ==> floor <= p.score)
  }

  lemma QueuedStart(maze: Maze)
    ensures Queued(maze, [StartingPosition(maze)], [[StartingPosition(maze)]], 0)
  {
    RouteStart(maze);
  }

  lemma QueuedPop(maze: Maze, heap: seq<Position>, routes: seq<seq<Position>>, floor: nat, i: nat)
    requires Queued(maze, heap, routes, floor) && i < |heap|
    requires forall x :: x in heap ==> !PopsBefore(x, heap[i])
    ensures floor <= heap[i].score && i < |routes|
    ensures IsRoute(maze, routes[i]) && Last(routes[i]) == heap[i]
    ensures Consistent(maze, heap[i]) && heap[i].coordinates in Area(maze)
    ensures Queued(maze, Remove(heap, i), Remove(routes, i), heap[i].score)
  {
    RouteConsistent(maze, routes[i]);
    ConsistentInArea(maze, heap[i]);
    var rest := Remove(heap, i);
    forall p | p in rest
      ensures heap[i].score <= p.score
    {
      RemoveMembers(heap, i, p);
    }
    forall j | 0 <= j < |rest|
      ensures IsRoute(maze, Remove(routes, i)[j]) && Last(Remove(routes, i)[j]) == rest[j]
    {
      if j < i {
        assert rest[j] == heap[j] && Remove(routes, i)[j] == routes[j];
      } else {
        assert rest[j] == heap[j + 1] && Remove(routes, i)[j] == routes[j + 1];
      }
    }
  }

  lemma QueuedPush(maze: Maze, heap: seq<Position>, routes: seq<seq<Position>>, floor: nat, route: seq<Position>, q: Position)
    requires Queued(maze, heap, routes, floor)
    requires IsRoute(maze, route) && q in Next(Last(route), maze) && floor <= q.score
    ensures Queued(maze, heap + [q], routes + [route + [q]], floor)
  {
    RouteExtend(maze, route, q);
  }

  // ---- Part 1: the lowest scoring route ----

  /** The (tile, facing) pairs the search can mark as visited. */
  function Keys(maze: Maze): set<(Coordinates, Facing)>
  {
    set c, f | c in Area(maze) && f in Facings :: (c, f)
  }

  lemma NextInKeys(maze: Maze, p: Position, q: Position)
    requires p.coordinates in Area(maze) && q in Next(p, maze)
    ensures (q.coordinates, q.facing) in Keys(maze)
  {
    NextMembers(maze, p, q);
    assert q.facing in Facings;
  }

  /** Marking one more key leaves one fewer unmarked. */
  lemma MarkKey<K>(keys: set<K>, before: set<K>, marked: set<K>, key: K)
    requires before <= marked <= keys && key in keys - marked
    ensures |keys - (marked + {key})| + |(marked + {key}) - before| == |keys - marked| + |marked - before|
  {
    assert keys - marked == (keys - (marked + {key})) + {key};
    assert (marked + {key}) - before == (marked - before) + {key};
  }

  /** `Maze::lowest_scoring_route`: pops positions lowest score first, marks
      each (tile, facing) pair when it first queues a position for it, and
      answers the score of the first position popped on the end tile; None
      where the source panics because the queue ran dry. The ghost results
      are the positions in the order they were popped and a route to the
      answer. */
  method LowestScoringRoute(maze: Maze) returns (result: Option<nat>, ghost popped: seq<Position>, ghost route: seq<Position>)
    ensures ScoresAscend(popped)
    ensures forall k :: 0 <= k < |popped| - 1 ==> popped[k].coordinates != maze.end
    ensures result.None? ==> forall p :: p in popped ==> p.coordinates != maze.end
    ensures result.Some? ==> popped != [] && Last(popped).coordinates == maze.end && Last(popped).score == result.value
    ensures result.Some? ==> IsRoute(maze, route) && Last(route).coordinates == maze.end && Last(route).score == result.value
  {
    hide IsRoute, Queued, Next, Keys, Area, Remove, ScoresAscend, Consistent, StartingPosition;
    var heap := [StartingPosition(maze)];
    ghost var routes := [[StartingPosition(maze)]];
    ghost var floor: nat := 0;
    QueuedStart(maze);
    var visited: set<(Coordinates, Facing)> := {};
    popped := [];
    route := [];
    AscendStart();
    while heap != []
      invariant Queued(maze, heap, routes, floor)
      invariant visited <= Keys(maze)
      invariant ScoresAscend(popped) && forall p :: p in popped ==> p.score <= floor
      invariant forall p :: p in popped ==> p.coordinates != maze.end
      decreases |Keys(maze) - visited|, |heap|
    {
      var i := Greatest(heap);
      var curr := heap[i];
      QueuedPop(maze, heap, routes, floor, i);
      ghost var currRoute := routes[i];
      AscendPush(popped, floor, curr);
      heap, routes, floor := Remove(heap, i), Remove(routes, i), curr.score;
      popped := popped + [curr];
      if curr.coordinates == maze.end {
        route := currRoute;
        assert Last(popped) == curr;
        return Some(curr.score), popped, route;
      }
      var nexts := Next(curr, maze);
      ghost var heap0, visited0 := heap, visited;
      var k := 0;
      while k < |nexts|
        invariant k <= |nexts|
        invariant Queued(maze, heap, routes, floor)
        invariant visited0 <= visited <= Keys(maze)
        invariant |Keys(maze) - visited| + |visited - visited0| == |Keys(maze) - visited0|
        invariant |heap| - |heap0| == |visited - visited0|
      {
        var next := nexts[k];
        NextInKeys(maze, curr, next);
        var key := (next.coordinates, next.facing);
        if key !in visited {
          QueuedPush(maze, heap, routes, floor, currRoute, next);
          MarkKey(Keys(maze), visited0, visited, key);
          visited := visited + {key};
          heap := heap + [next];
          routes := routes + [currRoute + [next]];
        }
        k := k + 1;
      }
    }
    return None, popped, route;
  }

  // ---- Part 2: the tiles on the best routes ----

  const U32Max: nat := 0xFFFF_FFFF

  /** Positions are queued only from one scoring below `u32::MAX`, and a
      move adds at most 1000, so queued scores stay below this bound. */
  const ScoreBound: nat := U32Max + 1000

  function Pow4(n: nat): (r: nat)
    ensures r >= 1
  {
    if n == 0 then 1 else 4 * Pow4(n - 1)
  }

  lemma {:induction false} Pow4Monotone(a: nat, b: nat)
    requires a <= b
    ensures Pow4(a) <= Pow4(b)
    decreases b
  {
    if a < b {
      Pow4Monotone(a, b - 1);
    }
  }

  /** The weight of a queued position: four times that of one scoring one
      more. Popping a position and queueing at most three that score more
      lowers the queue's total weight. */
  function Weight(p: Position): (w: nat)
    ensures w >= 1
  {
    if p.score <= ScoreBound then Pow4(ScoreBound - p.score) else 1
  }

  function Weights(heap: seq<Position>): seq<nat>
  {
    seq(|heap|, k requires 0 <= k < |heap| => Weight(heap[k]))
  }

  function HeapWeight(heap: seq<Position>): nat
  {
    Sum(Weights(heap))
  }

  lemma HeapWeightRemove(heap: seq<Position>, i: nat)
    requires i < |heap|
    ensures HeapWeight(Remove(heap, i)) + Weight(heap[i]) == HeapWeight(heap)
  {
    var w := Weights(heap);
    assert Weights(Remove(heap, i)) == w[..i] + w[i + 1..];
    assert w == w[..i] + [w[i]] + w[i + 1..];
    SumAppend(w[..i], w[i + 1..]);
    SumAppend(w[..i] + [w[i]], w[i + 1..]);
    SumAppend(w[..i], [w[i]]);
  }

  lemma HeapWeightPush(heap: seq<Position>, q: Position)
    ensures HeapWeight(heap + [q]) == HeapWeight(heap) + Weight(q)
  {
    assert Weights(heap + [q]) == Weights(heap) + [Weight(q)];
    SumAppend(Weights(heap), [Weight(q)]);
  }

  lemma WeightBelowBound(p: Position)
    requires p.score <= ScoreBound
    ensures Weight(p) == Pow4(ScoreBound - p.score)
  {
  }

  lemma AtMostThree(k: nat, w: nat)
    requires k <= 3
    ensures k * w <= 3 * w
  {
  }

  /** A position scoring more than s weighs at most a quarter of one scoring s. */
  lemma WeightOfLater(q: Position, s: nat)
    requires s < q.score <= ScoreBound
    ensures Weight(q) * 4 <= Pow4(ScoreBound - s)
  {
    Pow4Monotone(ScoreBound - q.score, ScoreBound - s - 1);
  }

  /** The tiles of the routes recorded, each counted once. */
  function Tiles(routes: seq<seq<Coordinates>>): set<Coordinates>
  {
    set route, c | route in routes && c in route :: c
  }

  /** The tiles the routes stand on. */
  ghost function BestTiles(best: seq<seq<Position>>): set<Coordinates>
  {
    set route, c | route in best && c in Stood(route) :: c
  }

  /** What the best routes found so far satisfy. */
  ghost predicate Best(maze: Maze, routes: seq<seq<Coordinates>>, best: seq<seq<Position>>, lowest: nat)
  {
    && |routes| == |best|
    && forall i :: 0 <= i < |best| ==>
         && IsRoute(maze, best[i]) && Last(best[i]).coordinates == maze.end
         && Last(best[i]).score == lowest && routes[i] == Last(best[i]).visited
  }

  lemma BestEmpty(maze: Maze, lowest: nat)
    ensures Best(maze, [], [], lowest)
  {
  }

  lemma BestAdd(maze: Maze, routes: seq<seq<Coordinates>>, best: seq<seq<Position>>, lowest: nat, route: seq<Position>)
    requires Best(maze, routes, best, lowest)
    requires IsRoute(maze, route) && Last(route).coordinates == maze.end && Last(route).score == lowest
    ensures Best(maze, routes + [Last(route).visited], best + [route], lowest)
  {
  }

  /** Counting the recorded tiles counts the tiles the best routes stand on. */
  lemma TilesOfBest(maze: Maze, routes: seq<seq<Coordinates>>, best: seq<seq<Position>>, lowest: nat)
    requires Best(maze, routes, best, lowest)
    ensures Tiles(routes) == BestTiles(best)
  {
    forall c | c in Tiles(routes)
      ensures c in BestTiles(best)
    {
      var r :| r in routes && c in r;
      var i :| 0 <= i < |routes| && routes[i] == r;
      RouteVisited(maze, best[i]);
      assert c in Elems(Last(best[i]).visited);
      assert best[i] in best;
    }
    forall c | c in BestTiles(best)
      ensures c in Tiles(routes)
    {
      var route :| route in best && c in Stood(route);
      var i :| 0 <= i < |best| && best[i] == route;
      RouteVisited(maze, best[i]);
      assert c in Elems(Last(best[i]).visited);
      assert routes[i] in routes;
    }
  }

  lemma EndsPush(maze: Maze, popped: seq<Position>, lowest: nat, p: Position)
    requires forall x :: x in popped && x.coordinates == maze.end ==> lowest <= x.score
    requires p.coordinates == maze.end ==> lowest <= p.score
    ensures forall x :: x in popped + [p] && x.coordinates == maze.end ==> lowest <= x.score
  {
  }

  /** `Maze::count_visited_by_best_routes`: keeps popping, and queues a
      successor only while the popped score is below the lowest score found
      on the end tile and its (tile, facing) pair has no stored score at or
      below the popped one; counts the distinct tiles on the routes that
      reached the end with the lowest score. The ghost results are that
      score, the routes and the positions in the order they were popped. */
  method CountVisitedByBestRoutes(maze: Maze) returns (count: nat, ghost lowest: nat, ghost best: seq<seq<Position>>, ghost popped: seq<Position>)
    ensures lowest <= U32Max && ScoresAscend(popped)
    ensures forall p :: p in popped && p.coordinates == maze.end ==> lowest <= p.score
    ensures forall route :: route in best ==>
      IsRoute(maze, route) && Last(route).coordinates == maze.end && Last(route).score == lowest
    ensures count == |BestTiles(best)|
  {
    hide IsRoute, Queued, Next, Remove, ScoresAscend, Consistent, StartingPosition, Best, HeapWeight, Weight, Pow4, Tiles, BestTiles;
    var heap := [StartingPosition(maze)];
    ghost var trails := [[StartingPosition(maze)]];
    ghost var floor: nat := 0;
    QueuedStart(maze);
    var visited: map<(Coordinates, Facing), nat> := map[];
    var lowestScore: nat := U32Max;
    var routes: seq<seq<Coordinates>> := [];
    best, popped := [], [];
    BestEmpty(maze, lowestScore);
    AscendStart();
    while heap != []
      invariant Queued(maze, heap, trails, floor)
      invariant lowestScore <= U32Max
      invariant Best(maze, routes, best, lowestScore)
      invariant ScoresAscend(popped) && forall p :: p in popped ==> p.score <= floor
      invariant forall p :: p in popped && p.coordinates == maze.end ==> lowestScore <= p.score
      decreases HeapWeight(heap)
    {
      var i := Greatest(heap);
      var curr := heap[i];
      QueuedPop(maze, heap, trails, floor, i);
      ghost var currRoute := trails[i];
      AscendPush(popped, floor, curr);
      HeapWeightRemove(heap, i);
      heap, trails, floor := Remove(heap, i), Remove(trails, i), curr.score;
      if curr.coordinates == maze.end {
        if curr.score < lowestScore {
          lowestScore := curr.score;
          routes, best := [], [];
          BestEmpty(maze, lowestScore);
        }
        if curr.score == lowestScore {
          BestAdd(maze, routes, best, lowestScore, currRoute);
          routes, best := routes + [curr.visited], best + [currRoute];
        }
      }
      EndsPush(maze, popped, lowestScore, curr);
      popped := popped + [curr];
      var nexts := Next(curr, maze);
      ghost var heap0 := heap;
      var k := 0;
      while k < |nexts|
        invariant k <= |nexts|
        invariant Queued(maze, heap, trails, floor)
        invariant curr.score >= lowestScore ==> heap == heap0
        invariant curr.score < lowestScore ==> HeapWeight(heap) * 4 <= HeapWeight(heap0) * 4 + k * Pow4(ScoreBound - curr.score)
      {
        var next := nexts[k];
        var key := (next.coordinates, next.facing);
        if curr.score < lowestScore && !(key in visited && visited[key] <= curr.score) {
          QueuedPush(maze, heap, trails, floor, currRoute, next);
          HeapWeightPush(heap, next);
          WeightOfLater(next, curr.score);
          visited := visited[key := next.score];
          heap := heap + [next];
          trails := trails + [currRoute + [next]];
        }
        k := k + 1;
      }
      if curr.score < lowestScore {
        WeightBelowBound(curr);
        AtMostThree(|nexts|, Pow4(ScoreBound - curr.score));
      }
    }
    count := |Tiles(routes)|;
    TilesOfBest(maze, routes, best, lowestScore);
    lowest := lowestScore;
    BestRoutes(maze, routes, best, lowest);
  }

  lemma BestRoutes(maze: Maze, routes: seq<seq<Coordinates>>, best: seq<seq<Position>>, lowest: nat)
    requires Best(maze, routes, best, lowest)
    ensures forall route :: route in best ==>
      IsRoute(maze, route) && Last(route).coordinates == maze.end && Last(route).score == lowest
  {
    forall route | route in best
      ensures IsRoute(maze, route) && Last(route).coordinates == maze.end && Last(route).score == lowest
    {
      var i :| 0 <= i < |best| && best[i] == route;
    }
  }

  // ---- Parsing ----

  /** What `parse_input` makes of the lines of the picture: hedges at '#',
      the start at the last 'S', the end at the last 'E' (each (0, 0) when
      missing), and bounds one past the largest row and column index. */
  ghost predicate Parses(lines: seq<string>, maze: Maze)
  {
    && maze.hedges == CellsOf(lines, '#')
    && IsLast(CellsOf(lines, 'S'), maze.start)
    && IsLast(CellsOf(lines, 'E'), maze.end)
    && maze.bounds == PictureBounds(lines)
  }

  lemma ParsesUnique(lines: seq<string>, a: Maze, b: Maze)
    requires Parses(lines, a) && Parses(lines, b)
    ensures a == b
  {
    IsLastUnique(CellsOf(lines, 'S'), a.start, b.start);
    IsLastUnique(CellsOf(lines, 'E'), a.end, b.end);
  }

  ghost predicate ReadUpTo(lines: seq<string>, r: nat, c: nat, hedges: set<Coordinates>, start: Coordinates, end: Coordinates)
  {
    && hedges == CellsBefore(lines, '#', r, c)
    && IsLast(CellsBefore(lines, 'S', r, c), start)
    && IsLast(CellsBefore(lines, 'E', r, c), end)
  }

  lemma ReadCell(lines: seq<string>, r: nat, c: nat, hedges: set<Coordinates>, start: Coordinates, end: Coordinates)
    requires r < |lines| && c < |lines[r]|
    requires ReadUpTo(lines, r, c, hedges, start, end)
    ensures lines[r][c] == '#' ==> ReadUpTo(lines, r, c + 1, hedges + {(r, c)}, start, end)
    ensures lines[r][c] == 'S' ==> ReadUpTo(lines, r, c + 1, hedges, (r, c), end)
    ensures lines[r][c] == 'E' ==> ReadUpTo(lines, r, c + 1, hedges, start, (r, c))
    ensures lines[r][c] !in "#SE" ==> ReadUpTo(lines, r, c + 1, hedges, start, end)
  {
    CellsBeforeStep(lines, '#', r, c);
    LastStep(lines, 'S', r, c, start);
    LastStep(lines, 'E', r, c, end);
  }

  /** The inner loop of `parse_input`: the tiles of row r, left to right. */
  method ReadRow(lines: seq<string>, r: nat, hedges0: set<Coordinates>, start0: Coordinates, end0: Coordinates, maxC0: nat)
    returns (hedges: set<Coordinates>, start: Coordinates, end: Coordinates, maxC: nat)
    requires r < |lines|
    requires ReadUpTo(lines, r, 0, hedges0, start0, end0)
    requires maxC0 + 1 == Max(Width(lines[..r]), 1)
    ensures ReadUpTo(lines, r, |lines[r]|, hedges, start, end)
    ensures maxC + 1 == Max(Width(lines[..r + 1]), 1)
  {
    hide ReadUpTo, CellsBefore, IsLast;
    hedges, start, end, maxC := hedges0, start0, end0, maxC0;
    var row := lines[r];
    var c := 0;
    while c < |row|
      invariant c <= |row|
      invariant ReadUpTo(lines, r, c, hedges, start, end)
      invariant maxC + 1 == Max(Max(Width(lines[..r]), c), 1)
    {
      ReadCell(lines, r, c, hedges, start, end);
      match row[c] {
        case '#' => hedges := hedges + {(r, c)};
        case 'S' => start := (r, c);
        case 'E' => end := (r, c);
        case _ =>
      }
      maxC := Max(maxC, c);
      c := c + 1;
    }
    assert lines[..r + 1][..r] == lines[..r];
  }

  /** `parse_input`: reads the picture tile by tile in reading order. */
  method ParseInput(input: string) returns (maze: Maze)
    ensures Parses(Lines(input), maze)
  {
    var lines := Lines(input);
    var hedges: set<Coordinates> := {};
    var start: Coordinates := (0, 0);
    var end: Coordinates := (0, 0);
    var maxR: nat := 0;
    var maxC: nat := 0;
    var r := 0;
    while r < |lines|
      invariant r <= |lines|
      invariant ReadUpTo(lines, r, 0, hedges, start, end)
      invariant maxR + 1 == Max(r, 1)
      invariant maxC + 1 == Max(Width(lines[..r]), 1)
    {
      hedges, start, end, maxC := ReadRow(lines, r, hedges, start, end, maxC);
      CellsBeforeRow(lines, '#', r);
      CellsBeforeRow(lines, 'S', r);
      CellsBeforeRow(lines, 'E', r);
      maxR := Max(maxR, r);
      r := r + 1;
    }
    CellsBeforeAll(lines, '#');
    CellsBeforeAll(lines, 'S');
    CellsBeforeAll(lines, 'E');
    assert lines[..r] == lines;
    maze := Maze(hedges, start, end, (maxR + 1, maxC + 1));
  }
}
