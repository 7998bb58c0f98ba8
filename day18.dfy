/** Day 18: bytes fall one by one onto a square memory space and corrupt
    the cells they land on. Part one searches for a shortest route from
    the top-left corner to the bottom-right corner once a number of bytes
    have fallen (A*, with the Manhattan distance as the estimate); part two
    finds the first byte that cuts the exit off, re-running the search only
    when a byte lands on the current route. */
module Day18 {
  import opened Common

  /** (row, column); both are `u8` in the source. */
  type Coordinates = (nat, nat)

  /** Every route starts in the top-left corner. */
  const Start: Coordinates := (0, 0)

  function AbsDiff(a: nat, b: nat): nat
  {
    if a < b then b - a else a - b
  }

  /** `manhattan_distance`, computed without a width limit. */
  function Manhattan(a: Coordinates, b: Coordinates): (d: nat)
    ensures d == 0 <==> a == b
  {
    AbsDiff(a.0, b.0) + AbsDiff(a.1, b.1)
  }

  lemma ManhattanSymmetric(a: Coordinates, b: Coordinates)
    ensures Manhattan(a, b) == Manhattan(b, a)
  {
  }

  lemma ManhattanTriangle(a: Coordinates, b: Coordinates, c: Coordinates)
    ensures Manhattan(a, c) <= Manhattan(a, b) + Manhattan(b, c)
  {
  }

  /** Cells one step apart. */
  predicate Adjacent(a: Coordinates, b: Coordinates)
  {
    Manhattan(a, b) == 1
  }

  /** `manhattan_distance` as written: the two differences are `u8` and so
      is their sum, which overflows (a panic) from 256 on, before the
      cast to `u32`. */
  function ManhattanAsWritten(a: Coordinates, b: Coordinates): (r: Option<nat>)
    ensures r.Some? ==> r.value == Manhattan(a, b)
  {
    var sum := AbsDiff(a.0, b.0) + AbsDiff(a.1, b.1);
    if sum < U8Limit then Some(sum) else None
  }

  /** With both cells in a grid below 128 the `u8` sum never overflows. */
  lemma ManhattanAsWrittenAgrees(a: Coordinates, b: Coordinates)
    requires a.0 < 128 && a.1 < 128 && b.0 < 128 && b.1 < 128
    ensures ManhattanAsWritten(a, b) == Some(Manhattan(a, b))
  {
  }

  /** For a memory space of size 128 the estimate of the starting
      position already overflows. */
  lemma ManhattanOverflows()
    ensures ManhattanAsWritten(Start, (128, 128)).None?
    ensures Manhattan(Start, (128, 128)) == 256
  {
  }

  /** `u8::checked_add_signed`: None when the sum leaves 0..=255. */
  function CheckedAddSigned(x: nat, delta: int): (r: Option<nat>)
    ensures r.Some? <==> 0 <= x + delta < U8Limit
    ensures r.Some? ==> r.value == x + delta
  {
    if 0 <= x + delta < U8Limit then Some(x + delta) else None
  }

  /** A cell of the square from the start to the goal, inclusive. */
  predicate InArea(c: Coordinates, goal: Coordinates)
  {
    c.0 <= goal.0 && c.1 <= goal.1
  }

  /** `step`: the cell `delta` away, if it is on the grid and within the
      (inclusive) bounds. */
  function Step(c: Coordinates, delta: (int, int), bounds: Coordinates): (r: Option<Coordinates>)
    ensures bounds.0 < U8Limit && bounds.1 < U8Limit ==>
              (r.Some? <==> 0 <= c.0 + delta.0 <= bounds.0 && 0 <= c.1 + delta.1 <= bounds.1)
    ensures r.Some? ==> r.value.0 == c.0 + delta.0 && r.value.1 == c.1 + delta.1 && InArea(r.value, bounds)
  {
    var r1 := CheckedAddSigned(c.0, delta.0);
    var c1 := CheckedAddSigned(c.1, delta.1);
    if r1.Some? && r1.value <= bounds.0 && c1.Some? && c1.value <= bounds.1 then Some((r1.value, c1.value))
    else None
  }

  /** Up, right, down, left: the order `Position::next` tries them in. */
  const Deltas: seq<(int, int)> := [(-1, 0), (0, 1), (1, 0), (0, -1)]

  /** The cells one step apart are exactly the cells one of the deltas away. */
  lemma AdjacentDelta(a: Coordinates, b: Coordinates)
    ensures Adjacent(a, b) <==> exists k :: 0 <= k < 4 && a.0 + Deltas[k].0 == b.0 && a.1 + Deltas[k].1 == b.1
  {
    if Adjacent(a, b) {
      if b.0 < a.0 {
        assert a.0 + Deltas[0].0 == b.0 && a.1 + Deltas[0].1 == b.1;
      } else if b.1 > a.1 {
        assert a.0 + Deltas[1].0 == b.0 && a.1 + Deltas[1].1 == b.1;
      } else if b.0 > a.0 {
        assert a.0 + Deltas[2].0 == b.0 && a.1 + Deltas[2].1 == b.1;
      } else {
        assert a.0 + Deltas[3].0 == b.0 && a.1 + Deltas[3].1 == b.1;
      }
    }
  }

  // ---- The memory space and positions ----

  /** The bytes in the order they fall, and the bottom-right corner. */
  datatype MemorySpace = MemorySpace(corrupted: seq<Coordinates>, goal: Coordinates)

  /** The goal is a pair of `u8`. */
  predicate ValidGoal(space: MemorySpace)
  {
    space.goal.0 < U8Limit && space.goal.1 < U8Limit
  }

  /** A search state: the current cell, the steps taken, the estimate of
      the steps still needed, and the cells visited on the way. */
  datatype Position = Position(coordinates: Coordinates, travelled: nat, estimate: nat, visited: seq<Coordinates>)

  function Last<T>(s: seq<T>): T
    requires s != []
  {
    s[|s| - 1]
  }

  /** The cells corrupted once the first `bytes` bytes have fallen
      (`take(bytes)`). */
  function Blocked(space: MemorySpace, bytes: nat): set<Coordinates>
  {
    set k | 0 <= k < |space.corrupted| && k < bytes :: space.corrupted[k]
  }

  /** A walk from the start, one step at a time, over cells of the area
      that are not corrupted once `bytes` bytes have fallen. The start
      itself is never checked. */
  predicate Walk(space: MemorySpace, bytes: nat, w: seq<Coordinates>)
  {
    w != [] && w[0] == Start && Path(space, bytes, w)
  }

  /** Consecutive cells one step apart, each onto an open cell. */
  predicate Path(space: MemorySpace, bytes: nat, w: seq<Coordinates>)
  {
    forall k :: 0 < k < |w| ==> StepOk(space, bytes, w[k - 1], w[k])
  }

  /** One step of a walk. */
  predicate StepOk(space: MemorySpace, bytes: nat, a: Coordinates, b: Coordinates)
  {
    Adjacent(a, b) && InArea(b, space.goal) && b !in Blocked(space, bytes)
  }

  /** A step onto the head of a path makes a longer path. */
  lemma PathPrepend(space: MemorySpace, bytes: nat, c: Coordinates, w: seq<Coordinates>)
    requires w != [] && StepOk(space, bytes, c, w[0]) && Path(space, bytes, w)
    ensures Path(space, bytes, [c] + w)
  {
    var v := [c] + w;
    forall k | 0 < k < |v|
      ensures StepOk(space, bytes, v[k - 1], v[k])
    {
      if k > 1 {
        assert v[k - 1] == w[k - 2] && v[k] == w[k - 1];
      }
    }
  }

  /** The four cells next to a cell. */
  lemma AdjacentCases(a: Coordinates, b: Coordinates)
    requires Adjacent(a, b)
    ensures || (b.0 + 1 == a.0 && b.1 == a.1) || (b.0 == a.0 && b.1 == a.1 + 1)
            || (b.0 == a.0 + 1 && b.1 == a.1) || (b.0 == a.0 && b.1 + 1 == a.1)
  {
  }

  ghost predicate Reachable(space: MemorySpace, bytes: nat, c: Coordinates)
  {
    exists w :: Walk(space, bytes, w) && Last(w) == c
  }

  /** What every position the search queues satisfies: its visited cells
      are a walk to its cell, it travelled one step per cell after the
      first, and its estimate is the distance to the goal. */
  predicate IsRoute(space: MemorySpace, bytes: nat, p: Position)
  {
    && Walk(space, bytes, p.visited) && Last(p.visited) == p.coordinates
    && p.travelled == |p.visited| - 1
    && p.estimate == Manhattan(p.coordinates, space.goal)
  }

  /** A walk without its last cell is a walk, and its last step is open. */
  lemma WalkFront(space: MemorySpace, bytes: nat, w: seq<Coordinates>)
    requires Walk(space, bytes, w) && |w| > 1
    ensures Walk(space, bytes, w[..|w| - 1]) && Last(w[..|w| - 1]) == w[|w| - 2]
    ensures StepOk(space, bytes, w[|w| - 2], w[|w| - 1])
  {
    var front := w[..|w| - 1];
    forall k | 0 < k < |front|
      ensures StepOk(space, bytes, front[k - 1], front[k])
    {
      assert front[k - 1] == w[k - 1] && front[k] == w[k];
    }
  }

  /** A walk takes at least as many steps as the distance it covers. */
  lemma {:induction false} WalkLength(space: MemorySpace, bytes: nat, w: seq<Coordinates>)
    requires Walk(space, bytes, w)
    ensures |w| - 1 >= Manhattan(Start, Last(w))
    decreases |w|
  {
    if |w| > 1 {
      WalkFront(space, bytes, w);
      WalkLength(space, bytes, w[..|w| - 1]);
      ManhattanTriangle(Start, w[|w| - 2], w[|w| - 1]);
    }
  }

  /** No route is shorter than the distance from the start: the estimate
      of the start never overstates. */
  lemma RouteLength(space: MemorySpace, bytes: nat, p: Position)
    requires IsRoute(space, bytes, p)
    ensures p.travelled >= Manhattan(Start, p.coordinates)
  {
    WalkLength(space, bytes, p.visited);
  }

  /** `MemorySpace::starting_position`. */
  function StartingPosition(space: MemorySpace): (p: Position)
    ensures forall bytes :: IsRoute(space, bytes, p)
    ensures p.travelled == 0 && p.coordinates == Start
  {
    Position(Start, 0, Manhattan(Start, space.goal), [Start])
  }

  /** The position `delta` away from p, if there is a cell there. */
  function Moved(p: Position, goal: Coordinates, delta: (int, int)): seq<Position>
  {
    match Step(p.coordinates, delta, goal)
    case None => []
    case Some(c) => [Position(c, p.travelled + 1, Manhattan(c, goal), p.visited + [c])]
  }

  /** `Position::next`: a position for each neighbouring cell within the
      bounds, up, right, down, left, with one more step travelled. */
  function Next(p: Position, space: MemorySpace): (r: seq<Position>)
    ensures |r| <= 4
  {
    Moved(p, space.goal, Deltas[0]) + Moved(p, space.goal, Deltas[1])
    + Moved(p, space.goal, Deltas[2]) + Moved(p, space.goal, Deltas[3])
  }

  /** q is p moved one step to a neighbouring cell of the area. */
  predicate IsMove(goal: Coordinates, p: Position, q: Position)
  {
    && Adjacent(p.coordinates, q.coordinates) && InArea(q.coordinates, goal)
    && q.travelled == p.travelled + 1
    && q.estimate == Manhattan(q.coordinates, goal)
    && q.visited == p.visited + [q.coordinates]
  }

  /** A position moved by one of the deltas is a move. */
  lemma MovedIsMove(p: Position, goal: Coordinates, k: nat, q: Position)
    requires k < 4 && q in Moved(p, goal, Deltas[k])
    ensures IsMove(goal, p, q)
  {
  }

  /** A move is the position moved by one of the deltas. */
  lemma MoveIsMoved(p: Position, goal: Coordinates, q: Position)
    requires goal.0 < U8Limit && goal.1 < U8Limit && IsMove(goal, p, q)
    ensures exists k :: 0 <= k < 4 && q in Moved(p, goal, Deltas[k])
  {
    AdjacentDelta(p.coordinates, q.coordinates);
    var k :| 0 <= k < 4 && p.coordinates.0 + Deltas[k].0 == q.coordinates.0 && p.coordinates.1 + Deltas[k].1 == q.coordinates.1;
    assert Moved(p, goal, Deltas[k]) == [q];
  }

  /** The successors are exactly the moves to neighbouring cells. */
  lemma NextMembers(space: MemorySpace, p: Position, q: Position)
    requires ValidGoal(space)
    ensures q in Next(p, space) <==> IsMove(space.goal, p, q)
  {
    var goal := space.goal;
    hide Moved;
    if q in Next(p, space) {
      if q in Moved(p, goal, Deltas[0]) {
        MovedIsMove(p, goal, 0, q);
      } else if q in Moved(p, goal, Deltas[1]) {
        MovedIsMove(p, goal, 1, q);
      } else if q in Moved(p, goal, Deltas[2]) {
        MovedIsMove(p, goal, 2, q);
      } else {
        MovedIsMove(p, goal, 3, q);
      }
    }
    if IsMove(goal, p, q) {
      MoveIsMoved(p, goal, q);
    }
  }

  /** Every neighbouring cell of the area has its successor. */
  lemma NextCovers(space: MemorySpace, p: Position, c: Coordinates)
    requires ValidGoal(space) && Adjacent(p.coordinates, c) && InArea(c, space.goal)
    ensures exists j :: 0 <= j < |Next(p, space)| && Next(p, space)[j].coordinates == c
  {
    var q := Position(c, p.travelled + 1, Manhattan(c, space.goal), p.visited + [c]);
    NextMembers(space, p, q);
  }

  /** A move onto a cell that is not corrupted extends a route. */
  lemma NextRoute(space: MemorySpace, bytes: nat, p: Position, q: Position)
    requires ValidGoal(space) && IsRoute(space, bytes, p) && q in Next(p, space)
    requires q.coordinates !in Blocked(space, bytes)
    ensures IsRoute(space, bytes, q)
  {
    NextMembers(space, p, q);
    var w := q.visited;
    forall k | 0 < k < |w|
      ensures StepOk(space, bytes, w[k - 1], w[k])
    {
      if k < |p.visited| {
        assert w[k - 1] == p.visited[k - 1] && w[k] == p.visited[k];
      }
    }
  }

  // ---- The queue ----

  /** What the queue orders on: steps taken plus the estimate. */
  function Cost(p: Position): nat
  {
    p.travelled + p.estimate
  }

  datatype Ordering = Less | Equal | Greater

  /** `Ord for Position`: reversed on the cost, so the max-heap pops the
      lowest cost first. */
  function Compare(a: Position, b: Position): (o: Ordering)
    ensures o == Greater <==> Cost(a) < Cost(b)
    ensures o == Less <==> Cost(b) < Cost(a)
    ensures o == Equal <==> Cost(a) == Cost(b)
  {
    var (x, y) := (Cost(b), Cost(a));
    if x < y then Less else if x == y then Equal else Greater
  }

  lemma CompareAntisymmetric(a: Position, b: Position)
    ensures Compare(a, b) == Greater <==> Compare(b, a) == Less
  {
  }

  /** A successor never costs less: the estimate drops by at most the one
      step taken, so the cost never falls along a route. */
  lemma NextCostsMore(space: MemorySpace, p: Position, q: Position)
    requires ValidGoal(space) && p.estimate == Manhattan(p.coordinates, space.goal) && q in Next(p, space)
    ensures Cost(p) <= Cost(q)
  {
    NextMembers(space, p, q);
    ManhattanTriangle(p.coordinates, q.coordinates, space.goal);
  }

  /** `BinaryHeap::pop` on a queue kept as a sequence: the index of a
      position of lowest cost. */
  method Greatest(heap: seq<Position>) returns (i: nat)
    requires heap != []
    ensures i < |heap| && forall x :: x in heap ==> Cost(heap[i]) <= Cost(x)
  {
    i := 0;
    var k := 1;
    while k < |heap|
      invariant i < k <= |heap|
      invariant forall j :: 0 <= j < k ==> Cost(heap[i]) <= Cost(heap[j])
    {
      if Compare(heap[k], heap[i]) == Greater {
        i := k;
      }
      k := k + 1;
    }
  }

  function Remove<T>(s: seq<T>, i: nat): (r: seq<T>)
    requires i < |s|
    ensures |r| == |s| - 1 && multiset(r) + multiset{s[i]} == multiset(s)
  {
    assert s == s[..i] + [s[i]] + s[i + 1..];
    s[..i] + s[i + 1..]
  }

  lemma RemoveMembers<T>(s: seq<T>, i: nat, x: T)
    requires i < |s|
    ensures x in s <==> x in Remove(s, i) || x == s[i]
  {
    assert x in multiset(s) <==> x in multiset(Remove(s, i)) + multiset{s[i]};
  }

  // ---- Part 1: the search ----

  /** The cells of the memory space. */
  function Area(goal: Coordinates): set<Coordinates>
  {
    set r: nat, c: nat | r <= goal.0 && c <= goal.1 :: (r, c)
  }

  /** The cells the queue holds positions for. */
  ghost function Cells(heap: seq<Position>): set<Coordinates>
  {
    set p | p in heap :: p.coordinates
  }

  /** Every cell of the area that is not corrupted and is next to e has
      an entry in the map of best distances. */
  ghost predicate NeighboursSeen(space: MemorySpace, bytes: nat, seen: map<Coordinates, nat>, e: Coordinates)
  {
    forall n :: StepOk(space, bytes, e, n) ==> n in seen
  }

  /** The pairs (cell, steps) a shorter entry could still record: the
      termination measure of the search. Each push records a smaller
      number of steps for a cell, which removes at least one pair. */
  function Unrecorded(seen: map<Coordinates, nat>, goal: Coordinates): set<(Coordinates, nat)>
  {
    var area := Area(goal);
    set c, t: nat | c in area && t <= |area| && (c !in seen || t < seen[c]) :: (c, t)
  }


  /** Recording t steps for c, fewer than before, shrinks the measure. */
  lemma RecordShrinks(seen: map<Coordinates, nat>, goal: Coordinates, c: Coordinates, t: nat)
    requires c in Area(goal) && t <= |Area(goal)| && (c !in seen || t < seen[c])
    ensures |Unrecorded(seen[c := t], goal)| < |Unrecorded(seen, goal)|
  {
    var before, after := Unrecorded(seen, goal), Unrecorded(seen[c := t], goal);
    assert (c, t) in before;
    assert after <= before - {(c, t)};
    SubsetCard(after, before - {(c, t)});
  }

  /** The number of steps recorded for any cell, and taken by any queued
      position, is at most the number of cells recorded. */
  ghost predicate StepsBounded(seen: map<Coordinates, nat>, heap: seq<Position>, goal: Coordinates)
  {
    && seen.Keys <= Area(goal)
    && (forall c :: c in seen ==> seen[c] <= |seen|)
    && (forall p :: p in heap ==> p.travelled <= |seen|)
  }

  /** Every queued position is a route. */
  ghost predicate Queued(space: MemorySpace, bytes: nat, heap: seq<Position>)
  {
    forall p :: p in heap ==> IsRoute(space, bytes, p)
  }

  /** Every expanded cell has all its open neighbours recorded. */
  ghost predicate Closed(space: MemorySpace, bytes: nat, seen: map<Coordinates, nat>, expanded: set<Coordinates>)
  {
    forall e :: e in expanded ==> NeighboursSeen(space, bytes, seen, e)
  }

  /** Every recorded cell, and the start, is expanded or queued. */
  ghost predicate Covered(seen: map<Coordinates, nat>, heap: seq<Position>, expanded: set<Coordinates>)
  {
    seen.Keys + {Start} <= expanded + Cells(heap)
  }

  /** What the search keeps true: the three above, and the goal has not
      been expanded. */
  ghost predicate Searching(space: MemorySpace, bytes: nat, heap: seq<Position>, seen: map<Coordinates, nat>, expanded: set<Coordinates>)
  {
    && Queued(space, bytes, heap)
    && Closed(space, bytes, seen, expanded)
    && Covered(seen, heap, expanded)
    && space.goal !in expanded
  }

  /** A set of cells holding the start and every open neighbour of its
      cells holds every reachable cell. */
  lemma {:induction false} ClosedHoldsReachable(space: MemorySpace, bytes: nat, closed: set<Coordinates>, w: seq<Coordinates>)
    requires Start in closed
    requires forall e, n :: e in closed && StepOk(space, bytes, e, n) ==> n in closed
    requires Walk(space, bytes, w)
    ensures Last(w) in closed
    decreases |w|
  {
    if |w| > 1 {
      WalkFront(space, bytes, w);
      ClosedHoldsReachable(space, bytes, closed, w[..|w| - 1]);
    }
  }

  /** A cell outside such a closed set cannot be reached. */
  lemma ClosedCutsOff(space: MemorySpace, bytes: nat, closed: set<Coordinates>, c: Coordinates)
    requires Start in closed && c !in closed
    requires forall e, n :: e in closed && StepOk(space, bytes, e, n) ==> n in closed
    ensures !Reachable(space, bytes, c)
  {
    if Reachable(space, bytes, c) {
      var w :| Walk(space, bytes, w) && Last(w) == c;
      ClosedHoldsReachable(space, bytes, closed, w);
    }
  }

  lemma SearchStart(space: MemorySpace, bytes: nat)
    ensures Searching(space, bytes, [StartingPosition(space)], map[], {})
    ensures StepsBounded(map[], [StartingPosition(space)], space.goal)
  {
    assert Cells([StartingPosition(space)]) == {Start};
  }

  /** Taking the i-th position off the queue: its cell is expanded and
      the rest stay queued. */
  lemma SearchPop(space: MemorySpace, bytes: nat, heap: seq<Position>, seen: map<Coordinates, nat>, expanded: set<Coordinates>, i: nat)
    requires Queued(space, bytes, heap) && Covered(seen, heap, expanded) && i < |heap|
    ensures IsRoute(space, bytes, heap[i])
    ensures Queued(space, bytes, Remove(heap, i))
    ensures Covered(seen, Remove(heap, i), expanded + {heap[i].coordinates})
    ensures forall p :: p in Remove(heap, i) ==> p in heap
  {
    var rest := Remove(heap, i);
    forall p | p in rest
      ensures IsRoute(space, bytes, p) && p in heap
    {
      RemoveMembers(heap, i, p);
    }
    forall c | c in Cells(heap)
      ensures c in Cells(rest) + {heap[i].coordinates}
    {
      var p :| p in heap && p.coordinates == c;
      RemoveMembers(heap, i, p);
    }
  }

  /** Queuing a route position for a cell and recording its steps. */
  lemma SearchPush(space: MemorySpace, bytes: nat, heap: seq<Position>, seen: map<Coordinates, nat>,
                   closed: set<Coordinates>, covered: set<Coordinates>, q: Position)
    requires Queued(space, bytes, heap) && Closed(space, bytes, seen, closed) && Covered(seen, heap, covered)
    requires IsRoute(space, bytes, q)
    ensures Queued(space, bytes, heap + [q])
    ensures Closed(space, bytes, seen[q.coordinates := q.travelled], closed)
    ensures Covered(seen[q.coordinates := q.travelled], heap + [q], covered)
  {
    assert Cells(heap + [q]) == Cells(heap) + {q.coordinates};
  }

  /** A cell whose open neighbours are all recorded joins the closed ones. */
  lemma CloseCell(space: MemorySpace, bytes: nat, seen: map<Coordinates, nat>, expanded: set<Coordinates>, c: Coordinates)
    requires Closed(space, bytes, seen, expanded) && NeighboursSeen(space, bytes, seen, c)
    ensures Closed(space, bytes, seen, expanded + {c})
  {
  }

  lemma InAreaMember(c: Coordinates, goal: Coordinates)
    requires InArea(c, goal)
    ensures c in Area(goal)
  {
  }

  /** Taking a position off the queue keeps the step bounds. */
  lemma PopBounded(seen: map<Coordinates, nat>, heap: seq<Position>, goal: Coordinates, i: nat)
    requires StepsBounded(seen, heap, goal) && i < |heap|
    ensures StepsBounded(seen, Remove(heap, i), goal) && heap[i].travelled <= |seen|
  {
    forall p | p in Remove(heap, i)
      ensures p in heap
    {
      RemoveMembers(heap, i, p);
    }
  }

  /** Recording a cell keeps the step bounds. */
  lemma BoundsPush(seen: map<Coordinates, nat>, heap: seq<Position>, goal: Coordinates, q: Position)
    requires StepsBounded(seen, heap, goal) && q.coordinates in Area(goal)
    requires q.travelled <= |seen| + 1
    requires q.coordinates in seen ==> q.travelled < seen[q.coordinates]
    ensures StepsBounded(seen[q.coordinates := q.travelled], heap + [q], goal)
    ensures q.travelled <= |Area(goal)|
    ensures |seen| <= |seen[q.coordinates := q.travelled]|
  {
    var after := seen[q.coordinates := q.travelled];
    if q.coordinates in seen {
      assert after.Keys == seen.Keys;
    } else {
      assert after.Keys == seen.Keys + {q.coordinates};
    }
    SubsetCard(after.Keys, Area(goal));
  }

  /** The cells of a route are reachable. */
  lemma RouteReachable(space: MemorySpace, bytes: nat, p: Position)
    requires IsRoute(space, bytes, p)
    ensures Reachable(space, bytes, p.coordinates)
  {
  }

  /** Once all the successors of a popped position are blocked or
      recorded, every open neighbour of its cell is recorded. */
  lemma ExpandedSeen(space: MemorySpace, bytes: nat, curr: Position, seen: map<Coordinates, nat>, nexts: seq<Position>)
    requires ValidGoal(space) && nexts == Next(curr, space)
    requires forall j :: 0 <= j < |nexts| ==> nexts[j].coordinates in Blocked(space, bytes) || nexts[j].coordinates in seen
    ensures NeighboursSeen(space, bytes, seen, curr.coordinates)
  {
    forall n | StepOk(space, bytes, curr.coordinates, n)
      ensures n in seen
    {
      NextCovers(space, curr, n);
    }
  }

  /** With the queue empty, the expanded cells are closed under steps and
      hold the start but not the goal, so the goal cannot be reached. */
  lemma NoRouteLeft(space: MemorySpace, bytes: nat, seen: map<Coordinates, nat>, expanded: set<Coordinates>)
    requires Searching(space, bytes, [], seen, expanded)
    ensures !Reachable(space, bytes, space.goal)
  {
    assert Cells([]) == {};
    forall e, n | e in expanded && StepOk(space, bytes, e, n)
      ensures n in expanded
    {
      assert NeighboursSeen(space, bytes, seen, e);
    }
    ClosedCutsOff(space, bytes, expanded, space.goal);
  }

  /** The inner loop of `steps_to_goal`: queue each successor of curr on
      a cell that is not corrupted, unless an entry for its cell records
      as few steps, and record its steps. */
  method PushNext(space: MemorySpace, bytes: nat, blocked: set<Coordinates>, curr: Position,
                  heap: seq<Position>, seen: map<Coordinates, nat>, ghost expanded: set<Coordinates>)
    returns (heap': seq<Position>, seen': map<Coordinates, nat>)
    requires ValidGoal(space) && blocked == Blocked(space, bytes) && IsRoute(space, bytes, curr)
    requires Queued(space, bytes, heap) && Closed(space, bytes, seen, expanded)
    requires Covered(seen, heap, expanded + {curr.coordinates})
    requires StepsBounded(seen, heap, space.goal) && curr.travelled <= |seen|
    ensures Queued(space, bytes, heap') && Closed(space, bytes, seen', expanded + {curr.coordinates})
    ensures Covered(seen', heap', expanded + {curr.coordinates})
    ensures StepsBounded(seen', heap', space.goal)
    ensures |Unrecorded(seen', space.goal)| < |Unrecorded(seen, space.goal)|
            || (|Unrecorded(seen', space.goal)| == |Unrecorded(seen, space.goal)| && heap' == heap)
  {
    hide IsRoute, NeighboursSeen, Cells, Unrecorded, Area, Next, Queued, Closed, Covered, StepsBounded, Blocked;
    heap', seen' := heap, seen;
    var nexts := Next(curr, space);
    for k := 0 to |nexts|
      invariant Queued(space, bytes, heap') && Closed(space, bytes, seen', expanded)
      invariant Covered(seen', heap', expanded + {curr.coordinates})
      invariant StepsBounded(seen', heap', space.goal) && curr.travelled <= |seen'|
      invariant forall j :: 0 <= j < k ==> nexts[j].coordinates in blocked || nexts[j].coordinates in seen'
      invariant |Unrecorded(seen', space.goal)| < |Unrecorded(seen, space.goal)|
                || (|Unrecorded(seen', space.goal)| == |Unrecorded(seen, space.goal)| && heap' == heap)
    {
      var next := nexts[k];
      if next.coordinates !in blocked && !(next.coordinates in seen' && seen'[next.coordinates] <= next.travelled) {
        NextMembers(space, curr, next);
        NextRoute(space, bytes, curr, next);
        InAreaMember(next.coordinates, space.goal);
        BoundsPush(seen', heap', space.goal, next);
        RecordShrinks(seen', space.goal, next.coordinates, next.travelled);
        SearchPush(space, bytes, heap', seen', expanded, expanded + {curr.coordinates}, next);
        seen' := seen'[next.coordinates := next.travelled];
        heap' := heap' + [next];
      }
    }
    ExpandedSeen(space, bytes, curr, seen', nexts);
    CloseCell(space, bytes, seen', expanded, curr.coordinates);
  }

  /** `MemorySpace::steps_to_goal`: A* from the top-left corner, with the
      first `bytes` bytes corrupted. Positions leave the queue lowest cost
      first; a neighbour is queued when no entry for its cell records as
      few steps. The answer is the first position popped on the goal, and
      None exactly when no walk reaches the goal. */
  method StepsToGoal(space: MemorySpace, bytes: nat) returns (result: Option<Position>)
    requires ValidGoal(space)
    ensures result.Some? ==> IsRoute(space, bytes, result.value) && result.value.coordinates == space.goal
    ensures result.Some? <==> Reachable(space, bytes, space.goal)
  {
    hide IsRoute, NeighboursSeen, Cells, Unrecorded, Area, Next, Remove, StartingPosition, Queued, Closed, Covered, StepsBounded;
    var blocked := Blocked(space, bytes);
    var heap := [StartingPosition(space)];
    var seen: map<Coordinates, nat> := map[];
    ghost var expanded: set<Coordinates> := {};
    SearchStart(space, bytes);
    while heap != []
      invariant Searching(space, bytes, heap, seen, expanded)
      invariant StepsBounded(seen, heap, space.goal)
      decreases |Unrecorded(seen, space.goal)|, |heap|
    {
      var i := Greatest(heap);
      var curr := heap[i];
      SearchPop(space, bytes, heap, seen, expanded, i);
      if curr.coordinates == space.goal {
        RouteReachable(space, bytes, curr);
        return Some(curr);
      }
      PopBounded(seen, heap, space.goal, i);
      heap, seen := PushNext(space, bytes, blocked, curr, Remove(heap, i), seen, expanded);
      expanded := expanded + {curr.coordinates};
    }
    NoRouteLeft(space, bytes, seen, expanded);
    return None;
  }

  // ---- Part 2: the first byte that cuts the exit off ----

  /** Fewer fallen bytes block a subset of the cells. */
  lemma BlockedFewer(space: MemorySpace, n: nat, m: nat)
    requires n <= m
    ensures Blocked(space, n) <= Blocked(space, m)
  {
  }

  /** A walk past the first m bytes also passes the first n <= m. */
  lemma WalkFewer(space: MemorySpace, n: nat, m: nat, w: seq<Coordinates>)
    requires n <= m && Walk(space, m, w)
    ensures Walk(space, n, w)
  {
    BlockedFewer(space, n, m);
  }

  /** One more byte blocks one more cell. */
  lemma BlockedStep(space: MemorySpace, n: nat)
    requires n < |space.corrupted|
    ensures Blocked(space, n + 1) == Blocked(space, n) + {space.corrupted[n]}
  {
  }

  /** The cells blocked by the first n bytes are those of the prefix. */
  lemma BlockedPrefix(space: MemorySpace, n: nat)
    requires n <= |space.corrupted|
    ensures forall x :: x in Blocked(space, n) <==> x in space.corrupted[..n]
  {
    forall x | x in space.corrupted[..n]
      ensures x in Blocked(space, n)
    {
      var k :| 0 <= k < n && space.corrupted[..n][k] == x;
      assert space.corrupted[k] == x;
    }
  }

  /** A route past more bytes is a route past fewer. */
  lemma RouteFewer(space: MemorySpace, n: nat, m: nat, p: Position)
    requires n <= m && IsRoute(space, m, p)
    ensures IsRoute(space, n, p)
  {
    WalkFewer(space, n, m, p.visited);
  }

  /** Reachability only gets lost as bytes fall. */
  lemma ReachableFewer(space: MemorySpace, n: nat, m: nat, c: Coordinates)
    requires n <= m
    ensures Reachable(space, m, c) ==> Reachable(space, n, c)
  {
    if Reachable(space, m, c) {
      var w :| Walk(space, m, w) && Last(w) == c;
      WalkFewer(space, n, m, w);
    }
  }

  /** Past the byte that cuts a cell off, more bytes never open it again,
      and before it every count leaves the cell reachable: the cut-off is
      unique. */
  lemma CutOffUnique(space: MemorySpace, n: nat, c: Coordinates)
    requires Reachable(space, n, c) && !Reachable(space, n + 1, c)
    ensures forall m: nat :: m <= n ==> Reachable(space, m, c)
    ensures forall m: nat :: m > n ==> !Reachable(space, m, c)
  {
    forall m: nat | m <= n
      ensures Reachable(space, m, c)
    {
      ReachableFewer(space, m, n, c);
    }
    forall m: nat | m > n
      ensures !Reachable(space, m, c)
    {
      ReachableFewer(space, n + 1, m, c);
    }
  }

  /** The `find` over `enumerate().dropping(from)`: the first index from
      `from` on whose byte lies on the route. */
  function FirstOnRoute(corrupted: seq<Coordinates>, route: seq<Coordinates>, from: nat): (r: Option<nat>)
    ensures r.Some? ==> from <= r.value < |corrupted| && corrupted[r.value] in route
    ensures r.Some? ==> forall j :: from <= j < r.value ==> corrupted[j] !in route
    ensures r.None? ==> forall j :: from <= j < |corrupted| ==> corrupted[j] !in route
    decreases |corrupted| - from
  {
    if from >= |corrupted| then None
    else if corrupted[from] in route then Some(from)
    else FirstOnRoute(corrupted, route, from + 1)
  }

  /** A route that avoids the bytes from n up to m is a walk past the
      first m bytes. */
  lemma RouteAvoiding(space: MemorySpace, n: nat, m: nat, p: Position)
    requires IsRoute(space, n, p) && n <= m
    requires forall j :: n <= j < m && j < |space.corrupted| ==> space.corrupted[j] !in p.visited
    ensures Walk(space, m, p.visited)
  {
    var w := p.visited;
    forall k | 0 < k < |w|
      ensures w[k] !in Blocked(space, m)
    {
      assert StepOk(space, n, w[k - 1], w[k]);
      forall j | 0 <= j < |space.corrupted| && j < m
        ensures space.corrupted[j] != w[k]
      {
        if j < n {
          assert space.corrupted[j] in Blocked(space, n);
        } else {
          assert w[k] in p.visited;
        }
      }
    }
  }

  /** A route past the first n bytes holds no cell of those bytes but
      the start. */
  lemma RouteAvoids(space: MemorySpace, n: nat, p: Position, j: nat)
    requires IsRoute(space, n, p) && j < n && j < |space.corrupted| && space.corrupted[j] != Start
    ensures space.corrupted[j] !in p.visited
  {
    var w := p.visited;
    assert space.corrupted[j] in Blocked(space, n);
    forall k | 0 <= k < |w|
      ensures w[k] != space.corrupted[j]
    {
      if k > 0 {
        assert StepOk(space, n, w[k - 1], w[k]);
      }
    }
  }

  /** The outcome of `route_blocked_at`. */
  datatype BlockSearch =
    | FirstBlocker(index: nat, coordinates: Coordinates)
      /** No byte from the index on lies on the route: the `unwrap` panics. */
    | NoBlocker
      /** The byte at this index lands on the start, which no route
          avoids: the source recurses on the same index for ever. */
    | Endless(index: nat)

  /** What holds of the route held by `route_blocked_at`: it reaches the
      goal past the first `routeBytes` bytes, and avoids the bytes from
      `from` up to there. */
  ghost predicate RouteFrom(space: MemorySpace, p: Position, from: nat, routeBytes: nat)
  {
    && IsRoute(space, routeBytes, p) && p.coordinates == space.goal && from <= routeBytes
    && forall j :: from <= j < routeBytes && j < |space.corrupted| ==> space.corrupted[j] !in p.visited
  }

  /** `MemorySpace::route_blocked_at`, its tail recursion as a loop: find
      the first byte from `bytes` on that lands on the route; if the goal
      can still be reached with that byte fallen, search again from that
      byte with the new route, otherwise it is the answer. Given a route
      to the goal past the first `bytes` bytes, the answer is the byte
      whose fall first cuts the goal off. */
  method RouteBlockedAt(space: MemorySpace, position: Position, bytes: nat) returns (r: BlockSearch)
    requires ValidGoal(space)
    ensures r.FirstBlocker? ==> && bytes <= r.index < |space.corrupted|
                                && r.coordinates == space.corrupted[r.index]
                                && !Reachable(space, r.index + 1, space.goal)
    ensures r.FirstBlocker? && IsRoute(space, bytes, position) && position.coordinates == space.goal ==>
              Reachable(space, r.index, space.goal)
    ensures r.NoBlocker? && IsRoute(space, bytes, position) && position.coordinates == space.goal ==>
              Reachable(space, |space.corrupted|, space.goal)
    ensures r.Endless? ==> && bytes <= r.index < |space.corrupted|
                           && space.corrupted[r.index] == Start
                           && Reachable(space, r.index + 1, space.goal)
  {
    ghost var given := IsRoute(space, bytes, position) && position.coordinates == space.goal;
    var pos, from := position, bytes;
    ghost var routeBytes: nat := bytes;
    ghost var first := true;
    while true
      invariant bytes <= from
      invariant first ==> pos == position && from == bytes && routeBytes == bytes
      invariant (given || !first) ==> RouteFrom(space, pos, from, routeBytes)
      invariant !first ==> routeBytes == from + 1
      decreases |space.corrupted| - from, if first then 1 else 0
    {
      var found := FirstOnRoute(space.corrupted, pos.visited, from);
      if found.None? {
        if given || !first {
          var m := if routeBytes < |space.corrupted| then |space.corrupted| else routeBytes;
          RouteAvoiding(space, routeBytes, m, pos);
          assert Walk(space, m, pos.visited) && Last(pos.visited) == space.goal;
          ReachableFewer(space, |space.corrupted|, m, space.goal);
        }
        return NoBlocker;
      }
      var idx := found.value;
      if given || !first {
        RouteAvoiding(space, routeBytes, idx, pos);
        assert Walk(space, idx, pos.visited) && Last(pos.visited) == space.goal;
      }
      var next := StepsToGoal(space, idx + 1);
      if next.None? {
        return FirstBlocker(idx, space.corrupted[idx]);
      }
      if space.corrupted[idx] == Start {
        return Endless(idx);
      }
      RouteAvoids(space, idx + 1, next.value, idx);
      pos, from := next.value, idx;
      routeBytes, first := idx + 1, false;
    }
  }

  // ---- Parsing ----

  /** The pieces that parse as `u8`, in order; the others are dropped (a
      `flat_map` over the parse results). */
  function U8Pieces(pieces: seq<string>): (r: seq<nat>)
    ensures |r| <= |pieces|
    ensures forall k :: 0 <= k < |r| ==> r[k] < U8Limit
  {
    if pieces == [] then []
    else
      (match ParseU8(pieces[0]) case Some(n) => [n] case None => []) + U8Pieces(pieces[1..])
  }

  /** `parse_coordinate`: the first two comma-separated pieces that parse
      as `u8`, as they are written (x, y); None when there are fewer. */
  function ParseCoordinate(s: string): (r: Option<(nat, nat)>)
    ensures r.Some? ==> r.value.0 < U8Limit && r.value.1 < U8Limit
  {
    var numbers := U8Pieces(Split(s, ','));
    if |numbers| >= 2 then Some((numbers[0], numbers[1])) else None
  }

  /** The corrupted cells of the lines that hold a coordinate pair, the
      pair swapped into (row, column). */
  function ParseLines(lines: seq<string>): (r: seq<Coordinates>)
    ensures |r| <= |lines|
    ensures forall k :: 0 <= k < |r| ==> r[k].0 < U8Limit && r[k].1 < U8Limit
  {
    if lines == [] then []
    else
      (match ParseCoordinate(lines[0]) case Some((x, y)) => [(y, x)] case None => []) + ParseLines(lines[1..])
  }

  /** `parse_input`: the falling bytes in order, and the goal in the
      corner (size, size). */
  function ParseInput(input: string, size: nat): (space: MemorySpace)
    requires size < U8Limit
    ensures ValidGoal(space) && space.goal == (size, size)
  {
    MemorySpace(ParseLines(Lines(input)), (size, size))
  }

  /** A byte position as the puzzle input writes it: "x,y", that is the
      column first. */
  function ShowCoordinates(c: Coordinates): string
  {
    Show(c.1) + "," + Show(c.0)
  }

  function ShowLines(corrupted: seq<Coordinates>): (r: seq<string>)
    ensures |r| == |corrupted|
  {
    if corrupted == [] then [] else [ShowCoordinates(corrupted[0])] + ShowLines(corrupted[1..])
  }

  /** The puzzle input listing the given bytes, one per line. */
  function ShowInput(corrupted: seq<Coordinates>): string
  {
    JoinLines(ShowLines(corrupted))
  }

  /** A `u8` written in decimal reads back as itself. */
  lemma ParseShownU8(n: nat)
    requires n < U8Limit
    ensures ParseU8(Show(n)) == Some(n)
  {
    ShowValue(n);
  }

  /** "x,y" reads back as (x, y). */
  lemma ParseShownCoordinate(c: Coordinates)
    requires c.0 < U8Limit && c.1 < U8Limit
    ensures ParseCoordinate(ShowCoordinates(c)) == Some((c.1, c.0))
  {
    var x, y := Show(c.1), Show(c.0);
    assert ',' !in x && ',' !in y by {
      assert AllDigits(x) && AllDigits(y);
    }
    SplitLeading(x, ',', y);
    SplitWithout(y, ',');
    assert x + "," + y == x + [','] + y;
    ParseShownU8(c.1);
    ParseShownU8(c.0);
    assert U8Pieces([x, y]) == [c.1] + U8Pieces([y]);
  }

  lemma {:induction false} ParseShownLines(corrupted: seq<Coordinates>)
    requires forall k :: 0 <= k < |corrupted| ==> corrupted[k].0 < U8Limit && corrupted[k].1 < U8Limit
    ensures ParseLines(ShowLines(corrupted)) == corrupted
  {
    if corrupted != [] {
      ParseShownCoordinate(corrupted[0]);
      ParseShownLines(corrupted[1..]);
      assert ShowLines(corrupted)[1..] == ShowLines(corrupted[1..]);
    }
  }

  /** Writing the bytes out and parsing them back gives the same memory
      space. */
  lemma ParseShownInput(corrupted: seq<Coordinates>, size: nat)
    requires size < U8Limit
    requires forall k :: 0 <= k < |corrupted| ==> corrupted[k].0 < U8Limit && corrupted[k].1 < U8Limit
    ensures ParseInput(ShowInput(corrupted), size) == MemorySpace(corrupted, (size, size))
  {
    var rows := ShowLines(corrupted);
    forall i | 0 <= i < |rows|
      ensures PlainLine(rows[i])
    {
      ShowLinesPlain(corrupted, i);
    }
    LinesOfJoinLines(rows);
    ParseShownLines(corrupted);
  }

  lemma {:induction false} ShowLinesPlain(corrupted: seq<Coordinates>, i: nat)
    requires i < |corrupted|
    ensures PlainLine(ShowLines(corrupted)[i])
  {
    if i == 0 {
      var s := ShowCoordinates(corrupted[0]);
      var x, y := Show(corrupted[0].1), Show(corrupted[0].0);
      assert AllDigits(x) && AllDigits(y);
      assert s[|s| - 1] == y[|y| - 1];
      assert forall k :: 0 <= k < |s| ==> s[k] != '\n' by {
        forall k | 0 <= k < |s|
          ensures s[k] != '\n'
        {
          if k < |x| { assert s[k] == x[k]; }
          else if k > |x| { assert s[k] == y[k - |x| - 1]; }
        }
      }
    } else {
      ShowLinesPlain(corrupted[1..], i - 1);
    }
  }
}
