/** Day 14: robots moving in straight lines across a grid that wraps around
    at its edges. The safety factor multiplies the numbers of robots in the
    four quadrants; the frame with the lowest factor is the guess for the
    picture of a tree. */
module Day14 {
  import opened Common

  /** (row, column). */
  type Position = (nat, nat)

  /** (rows, columns) moved per second; either may be negative. */
  type Velocity = (int, int)

  /** (number of rows, number of columns). */
  type Bounds = (nat, nat)

  predicate ValidBounds(bounds: Bounds)
  {
    bounds.0 > 0 && bounds.1 > 0
  }

  datatype Quadrant = TopLeft | TopRight | BottomLeft | BottomRight

  datatype Robot = Robot(position: Position, velocity: Velocity)

  predicate InBounds(robot: Robot, bounds: Bounds)
  {
    robot.position.0 < bounds.0 && robot.position.1 < bounds.1
  }

  // ---- Moving ----

  /** Rust's `%` on a signed integer: the remainder keeps the sign of the
      dividend, so it lies strictly between -m and m, and it is congruent to
      the dividend. */
  function TruncRem(a: int, m: nat): (r: int)
    requires m > 0
    ensures -(m as int) < r < m
    ensures (a >= 0 ==> r >= 0) && (a < 0 ==> r <= 0)
    ensures r % m == a % m
  {
    if a >= 0 then
      DivModUnique(a % m, m, 0, a % m);
      a % m
    else
      NegatedRem(-a, m);
      -((-a) % m)
  }

  lemma NegatedRem(b: nat, m: nat)
    requires m > 0
    ensures (-((b % m) as int)) % m == (-(b as int)) % m
  {
    var q, t := b / m, b % m;
    assert b == q * m + t;
    if t == 0 {
      ModAddMultiple(0, -q, m);
    } else {
      DivModUnique(-(b as int), m, -q - 1, m - t);
      DivModUnique(-t, m, -1, m - t);
    }
  }

  /** A velocity component made non-negative, as `(d % m + m) as usize`
      does: it moves the same way as d modulo m. */
  function Shifted(d: int, m: nat): (r: nat)
    requires m > 0
    ensures 0 < r < 2 * m
    ensures r % m == d % m
  {
    var t := TruncRem(d, m);
    ModAddMultiple(t, 1, m);
    (t + m) as nat
  }

  /** `Robot::simulate`: the robot after the given number of seconds. The
      velocity is kept; the position wraps around the bounds. */
  function Simulate(robot: Robot, steps: nat, bounds: Bounds): (r: Robot)
    requires ValidBounds(bounds)
    ensures r.velocity == robot.velocity
    ensures InBounds(r, bounds)
  {
    var dr := Shifted(robot.velocity.0, bounds.0);
    var dc := Shifted(robot.velocity.1, bounds.1);
    Robot(((robot.position.0 + dr * steps) % bounds.0, (robot.position.1 + dc * steps) % bounds.1), robot.velocity)
  }

  lemma MulCongruent(s: int, d: int, k: int, steps: nat, m: nat)
    requires s == d + k * m
    ensures s * steps == d * steps + (k * steps) * m
  {
    calc {
      s * steps;
      (d + k * m) * steps;
      d * steps + (k * m) * steps;
      d * steps + (k * steps) * m;
    }
  }

  lemma Congruent(s: int, d: int, m: nat) returns (k: int)
    requires m > 0 && s % m == d % m
    ensures s == d + k * m
  {
    k := s / m - d / m;
    assert s == (s / m) * m + s % m;
    assert d == (d / m) * m + d % m;
  }

  /** Two congruent velocities move a robot to the same wrapped place. */
  lemma WrapMoves(p: nat, s: int, d: int, steps: nat, m: nat)
    requires m > 0 && s % m == d % m
    ensures (p + s * steps) % m == (p + d * steps) % m
  {
    var k := Congruent(s, d, m);
    MulCongruent(s, d, k, steps, m);
    ModAddMultiple(p + d * steps, k * steps, m);
  }

  /** The simulated position is the start moved by velocity times steps,
      taken modulo the bounds. */
  lemma SimulateIsModular(robot: Robot, steps: nat, bounds: Bounds)
    requires ValidBounds(bounds)
    ensures Simulate(robot, steps, bounds).position ==
      ((robot.position.0 + robot.velocity.0 * steps) % bounds.0,
       (robot.position.1 + robot.velocity.1 * steps) % bounds.1)
  {
    WrapMoves(robot.position.0, Shifted(robot.velocity.0, bounds.0), robot.velocity.0, steps, bounds.0);
    WrapMoves(robot.position.1, Shifted(robot.velocity.1, bounds.1), robot.velocity.1, steps, bounds.1);
  }

  /** Wrapping part-way and then moving on lands where moving all the way does. */
  lemma WrapThenMove(p: nat, d: int, a: nat, b: nat, m: nat)
    requires m > 0
    ensures ((p + d * a) % m + d * b) % m == (p + d * (a + b)) % m
  {
    var x := p + d * a;
    assert x == (x / m) * m + x % m;
    Distribute(d, a, b);
    assert x % m + d * b == (p + d * (a + b)) + (-(x / m)) * m;
    ModAddMultiple(p + d * (a + b), -(x / m), m);
  }

  lemma Distribute(d: int, a: nat, b: nat)
    ensures d * (a + b) == d * a + d * b
  {
  }

  /** Moving a then b seconds is moving a + b seconds. */
  lemma SimulateCompose(robot: Robot, a: nat, b: nat, bounds: Bounds)
    requires ValidBounds(bounds)
    ensures Simulate(Simulate(robot, a, bounds), b, bounds) == Simulate(robot, a + b, bounds)
  {
    var mid := Simulate(robot, a, bounds);
    SimulateIsModular(robot, a, bounds);
    SimulateIsModular(mid, b, bounds);
    SimulateIsModular(robot, a + b, bounds);
    hide Simulate;
    WrapThenMove(robot.position.0, robot.velocity.0, a, b, bounds.0);
    WrapThenMove(robot.position.1, robot.velocity.1, a, b, bounds.1);
  }

  /** The number of cells, after which every robot is back. */
  function Area(bounds: Bounds): nat
  {
    bounds.0 * bounds.1
  }

  lemma {:induction false} AreaMultiple(d: int, bounds: Bounds)
    ensures d * Area(bounds) == (d * bounds.1) * bounds.0
    ensures d * Area(bounds) == (d * bounds.0) * bounds.1
  {
  }

  /** After Area(bounds) seconds every robot within the bounds is back
      where it started. */
  lemma SimulatePeriod(robot: Robot, bounds: Bounds)
    requires ValidBounds(bounds) && InBounds(robot, bounds)
    ensures Simulate(robot, Area(bounds), bounds) == robot
  {
    var (r, c) := robot.position;
    var (dr, dc) := robot.velocity;
    SimulateIsModular(robot, Area(bounds), bounds);
    hide Simulate;
    AreaMultiple(dr, bounds);
    AreaMultiple(dc, bounds);
    ModAddMultiple(r, dr * bounds.1, bounds.0);
    ModAddMultiple(c, dc * bounds.0, bounds.1);
    DivModUnique(r, bounds.0, 0, r);
    DivModUnique(c, bounds.1, 0, c);
  }

  /** Zero seconds leave a robot within the bounds where it is. */
  lemma SimulateZero(robot: Robot, bounds: Bounds)
    requires ValidBounds(bounds) && InBounds(robot, bounds)
    ensures Simulate(robot, 0, bounds) == robot
  {
    SimulateIsModular(robot, 0, bounds);
    hide Simulate;
    DivModUnique(robot.position.0, bounds.0, 0, robot.position.0);
    DivModUnique(robot.position.1, bounds.1, 0, robot.position.1);
  }

  /** `simulate_robots`: every robot moved, in the same order. */
  function SimulateRobots(robots: seq<Robot>, steps: nat, bounds: Bounds): (r: seq<Robot>)
    requires ValidBounds(bounds)
    ensures |r| == |robots|
    ensures forall i :: 0 <= i < |r| ==> r[i] == Simulate(robots[i], steps, bounds)
  {
    seq(|robots|, i requires 0 <= i < |robots| => Simulate(robots[i], steps, bounds))
  }

  predicate AllInBounds(robots: seq<Robot>, bounds: Bounds)
  {
    forall i :: 0 <= i < |robots| ==> InBounds(robots[i], bounds)
  }

  lemma SimulateRobotsCompose(robots: seq<Robot>, a: nat, b: nat, bounds: Bounds)
    requires ValidBounds(bounds)
    ensures SimulateRobots(SimulateRobots(robots, a, bounds), b, bounds) == SimulateRobots(robots, a + b, bounds)
  {
    forall i | 0 <= i < |robots|
      ensures Simulate(Simulate(robots[i], a, bounds), b, bounds) == Simulate(robots[i], a + b, bounds)
    {
      SimulateCompose(robots[i], a, b, bounds);
    }
  }

  lemma SimulateRobotsPeriod(robots: seq<Robot>, bounds: Bounds)
    requires ValidBounds(bounds) && AllInBounds(robots, bounds)
    ensures SimulateRobots(robots, Area(bounds), bounds) == robots
    ensures SimulateRobots(robots, 0, bounds) == robots
  {
    forall i | 0 <= i < |robots|
      ensures Simulate(robots[i], Area(bounds), bounds) == robots[i]
      ensures Simulate(robots[i], 0, bounds) == robots[i]
    {
      SimulatePeriod(robots[i], bounds);
      SimulateZero(robots[i], bounds);
    }
  }

  // ---- Quadrants ----

  /** Which half a coordinate lies in: None on the middle line, Some(true)
      before it, Some(false) after it. */
  function Half(x: nat, size: nat): Option<bool>
  {
    if x == size / 2 then None else Some(x < size / 2)
  }

  function QuadrantOf(top: bool, left: bool): Quadrant
  {
    if top then (if left then TopLeft else TopRight)
    else (if left then BottomLeft else BottomRight)
  }

  /** `partition_position`: the quadrant of a position, or None on the middle
      row or the middle column. */
  function PartitionPosition(pos: Position, bounds: Bounds): (r: Option<Quadrant>)
    ensures r.None? <==> pos.0 == bounds.0 / 2 || pos.1 == bounds.1 / 2
  {
    var midR := bounds.0 / 2;
    var midC := bounds.1 / 2;
    if pos.0 < midR && pos.1 < midC then Some(TopLeft)
    else if pos.0 < midR && pos.1 > midC then Some(TopRight)
    else if pos.0 > midR && pos.1 < midC then Some(BottomLeft)
    else if pos.0 > midR && pos.1 > midC then Some(BottomRight)
    else None
  }

  /** The quadrant is the row's half combined with the column's half. */
  lemma PartitionByHalves(pos: Position, bounds: Bounds)
    ensures PartitionPosition(pos, bounds) ==
      match (Half(pos.0, bounds.0), Half(pos.1, bounds.1))
      case (Some(top), Some(left)) => Some(QuadrantOf(top, left))
      case _ => None
  {
  }

  // ---- Safety factor ----

  /** The quadrants of the robots that are in one, in order (the `flat_map`). */
  function Quadrants(robots: seq<Robot>, bounds: Bounds): (r: seq<Quadrant>)
    ensures |r| <= |robots|
  {
    if robots == [] then []
    else
      var front := Quadrants(robots[..|robots| - 1], bounds);
      match PartitionPosition(robots[|robots| - 1].position, bounds)
      case Some(q) => front + [q]
      case None => front
  }

  /** Itertools' `counts`: how often each quadrant occurs, for the quadrants
      that occur. */
  function Tally(qs: seq<Quadrant>): (r: map<Quadrant, nat>)
    ensures forall q :: q in r <==> q in qs
    ensures forall q :: q in r ==> r[q] == multiset(qs)[q] && r[q] > 0
  {
    if qs == [] then map[]
    else
      var front := Tally(qs[..|qs| - 1]);
      var last := qs[|qs| - 1];
      assert qs == qs[..|qs| - 1] + [last];
      front[last := (if last in front then front[last] else 0) + 1]
  }

  /** The product of the counts, taken in any order (a hash map's values). */
  ghost function Product(counts: map<Quadrant, nat>): nat
    decreases |counts|
  {
    if counts == map[] then 1
    else
      var q :| q in counts;
      Smaller(counts, q);
      counts[q] * Product(counts - {q})
  }

  lemma Smaller(counts: map<Quadrant, nat>, q: Quadrant)
    requires q in counts
    ensures |counts - {q}| == |counts| - 1
  {
    assert (counts - {q}).Keys == counts.Keys - {q};
  }

  lemma MulSwap(a: nat, b: nat, c: nat)
    ensures a * (b * c) == b * (a * c)
  {
  }

  /** Any key may be taken out of the product first. */
  lemma {:induction false} ProductRemove(counts: map<Quadrant, nat>, q: Quadrant)
    requires q in counts
    ensures Product(counts) == counts[q] * Product(counts - {q})
    decreases |counts|
  {
    var x :| x in counts && Product(counts) == counts[x] * Product(counts - {x});
    if x != q {
      Smaller(counts, x);
      Smaller(counts, q);
      var rest := counts - {x} - {q};
      assert counts - {q} - {x} == rest;
      ProductRemove(counts - {x}, q);
      ProductRemove(counts - {q}, x);
      hide Product;
      MulSwap(counts[x], counts[q], Product(rest));
    }
  }

  /** A count as a factor: a quadrant without robots contributes 1, not 0. */
  function Factor(counts: map<Quadrant, nat>, q: Quadrant): nat
  {
    if q in counts then counts[q] else 1
  }

  lemma ProductStep(counts: map<Quadrant, nat>, q: Quadrant)
    ensures Product(counts) == Factor(counts, q) * Product(counts - {q})
  {
    if q in counts {
      ProductRemove(counts, q);
    } else {
      assert counts - {q} == counts;
    }
  }

  /** The product over the four quadrants, whatever order the map yields them in. */
  lemma ProductOfQuadrants(counts: map<Quadrant, nat>)
    ensures Product(counts) ==
      Factor(counts, TopLeft) * Factor(counts, TopRight) * Factor(counts, BottomLeft) * Factor(counts, BottomRight)
  {
    hide Product, Factor;
    var c1 := counts - {TopLeft};
    var c2 := c1 - {TopRight};
    var c3 := c2 - {BottomLeft};
    var c4 := c3 - {BottomRight};
    ProductStep(counts, TopLeft);
    ProductStep(c1, TopRight);
    ProductStep(c2, BottomLeft);
    ProductStep(c3, BottomRight);
    NoQuadrantLeft(c4);
    FactorAfterRemove(counts, TopLeft, TopRight);
    FactorAfterRemove(counts, TopLeft, BottomLeft);
    FactorAfterRemove(counts, TopLeft, BottomRight);
    FactorAfterRemove(c1, TopRight, BottomLeft);
    FactorAfterRemove(c1, TopRight, BottomRight);
    FactorAfterRemove(c2, BottomLeft, BottomRight);
  }

  lemma FactorAfterRemove(counts: map<Quadrant, nat>, q: Quadrant, other: Quadrant)
    requires q != other
    ensures Factor(counts - {q}, other) == Factor(counts, other)
  {
  }

  lemma NoQuadrantLeft(counts: map<Quadrant, nat>)
    requires TopLeft !in counts && TopRight !in counts && BottomLeft !in counts && BottomRight !in counts
    ensures Product(counts) == 1
  {
    forall q: Quadrant
      ensures q !in counts
    {
      match q
      case TopLeft =>
      case TopRight =>
      case BottomLeft =>
      case BottomRight =>
    }
    assert counts.Keys == {};
    assert counts == map[];
  }

  /** `total_safety_factor`: the product of the robot counts of the
      quadrants that hold robots. */
  ghost function TotalSafetyFactor(robots: seq<Robot>, bounds: Bounds): nat
  {
    Product(Tally(Quadrants(robots, bounds)))
  }

  /** How many robots stand in a quadrant, as a factor: 1 when none do. */
  function Occupancy(robots: seq<Robot>, bounds: Bounds, q: Quadrant): nat
  {
    var n := multiset(Quadrants(robots, bounds))[q];
    if n == 0 then 1 else n
  }

  /** The safety factor multiplies the four quadrant counts, with an empty
      quadrant omitted rather than counted as zero. */
  lemma SafetyFactorByQuadrant(robots: seq<Robot>, bounds: Bounds)
    ensures TotalSafetyFactor(robots, bounds) ==
      Occupancy(robots, bounds, TopLeft) * Occupancy(robots, bounds, TopRight) *
      Occupancy(robots, bounds, BottomLeft) * Occupancy(robots, bounds, BottomRight)
    ensures TotalSafetyFactor(robots, bounds) >= 1
  {
    var counts := Tally(Quadrants(robots, bounds));
    ProductOfQuadrants(counts);
    FactorIsOccupancy(robots, bounds, TopLeft);
    FactorIsOccupancy(robots, bounds, TopRight);
    FactorIsOccupancy(robots, bounds, BottomLeft);
    FactorIsOccupancy(robots, bounds, BottomRight);
    hide Product, Factor, Occupancy, Tally, Quadrants;
    assert TotalSafetyFactor(robots, bounds) == Product(counts);
  }

  lemma FactorIsOccupancy(robots: seq<Robot>, bounds: Bounds, q: Quadrant)
    ensures Factor(Tally(Quadrants(robots, bounds)), q) == Occupancy(robots, bounds, q) >= 1
  {
  }

  /** `total_safety_factor_after_steps`. */
  ghost function TotalSafetyFactorAfterSteps(robots: seq<Robot>, steps: nat, bounds: Bounds): nat
    requires ValidBounds(bounds)
  {
    TotalSafetyFactor(SimulateRobots(robots, steps, bounds), bounds)
  }

  // ---- Looking for the tree ----

  /** The frames of `iterate_positions` from the k-th on: each second's
      robots, stopping before the first frame that repeats the start. */
  function Frames(first: seq<Robot>, current: seq<Robot>, k: nat, bounds: Bounds): (r: seq<seq<Robot>>)
    requires ValidBounds(bounds) && AllInBounds(first, bounds)
    requires k < Area(bounds)
    requires current == SimulateRobots(first, k, bounds)
    ensures |r| >= 1 && r[0] == current
    decreases Area(bounds) - k
  {
    var next := SimulateRobots(current, 1, bounds);
    NextFrame(first, k, bounds);
    if next != first then
      [current] + Frames(first, next, k + 1, bounds)
    else
      [current]
  }

  /** One more second moves frame k to frame k + 1, and a full cycle
      brings back the first frame. */
  lemma NextFrame(first: seq<Robot>, k: nat, bounds: Bounds)
    requires ValidBounds(bounds) && AllInBounds(first, bounds)
    ensures SimulateRobots(SimulateRobots(first, k, bounds), 1, bounds) == SimulateRobots(first, k + 1, bounds)
    ensures k + 1 == Area(bounds) ==> SimulateRobots(first, k + 1, bounds) == first
  {
    hide Simulate;
    SimulateRobotsCompose(first, k, 1, bounds);
    SimulateRobotsPeriod(first, bounds);
  }

  /** Frame i is the robots after k + i seconds; no frame after the first
      repeats the start, and the second after the last frame does. */
  lemma {:induction false} FramesAreSeconds(first: seq<Robot>, current: seq<Robot>, k: nat, bounds: Bounds)
    requires ValidBounds(bounds) && AllInBounds(first, bounds)
    requires k < Area(bounds)
    requires current == SimulateRobots(first, k, bounds)
    ensures var r := Frames(first, current, k, bounds);
      && (forall i :: 0 <= i < |r| ==> r[i] == SimulateRobots(first, k + i, bounds))
      && (forall i :: 1 <= i < |r| ==> r[i] != first)
      && SimulateRobots(first, k + |r|, bounds) == first
    decreases Area(bounds) - k
  {
    hide Simulate, SimulateRobots;
    var next := SimulateRobots(current, 1, bounds);
    NextFrame(first, k, bounds);
    if next != first {
      FramesAreSeconds(first, next, k + 1, bounds);
      var rest := Frames(first, next, k + 1, bounds);
      assert Frames(first, current, k, bounds) == [current] + rest;
      forall i | 1 <= i < |rest| + 1
        ensures ([current] + rest)[i] == SimulateRobots(first, k + i, bounds)
      {
        assert ([current] + rest)[i] == rest[i - 1];
        assert k + 1 + (i - 1) == k + i;
      }
    }
  }

  /** `iterate_positions`: the robots second by second, until they are back
      where they started. */
  function IteratePositions(robots: seq<Robot>, bounds: Bounds): (r: seq<seq<Robot>>)
    requires ValidBounds(bounds) && AllInBounds(robots, bounds)
    ensures |r| >= 1 && r[0] == robots
    ensures forall i :: 0 <= i < |r| ==> r[i] == SimulateRobots(robots, i, bounds)
    ensures forall i :: 1 <= i < |r| ==> r[i] != robots
    ensures SimulateRobots(robots, |r|, bounds) == robots
  {
    SimulateRobotsPeriod(robots, bounds);
    FramesAreSeconds(robots, robots, 0, bounds);
    Frames(robots, robots, 0, bounds)
  }

  /** Every frame is repeated by the one a full cycle later: the frames
      are all the configurations the robots ever take. */
  lemma FramesCycle(robots: seq<Robot>, bounds: Bounds, n: nat)
    requires ValidBounds(bounds) && AllInBounds(robots, bounds)
    ensures SimulateRobots(robots, n + |IteratePositions(robots, bounds)|, bounds) == SimulateRobots(robots, n, bounds)
  {
    var frames := IteratePositions(robots, bounds);
    var p := |frames|;
    hide Simulate, SimulateRobots;
    SimulateRobotsCompose(robots, p, n, bounds);
    assert p + n == n + p;
  }

  /** `min_by_key` over `enumerate`: the first position with the smallest key. */
  function FirstMinimum(keys: seq<nat>): (r: nat)
    requires keys != []
    ensures r < |keys|
    ensures forall j :: 0 <= j < |keys| ==> keys[r] <= keys[j]
    ensures forall j :: 0 <= j < r ==> keys[j] > keys[r]
  {
    if |keys| == 1 then 0
    else
      var best := FirstMinimum(keys[..|keys| - 1]);
      if keys[|keys| - 1] < keys[best] then |keys| - 1 else best
  }

  /** The safety factor of each frame. */
  ghost function SafetyFactors(frames: seq<seq<Robot>>, bounds: Bounds): (r: seq<nat>)
    ensures |r| == |frames|
    ensures forall i :: 0 <= i < |frames| ==> r[i] == TotalSafetyFactor(frames[i], bounds)
  {
    if frames == [] then []
    else SafetyFactors(frames[..|frames| - 1], bounds) + [TotalSafetyFactor(frames[|frames| - 1], bounds)]
  }

  /** `guess_tree_frame`: the first frame of the cycle with the lowest
      safety factor. */
  ghost function GuessTreeFrame(robots: seq<Robot>, bounds: Bounds): (r: nat)
    requires ValidBounds(bounds) && AllInBounds(robots, bounds)
    ensures var frames := IteratePositions(robots, bounds);
      && r < |frames|
      && (forall j :: 0 <= j < |frames| ==> TotalSafetyFactor(frames[r], bounds) <= TotalSafetyFactor(frames[j], bounds))
      && (forall j :: 0 <= j < r ==> TotalSafetyFactor(frames[j], bounds) > TotalSafetyFactor(frames[r], bounds))
  {
    var frames := IteratePositions(robots, bounds);
    FirstMinimum(SafetyFactors(frames, bounds))
  }

  /** The guessed second has the lowest safety factor the robots ever
      reach, and no earlier second reaches it. */
  lemma GuessIsLowest(robots: seq<Robot>, bounds: Bounds, n: nat)
    requires ValidBounds(bounds) && AllInBounds(robots, bounds)
    ensures TotalSafetyFactorAfterSteps(robots, GuessTreeFrame(robots, bounds), bounds) <= TotalSafetyFactorAfterSteps(robots, n, bounds)
    ensures n < GuessTreeFrame(robots, bounds) ==>
      TotalSafetyFactorAfterSteps(robots, n, bounds) > TotalSafetyFactorAfterSteps(robots, GuessTreeFrame(robots, bounds), bounds)
  {
    hide Simulate, SimulateRobots, IteratePositions, GuessTreeFrame, TotalSafetyFactor;
    var frames := IteratePositions(robots, bounds);
    var g := GuessTreeFrame(robots, bounds);
    var p := |frames|;
    var j, cycles := Wrapped(n, p);
    CycleReduce(robots, bounds, j, cycles);
    assert TotalSafetyFactor(frames[g], bounds) <= TotalSafetyFactor(frames[j], bounds);
  }

  /** n split into whole cycles of length p and what is left over. */
  lemma Wrapped(n: nat, p: nat) returns (j: nat, cycles: nat)
    requires p > 0
    ensures j < p && n == j + cycles * p
    ensures n < p ==> j == n
  {
    j, cycles := n % p, n / p;
    if n < p {
      DivModUnique(n, p, 0, n);
    }
  }

  lemma OneMoreCycle(j: nat, cycles: nat, p: nat)
    ensures j + (cycles + 1) * p == (j + cycles * p) + p
  {
  }

  /** Any number of whole cycles later the robots are where they were. */
  lemma {:induction false} CycleReduce(robots: seq<Robot>, bounds: Bounds, j: nat, cycles: nat)
    requires ValidBounds(bounds) && AllInBounds(robots, bounds)
    ensures SimulateRobots(robots, j + cycles * |IteratePositions(robots, bounds)|, bounds) == SimulateRobots(robots, j, bounds)
  {
    hide Simulate, SimulateRobots, IteratePositions;
    var p := |IteratePositions(robots, bounds)|;
    if cycles > 0 {
      CycleReduce(robots, bounds, j, cycles - 1);
      OneMoreCycle(j, cycles - 1, p);
      FramesCycle(robots, bounds, j + (cycles - 1) * p);
    }
  }

  // ---- Parsing ----

  /** The `parse_part` helper: "name=x,y" read as (y, x), each by `parse`;
      None where the source's `unwrap` panics. */
  function ParsePart<T>(part: string, parse: string -> Option<T>): (r: Option<(T, T)>)
  {
    match SplitOnce(part, "=")
    case None => None
    case Some((_, values)) =>
      match SplitOnce(values, ",")
      case None => None
      case Some((c, r)) =>
        match (parse(r), parse(c))
        case (Some(y), Some(x)) => Some((y, x))
        case _ => None
  }

  /** `Robot::from_str`: "p=x,y v=dx,dy". None for a line without a space
      (the source's `Err`) and for a part that does not parse (a panic). */
  function ParseRobot(line: string): (r: Option<Robot>)
  {
    match SplitOnce(line, " ")
    case None => None
    case Some((position, velocity)) =>
      match (ParsePart(position, ParseU64), ParsePart(velocity, ParseI64))
      case (Some(p), Some(v)) => Some(Robot(p, v))
      case _ => None
  }

  /** "name=x,y" gives (y, x). */
  lemma ParsePartReads<T>(name: string, x: string, y: string, parse: string -> Option<T>, vx: T, vy: T)
    requires '=' !in name && ',' !in x
    requires parse(x) == Some(vx) && parse(y) == Some(vy)
    ensures ParsePart(name + "=" + x + "," + y, parse) == Some((vy, vx))
  {
    assert name + "=" + x + "," + y == name + "=" + (x + "," + y);
    SplitOnceAt(name, "=", x + "," + y);
    SplitOnceAt(x, ",", y);
  }

  /** x is the column and y the row: the text gives them the other way round. */
  lemma ParseRobotSwaps(x: string, y: string, dx: string, dy: string, c: nat, r: nat, vc: int, vr: int)
    requires ' ' !in x && ' ' !in y && ',' !in x && ',' !in dx
    requires ParseU64(x) == Some(c) && ParseU64(y) == Some(r)
    requires ParseI64(dx) == Some(vc) && ParseI64(dy) == Some(vr)
    ensures ParseRobot("p=" + x + "," + y + " v=" + dx + "," + dy) == Some(Robot((r, c), (vr, vc)))
  {
    var position := "p" + "=" + x + "," + y;
    var velocity := "v" + "=" + dx + "," + dy;
    assert "p=" + x + "," + y + " v=" + dx + "," + dy == position + " " + velocity;
    NoSpace(x, y);
    SplitOnceAt(position, " ", velocity);
    ParsePartReads("p", x, y, ParseU64, c, r);
    ParsePartReads("v", dx, dy, ParseI64, vc, vr);
  }

  lemma NoSpace(x: string, y: string)
    requires ' ' !in x && ' ' !in y
    ensures ' ' !in "p" + "=" + x + "," + y
  {
    var position := "p" + "=" + x + "," + y;
    forall i | 0 <= i < |position|
      ensures position[i] != ' '
    {
      if i < 2 {
      } else if i < 2 + |x| {
        assert position[i] == x[i - 2];
      } else if i == 2 + |x| {
      } else {
        assert position[i] == y[i - 3 - |x|];
      }
    }
  }

  /** `parse_input`: one robot per line; None if any line does not parse. */
  function ParseInput(input: string): (r: Option<seq<Robot>>)
    ensures r.Some? ==> |r.value| == |Lines(input)|
    ensures r.Some? <==> forall i :: 0 <= i < |Lines(input)| ==> ParseRobot(Lines(input)[i]).Some?
  {
    ParseLines(Lines(input))
  }

  function ParseLines(lines: seq<string>): (r: Option<seq<Robot>>)
    ensures r.Some? ==> |r.value| == |lines|
    ensures r.Some? ==> forall i :: 0 <= i < |lines| ==> ParseRobot(lines[i]) == Some(r.value[i])
    ensures r.Some? <==> forall i :: 0 <= i < |lines| ==> ParseRobot(lines[i]).Some?
  {
    if lines == [] then Some([])
    else
      match (ParseLines(lines[..|lines| - 1]), ParseRobot(lines[|lines| - 1]))
      case (Some(front), Some(robot)) => Some(front + [robot])
      case _ => None
  }
}
