/** The worked examples of Day 14, on the seven-by-eleven room. */
module Day14Examples {
  import opened Common
  import opened Day14

  const Room: Bounds := (7, 11)

  /** The twelve robots of the example, as (row, column) pairs. */
  const ExampleRobots: seq<Robot> := [
    Robot((4, 0), (-3, 3)), Robot((3, 6), (-3, -1)), Robot((3, 10), (2, -1)),
    Robot((0, 2), (-1, 2)), Robot((0, 0), (3, 1)), Robot((0, 3), (-2, -2)),
    Robot((6, 7), (-3, -1)), Robot((0, 3), (-2, -1)), Robot((3, 9), (3, 2)),
    Robot((3, 7), (2, -1)), Robot((4, 2), (-3, 2)), Robot((5, 9), (-3, -3))]

  /** Where they stand after 100 seconds, robot by robot. */
  const After100: seq<Position> := [
    (5, 3), (4, 5), (0, 9), (5, 4), (6, 1), (3, 1),
    (0, 6), (3, 2), (2, 0), (0, 6), (5, 4), (6, 6)]

  /** The robot at (4, 2) moving (-3, 2) visits these cells second by second. */
  lemma SimulateOneRobot(robot: Robot)
    requires robot == Robot((4, 2), (-3, 2))
    ensures Simulate(robot, 0, Room).position == (4, 2)
    ensures Simulate(robot, 1, Room).position == (1, 4)
    ensures Simulate(robot, 2, Room).position == (5, 6)
    ensures Simulate(robot, 3, Room).position == (2, 8)
    ensures Simulate(robot, 4, Room).position == (6, 10)
    ensures Simulate(robot, 5, Room).position == (3, 1)
  {
    assert Shifted(-3, 7) == 4;
    assert Shifted(2, 11) == 13;
  }

  /** The quadrants of the positions reached after 100 seconds, listed by
      position; the middle row and column belong to none. */
  lemma PartitionExample()
    ensures PartitionPosition((0, 6), Room) == Some(TopRight)
    ensures PartitionPosition((0, 9), Room) == Some(TopRight)
    ensures PartitionPosition((2, 0), Room) == Some(TopLeft)
    ensures PartitionPosition((3, 1), Room) == None
    ensures PartitionPosition((3, 2), Room) == None
    ensures PartitionPosition((4, 5), Room) == None
    ensures PartitionPosition((5, 3), Room) == Some(BottomLeft)
    ensures PartitionPosition((5, 4), Room) == Some(BottomLeft)
    ensures PartitionPosition((6, 1), Room) == Some(BottomLeft)
    ensures PartitionPosition((6, 6), Room) == Some(BottomRight)
  {
  }

  lemma Moved100(i: nat)
    requires i < 12
    ensures Simulate(ExampleRobots[i], 100, Room).position == After100[i]
  {
    SimulateIsModular(ExampleRobots[i], 100, Room);
    hide Simulate;
  }

  /** After 100 seconds the example robots stand at After100. */
  lemma SimulateExample()
    ensures |SimulateRobots(ExampleRobots, 100, Room)| == 12
    ensures forall i :: 0 <= i < 12 ==> SimulateRobots(ExampleRobots, 100, Room)[i].position == After100[i]
  {
    forall i | 0 <= i < 12
      ensures SimulateRobots(ExampleRobots, 100, Room)[i].position == After100[i]
    {
      Moved100(i);
    }
  }

  /** The example robots after 100 seconds. */
  const Moved: seq<Robot> := [
    Robot((5, 3), (-3, 3)), Robot((4, 5), (-3, -1)), Robot((0, 9), (2, -1)),
    Robot((5, 4), (-1, 2)), Robot((6, 1), (3, 1)), Robot((3, 1), (-2, -2)),
    Robot((0, 6), (-3, -1)), Robot((3, 2), (-2, -1)), Robot((2, 0), (3, 2)),
    Robot((0, 6), (2, -1)), Robot((5, 4), (-3, 2)), Robot((6, 6), (-3, -3))]

  lemma MovedIsSimulated()
    ensures SimulateRobots(ExampleRobots, 100, Room) == Moved
  {
    SimulateExample();
  }

  /** One more robot adds its quadrant, if it has one. */
  lemma QuadrantsStep(robots: seq<Robot>, k: nat)
    requires 0 < k <= |robots|
    ensures Quadrants(robots[..k], Room) == Quadrants(robots[..k - 1], Room) +
      match PartitionPosition(robots[k - 1].position, Room)
      case Some(q) => [q]
      case None => []
  {
    assert robots[..k][..k - 1] == robots[..k - 1];
  }

  lemma MovedQuadrants()
    ensures Quadrants(Moved, Room) ==
      [BottomLeft, TopRight, BottomLeft, BottomLeft, TopRight, TopLeft, TopRight, BottomLeft, BottomRight]
  {
    assert Quadrants(Moved[..0], Room) == [];
    QuadrantsStep(Moved, 1);
    assert Quadrants(Moved[..1], Room) == [BottomLeft];
    QuadrantsStep(Moved, 2);
    assert Quadrants(Moved[..2], Room) == [BottomLeft];
    QuadrantsStep(Moved, 3);
    assert Quadrants(Moved[..3], Room) == [BottomLeft, TopRight];
    QuadrantsStep(Moved, 4);
    assert Quadrants(Moved[..4], Room) == [BottomLeft, TopRight, BottomLeft];
    QuadrantsStep(Moved, 5);
    assert Quadrants(Moved[..5], Room) == [BottomLeft, TopRight, BottomLeft, BottomLeft];
    QuadrantsStep(Moved, 6);
    assert Quadrants(Moved[..6], Room) == [BottomLeft, TopRight, BottomLeft, BottomLeft];
    QuadrantsStep(Moved, 7);
    assert Quadrants(Moved[..7], Room) == [BottomLeft, TopRight, BottomLeft, BottomLeft, TopRight];
    QuadrantsStep(Moved, 8);
    assert Quadrants(Moved[..8], Room) == [BottomLeft, TopRight, BottomLeft, BottomLeft, TopRight];
    QuadrantsStep(Moved, 9);
    assert Quadrants(Moved[..9], Room) == [BottomLeft, TopRight, BottomLeft, BottomLeft, TopRight, TopLeft];
    QuadrantsStep(Moved, 10);
    assert Quadrants(Moved[..10], Room) == [BottomLeft, TopRight, BottomLeft, BottomLeft, TopRight, TopLeft, TopRight];
    QuadrantsStep(Moved, 11);
    assert Quadrants(Moved[..11], Room) == [BottomLeft, TopRight, BottomLeft, BottomLeft, TopRight, TopLeft, TopRight, BottomLeft];
    QuadrantsStep(Moved, 12);
    assert Quadrants(Moved[..12], Room) == [BottomLeft, TopRight, BottomLeft, BottomLeft, TopRight, TopLeft, TopRight, BottomLeft, BottomRight];
    assert Moved[..12] == Moved;
  }

  lemma MovedOccupancy()
    ensures Occupancy(Moved, Room, TopLeft) == 1
    ensures Occupancy(Moved, Room, TopRight) == 3
    ensures Occupancy(Moved, Room, BottomLeft) == 4
    ensures Occupancy(Moved, Room, BottomRight) == 1
  {
    MovedQuadrants();
    hide Quadrants;
    var qs: seq<Quadrant> := [BottomLeft, TopRight, BottomLeft, BottomLeft, TopRight, TopLeft, TopRight, BottomLeft, BottomRight];
    assert multiset(qs)[TopLeft] == 1;
    assert multiset(qs)[TopRight] == 3;
    assert multiset(qs)[BottomLeft] == 4;
    assert multiset(qs)[BottomRight] == 1;
  }

  /** Three robots in the top right, one in the top left, four in the
      bottom left and one in the bottom right: a safety factor of 12. */
  lemma SafetyFactorExample()
    ensures TotalSafetyFactorAfterSteps(ExampleRobots, 100, Room) == 12
  {
    MovedIsSimulated();
    SafetyFactorByQuadrant(Moved, Room);
    MovedOccupancy();
    hide Occupancy, Quadrants, TotalSafetyFactor, SimulateRobots, Simulate;
    assert TotalSafetyFactorAfterSteps(ExampleRobots, 100, Room) == TotalSafetyFactor(Moved, Room);
  }
}
