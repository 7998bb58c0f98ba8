/** The worked examples of Day 16, on the fifteen-by-fifteen maze. */
module Day16Examples {
  import opened Common
  import opened Day16

  /** The columns of the hedges on row r of the example maze (rows 0 to 14). */
  function HedgeColumns(r: nat): set<nat>
  {
    match r
    case 0 => {0, 1, 2, 3, 4, 5, 6, 7, 8, 9, 10, 11, 12, 13, 14}
    case 1 => {0, 8, 14}
    case 2 => {0, 2, 4, 5, 6, 8, 10, 11, 12, 14}
    case 3 => {0, 6, 8, 12, 14}
    case 4 => {0, 2, 3, 4, 6, 7, 8, 9, 10, 12, 14}
    case 5 => {0, 2, 4, 12, 14}
    case 6 => {0, 2, 4, 5, 6, 7, 8, 10, 11, 12, 14}
    case 7 => {0, 12, 14}
    case 8 => {0, 1, 2, 4, 6, 7, 8, 9, 10, 12, 14}
    case 9 => {0, 4, 10, 12, 14}
    case 10 => {0, 2, 4, 6, 7, 8, 10, 12, 14}
    case 11 => {0, 6, 10, 12, 14}
    case 12 => {0, 2, 3, 4, 6, 8, 10, 12, 14}
    case 13 => {0, 4, 10, 14}
    case _ => {0, 1, 2, 3, 4, 5, 6, 7, 8, 9, 10, 11, 12, 13, 14}
  }

  /** The hedges of the example maze. */
  const Hedges: set<Coordinates> := set r: nat, c: nat | r < 15 && c in HedgeColumns(r) :: (r, c)

  const Example: Maze := Maze(Hedges, (13, 1), (1, 13), (15, 15))

  lemma DistanceExamples()
    ensures ManhattanDistance((0, 0), (0, 0)) == 0
    ensures ManhattanDistance((13, 1), (1, 13)) == 24
    ensures ManhattanDistance((13, 2), (1, 13)) == 23
  {
  }

  lemma OpenEastOfStart()
    ensures (13, 2) !in Hedges
  {
  }

  lemma HedgeNorthOfTurn()
    ensures (8, 1) in Hedges
  {
    assert 1 in HedgeColumns(8);
  }

  /** The reindeer starts on (13, 1) facing East, 24 tiles from the end. */
  lemma StartExample(maze: Maze)
    requires maze == Example
    ensures StartingPosition(maze) == Position((13, 1), East, 0, 24, [(13, 1)])
  {
  }

  /** From the start it can turn South or North, or step East to (13, 2). */
  lemma NextFromStart(maze: Maze)
    requires maze == Example
    ensures Next(StartingPosition(maze), maze) == [
      Position((13, 1), South, 1000, 24, [(13, 1)]),
      Position((13, 1), North, 1000, 24, [(13, 1)]),
      Position((13, 2), East, 1, 23, [(13, 1), (13, 2)])]
  {
    OpenEastOfStart();
    var start := StartingPosition(maze);
    StartExample(maze);
    assert Forwards(East, (13, 1), maze) == Some((13, 2));
    assert ManhattanDistance((13, 2), (1, 13)) == 23;
    assert start.visited + [(13, 2)] == [(13, 1), (13, 2)];
  }

  /** Facing North on (9, 1) with a hedge at (8, 1), it can only turn. */
  lemma NextAgainstHedge(maze: Maze, p: Position)
    requires maze == Example
    requires p == Position((9, 1), North, 4, 20, [(13, 1), (12, 1), (11, 1), (10, 1), (9, 1)])
    ensures Next(p, maze) == [
      p.(facing := East, score := 1004),
      p.(facing := West, score := 1004)]
  {
    HedgeNorthOfTurn();
    assert Forwards(North, (9, 1), maze) == None;
  }
}
