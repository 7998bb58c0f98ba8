/** The worked examples of Day 15, on the small eight-by-eight warehouse. */
module Day15Examples {
  import opened Common
  import opened Day15

  const Walls: set<Coordinate> := {
    (0, 0), (0, 1), (0, 2), (0, 3), (0, 4), (0, 5), (0, 6), (0, 7),
    (1, 0), (1, 7), (2, 0), (2, 1), (2, 7), (3, 0), (3, 7),
    (4, 0), (4, 2), (4, 7), (5, 0), (5, 7), (6, 0), (6, 7),
    (7, 0), (7, 1), (7, 2), (7, 3), (7, 4), (7, 5), (7, 6), (7, 7)}

  const Boxes: set<Coordinate> := {(1, 3), (1, 5), (2, 4), (3, 4), (4, 4), (5, 4)}

  const Small: Warehouse := Warehouse(Walls, Boxes, (2, 2), (8, 8))

  /** Up, right and down from (2, 2) are empty cells: only the robot moves;
      left after up is empty too. */
  lemma MoveUpIntoEmpty(w: Warehouse)
    requires w == Small
    ensures MoveRobot(w, Up) == w.(robot := (1, 2))
  {
    hide MoveRobot, Pushed;
    assert ApplyTo(Up, (2, 2), (8, 8)) == Some((1, 2));
    assert (1, 2) !in Walls && (1, 2) !in Boxes;
    assert (1, 2) !in w.walls + w.boxes;
    MoveIntoEmpty(w, Up);
  }

  lemma MoveRightIntoEmpty(w: Warehouse)
    requires w == Small
    ensures MoveRobot(w, Right) == w.(robot := (2, 3))
  {
    hide MoveRobot, Pushed;
    assert ApplyTo(Right, (2, 2), (8, 8)) == Some((2, 3));
    assert (2, 3) !in Walls && (2, 3) !in Boxes;
    assert (2, 3) !in w.walls + w.boxes;
    MoveIntoEmpty(w, Right);
  }

  lemma MoveDownIntoEmpty(w: Warehouse)
    requires w == Small
    ensures MoveRobot(w, Down) == w.(robot := (3, 2))
  {
    hide MoveRobot, Pushed;
    assert ApplyTo(Down, (2, 2), (8, 8)) == Some((3, 2));
    assert (3, 2) !in Walls && (3, 2) !in Boxes;
    assert (3, 2) !in w.walls + w.boxes;
    MoveIntoEmpty(w, Down);
  }

  lemma MoveLeftIntoEmpty(w: Warehouse)
    requires w == Small.(robot := (1, 2))
    ensures MoveRobot(w, Left) == w.(robot := (1, 1))
  {
    hide MoveRobot, Pushed;
    assert ApplyTo(Left, (1, 2), (8, 8)) == Some((1, 1));
    assert (1, 1) !in Walls && (1, 1) !in Boxes;
    assert (1, 1) !in w.walls + w.boxes;
    MoveIntoEmpty(w, Left);
  }

  /** Left of (2, 2) is a wall: nothing changes. */
  lemma BlockedByWall(w: Warehouse)
    requires w == Small
    ensures MoveRobot(w, Left) == w
  {
    hide MoveRobot, Pushed;
    MoveIntoWall(w, Left);
  }

  /** From (1, 2) the robot pushes one box right ... */
  lemma PushOneBox(w: Warehouse)
    requires w == Small.(robot := (1, 2))
    ensures MoveRobot(w, Right) == w.(boxes := Boxes - {(1, 3)} + {(1, 4)}, robot := (1, 3))
  {
    assert Steps((1, 3), Right, 1, w.bounds) == Some((1, 4));
    MoveIntoBoxes(w, Right, 1);
  }

  /** ... then a line of two ... */
  lemma PushTwoBoxes(w: Warehouse)
    requires w == Small.(boxes := Boxes - {(1, 3)} + {(1, 4)}, robot := (1, 3))
    ensures MoveRobot(w, Right) == w.(boxes := Boxes - {(1, 3)} + {(1, 6)}, robot := (1, 4))
  {
    assert Steps((1, 4), Right, 1, w.bounds) == Some((1, 5));
    assert Steps((1, 4), Right, 2, w.bounds) == Some((1, 6));
    MoveIntoBoxes(w, Right, 2);
    assert w.boxes - {(1, 4)} + {(1, 6)} == Boxes - {(1, 3)} + {(1, 6)};
  }

  /** ... and then the line is stuck against the wall. */
  lemma PushAgainstWall(w: Warehouse)
    requires w == Small.(boxes := Boxes - {(1, 3)} + {(1, 6)}, robot := (1, 4))
    ensures MoveRobot(w, Right) == w
  {
    assert Steps((1, 5), Right, 1, w.bounds) == Some((1, 6));
    assert Steps((1, 5), Right, 2, w.bounds) == Some((1, 7));
    MoveIntoBoxes(w, Right, 2);
  }

  lemma ParseMovesA(s: string)
    requires s == "<^^>>"
    ensures ParseMoves(s) == [Left, Up, Up, Right, Right]
  {
    assert ParseMoves(s[..0]) == [];
    hide ParseMoves;
    ParseMovesStep(s, 1);
    assert ParseMoves(s[..1]) == [Left];
    ParseMovesStep(s, 2);
    assert ParseMoves(s[..2]) == [Left, Up];
    ParseMovesStep(s, 3);
    assert ParseMoves(s[..3]) == [Left, Up, Up];
    ParseMovesStep(s, 4);
    assert ParseMoves(s[..4]) == [Left, Up, Up, Right];
    ParseMovesStep(s, 5);
    assert ParseMoves(s[..5]) == [Left, Up, Up, Right, Right];
    assert s[..5] == s;
  }

  lemma ParseMovesB(s: string)
    requires s == ">vv<v"
    ensures ParseMoves(s) == [Right, Down, Down, Left, Down]
  {
    assert ParseMoves(s[..0]) == [];
    hide ParseMoves;
    ParseMovesStep(s, 1);
    assert ParseMoves(s[..1]) == [Right];
    ParseMovesStep(s, 2);
    assert ParseMoves(s[..2]) == [Right, Down];
    ParseMovesStep(s, 3);
    assert ParseMoves(s[..3]) == [Right, Down, Down];
    ParseMovesStep(s, 4);
    assert ParseMoves(s[..4]) == [Right, Down, Down, Left];
    ParseMovesStep(s, 5);
    assert ParseMoves(s[..5]) == [Right, Down, Down, Left, Down];
    assert s[..5] == s;
  }

  lemma ParseMovesC(s: string)
    requires s == ">>v<<"
    ensures ParseMoves(s) == [Right, Right, Down, Left, Left]
  {
    assert ParseMoves(s[..0]) == [];
    hide ParseMoves;
    ParseMovesStep(s, 1);
    assert ParseMoves(s[..1]) == [Right];
    ParseMovesStep(s, 2);
    assert ParseMoves(s[..2]) == [Right, Right];
    ParseMovesStep(s, 3);
    assert ParseMoves(s[..3]) == [Right, Right, Down];
    ParseMovesStep(s, 4);
    assert ParseMoves(s[..4]) == [Right, Right, Down, Left];
    ParseMovesStep(s, 5);
    assert ParseMoves(s[..5]) == [Right, Right, Down, Left, Left];
    assert s[..5] == s;
  }

  /** The moves of the small example are read in order. */
  lemma ParseExampleMoves(s: string)
    requires s == "<^^>>>vv<v>>v<<"
    ensures ParseMoves(s) ==
      [Left, Up, Up, Right, Right, Right, Down, Down, Left, Down, Right, Right, Down, Left, Left]
  {
    var a, b, c := s[..5], s[5..10], s[10..];
    assert s == a + b + c;
    ParseMovesA(a);
    ParseMovesB(b);
    ParseMovesC(c);
    ParseMovesAppend(a + b, c);
    ParseMovesAppend(a, b);
  }

  lemma ParseMovesStep(s: string, k: nat)
    requires 0 < k <= |s|
    ensures ParseMoves(s[..k]) == ParseMoves(s[..k - 1]) +
      match ParseMove(s[k - 1])
      case Some(mv) => [mv]
      case None => []
  {
    assert s[..k][..k - 1] == s[..k - 1];
  }
}
