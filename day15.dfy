/** Day 15: a robot walks around a warehouse, pushing lines of boxes ahead
    of it, and is stopped by the walls. */
module Day15 {
  import opened Common
  import opened Picture

  /** (row, column). */
  type Coordinate = (nat, nat)

  /** (number of rows, number of columns). */
  type Bounds = (nat, nat)

  datatype Move = Up | Right | Down | Left

  /** `Move::try_from`: the four arrow characters; anything else is not a move. */
  function ParseMove(ch: char): (r: Option<Move>)
    ensures r.Some? ==> MoveChar(r.value) == ch
  {
    match ch
    case '^' => Some(Up)
    case '>' => Some(Right)
    case 'v' => Some(Down)
    case '<' => Some(Left)
    case _ => None
  }

  /** The character of each move in the puzzle input. */
  function MoveChar(mv: Move): char
  {
    match mv
    case Up => '^'
    case Right => '>'
    case Down => 'v'
    case Left => '<'
  }

  /** Every move is read back from its own character. */
  lemma ParseMoveChar(mv: Move)
    ensures ParseMove(MoveChar(mv)) == Some(mv)
  {
  }

  /** `Move::delta`. */
  function Delta(mv: Move): (int, int)
  {
    match mv
    case Up => (-1, 0)
    case Right => (0, 1)
    case Down => (1, 0)
    case Left => (0, -1)
  }

  /** `Move::apply_to`: one step, or None when either coordinate would fall
      below zero or reach its bound. */
  function ApplyTo(mv: Move, pos: Coordinate, bounds: Bounds): (r: Option<Coordinate>)
    ensures r.Some? <==>
      0 <= pos.0 + Delta(mv).0 < bounds.0 && 0 <= pos.1 + Delta(mv).1 < bounds.1
    ensures r.Some? ==> r.value == (pos.0 + Delta(mv).0, pos.1 + Delta(mv).1)
  {
    var (dr, dc) := Delta(mv);
    var r1 := pos.0 + dr;
    var c1 := pos.1 + dc;
    if 0 <= r1 < bounds.0 && 0 <= c1 < bounds.1 then Some((r1, c1)) else None
  }

  /** How many steps in the direction of the move are left before the edge. */
  function Room(pos: Coordinate, mv: Move, bounds: Bounds): nat
  {
    match mv
    case Up => pos.0
    case Left => pos.1
    case Down => if pos.0 < bounds.0 then bounds.0 - pos.0 else 0
    case Right => if pos.1 < bounds.1 then bounds.1 - pos.1 else 0
  }

  /** A step brings the edge one cell nearer. */
  lemma StepNearsEdge(mv: Move, pos: Coordinate, bounds: Bounds)
    requires ApplyTo(mv, pos, bounds).Some?
    ensures Room(ApplyTo(mv, pos, bounds).value, mv, bounds) + 1 == Room(pos, mv, bounds)
  {
  }

  // ---- The warehouse as a value ----

  datatype Warehouse = Warehouse(walls: set<Coordinate>, boxes: set<Coordinate>, robot: Coordinate, bounds: Bounds)

  /** No cell is both a wall and a box, and the robot stands on neither. */
  predicate Valid(w: Warehouse)
  {
    w.walls !! w.boxes && w.robot !in w.walls && w.robot !in w.boxes
  }

  /** `Grid::move_box` as a value: the boxes after pushing the box at pos,
      or None when the push is blocked by a wall or by the edge. */
  function Pushed(walls: set<Coordinate>, boxes: set<Coordinate>, pos: Coordinate, mv: Move, bounds: Bounds): Option<set<Coordinate>>
    decreases Room(pos, mv, bounds)
  {
    match ApplyTo(mv, pos, bounds)
    case None => None
    case Some(next) =>
      if next in walls then None
      else if next in boxes then
        StepNearsEdge(mv, pos, bounds);
        match Pushed(walls, boxes, next, mv, bounds)
        case None => None
        case Some(after) => Some(after - {pos} + {next})
      else Some(boxes - {pos} + {next})
  }

  /** The cell k steps from pos, if the steps stay inside the bounds. */
  function Steps(pos: Coordinate, mv: Move, k: nat, bounds: Bounds): Option<Coordinate>
    decreases k
  {
    if k == 0 then Some(pos)
    else
      match ApplyTo(mv, pos, bounds)
      case None => None
      case Some(next) => Steps(next, mv, k - 1, bounds)
  }

  /** A cell reached in k steps is k cells nearer the edge, so it is never
      the start. */
  lemma {:induction false} StepsNearEdge(pos: Coordinate, mv: Move, k: nat, bounds: Bounds)
    requires Steps(pos, mv, k, bounds).Some?
    ensures Room(Steps(pos, mv, k, bounds).value, mv, bounds) + k == Room(pos, mv, bounds)
    ensures k > 0 ==> Steps(pos, mv, k, bounds).value != pos
    decreases k
  {
    if k > 0 {
      var next := ApplyTo(mv, pos, bounds).value;
      StepNearsEdge(mv, pos, bounds);
      StepsNearEdge(next, mv, k - 1, bounds);
    }
  }

  /** A run of boxes: the cells 1 to k - 1 steps ahead hold boxes and no walls. */
  predicate BoxRun(walls: set<Coordinate>, boxes: set<Coordinate>, pos: Coordinate, mv: Move, k: nat, bounds: Bounds)
  {
    forall i :: 1 <= i < k ==>
      Steps(pos, mv, i, bounds).Some? && Steps(pos, mv, i, bounds).value in boxes && Steps(pos, mv, i, bounds).value !in walls
  }

  /** The run seen from the next cell is the run less its first box. */
  lemma BoxRunTail(walls: set<Coordinate>, boxes: set<Coordinate>, pos: Coordinate, mv: Move, k: nat, bounds: Bounds)
    requires k >= 2 && BoxRun(walls, boxes, pos, mv, k, bounds)
    ensures ApplyTo(mv, pos, bounds).Some?
    ensures BoxRun(walls, boxes, ApplyTo(mv, pos, bounds).value, mv, k - 1, bounds)
  {
    assert Steps(pos, mv, 1, bounds).Some?;
    var next := ApplyTo(mv, pos, bounds).value;
    forall i | 1 <= i < k - 1
      ensures Steps(next, mv, i, bounds) == Steps(pos, mv, i + 1, bounds)
    {
    }
  }

  /** Pushing the box at pos shifts the whole run of boxes ahead of it one
      cell: the net effect is that pos is emptied and the free cell past
      the run is filled. */
  lemma {:induction false} PushShiftsRun(walls: set<Coordinate>, boxes: set<Coordinate>, pos: Coordinate, mv: Move, k: nat, bounds: Bounds)
    requires k >= 1 && BoxRun(walls, boxes, pos, mv, k, bounds)
    requires Steps(pos, mv, k, bounds).Some?
    requires Steps(pos, mv, k, bounds).value !in walls && Steps(pos, mv, k, bounds).value !in boxes
    ensures Pushed(walls, boxes, pos, mv, bounds) == Some(boxes - {pos} + {Steps(pos, mv, k, bounds).value})
    decreases k
  {
    var end := Steps(pos, mv, k, bounds).value;
    var next := ApplyTo(mv, pos, bounds).value;
    if k >= 2 {
      BoxRunTail(walls, boxes, pos, mv, k, bounds);
      assert Steps(next, mv, k - 1, bounds) == Steps(pos, mv, k, bounds);
      PushShiftsRun(walls, boxes, next, mv, k - 1, bounds);
      StepsNearEdge(pos, mv, k, bounds);
      assert Steps(pos, mv, 1, bounds).value in boxes;
      assert boxes - {next} + {end} - {pos} + {next} == boxes - {pos} + {end};
    }
  }

  /** Pushing fails when the run of boxes ends at a wall or at the edge. */
  lemma {:induction false} PushBlocked(walls: set<Coordinate>, boxes: set<Coordinate>, pos: Coordinate, mv: Move, k: nat, bounds: Bounds)
    requires k >= 1 && BoxRun(walls, boxes, pos, mv, k, bounds)
    requires Steps(pos, mv, k, bounds).None? || Steps(pos, mv, k, bounds).value in walls
    ensures Pushed(walls, boxes, pos, mv, bounds).None?
    decreases k
  {
    if k >= 2 {
      BoxRunTail(walls, boxes, pos, mv, k, bounds);
      var next := ApplyTo(mv, pos, bounds).value;
      assert Steps(next, mv, k - 1, bounds) == Steps(pos, mv, k, bounds);
      PushBlocked(walls, boxes, next, mv, k - 1, bounds);
      assert Steps(pos, mv, 1, bounds).value in boxes;
    }
  }

  /** after is boxes with pos emptied and the free cell k steps ahead filled. */
  predicate ShiftsTo(walls: set<Coordinate>, boxes: set<Coordinate>, pos: Coordinate, mv: Move, k: nat, bounds: Bounds, after: set<Coordinate>)
  {
    k >= 1 && Steps(pos, mv, k, bounds).Some? &&
    var end := Steps(pos, mv, k, bounds).value;
    end !in walls && end !in boxes && end != pos && after == boxes - {pos} + {end}
  }

  /** Whatever the run, a successful push empties pos and fills one free
      cell ahead of it, inside the bounds. */
  lemma {:induction false} PushedShape(walls: set<Coordinate>, boxes: set<Coordinate>, pos: Coordinate, mv: Move, bounds: Bounds)
    requires Pushed(walls, boxes, pos, mv, bounds).Some?
    ensures exists k: nat :: ShiftsTo(walls, boxes, pos, mv, k, bounds, Pushed(walls, boxes, pos, mv, bounds).value)
    decreases Room(pos, mv, bounds)
  {
    var next := ApplyTo(mv, pos, bounds).value;
    StepNearsEdge(mv, pos, bounds);
    if next in boxes {
      PushedShape(walls, boxes, next, mv, bounds);
      var k: nat :| ShiftsTo(walls, boxes, next, mv, k, bounds, Pushed(walls, boxes, next, mv, bounds).value);
      var end := Steps(next, mv, k, bounds).value;
      assert Steps(pos, mv, k + 1, bounds) == Steps(next, mv, k, bounds);
      StepsNearEdge(pos, mv, k + 1, bounds);
      assert boxes - {next} + {end} - {pos} + {next} == boxes - {pos} + {end};
      assert ShiftsTo(walls, boxes, pos, mv, k + 1, bounds, Pushed(walls, boxes, pos, mv, bounds).value);
    } else {
      assert Steps(pos, mv, 1, bounds) == Some(next);
      assert ShiftsTo(walls, boxes, pos, mv, 1, bounds, Pushed(walls, boxes, pos, mv, bounds).value);
    }
  }

  /** A push keeps the number of boxes. */
  lemma PushKeepsCount(walls: set<Coordinate>, boxes: set<Coordinate>, pos: Coordinate, mv: Move, bounds: Bounds)
    requires pos in boxes && Pushed(walls, boxes, pos, mv, bounds).Some?
    ensures |Pushed(walls, boxes, pos, mv, bounds).value| == |boxes|
  {
    PushedShape(walls, boxes, pos, mv, bounds);
    var k: nat :| ShiftsTo(walls, boxes, pos, mv, k, bounds, Pushed(walls, boxes, pos, mv, bounds).value);
  }

  /** `Grid::move_robot` as a value: one move of the robot, pushing boxes
      where it can. */
  function MoveRobot(w: Warehouse, mv: Move): (r: Warehouse)
    ensures r.walls == w.walls && r.bounds == w.bounds
    ensures r.robot == w.robot || Some(r.robot) == ApplyTo(mv, w.robot, w.bounds)
  {
    match ApplyTo(mv, w.robot, w.bounds)
    case None => w
    case Some(next) =>
      if next in w.walls then w
      else if next in w.boxes then
        match Pushed(w.walls, w.boxes, next, mv, w.bounds)
        case None => w
        case Some(boxes) => w.(boxes := boxes, robot := next)
      else w.(robot := next)
  }

  /** A step into an empty cell moves only the robot, by one cell. */
  lemma MoveIntoEmpty(w: Warehouse, mv: Move)
    requires ApplyTo(mv, w.robot, w.bounds).Some?
    requires ApplyTo(mv, w.robot, w.bounds).value !in w.walls + w.boxes
    ensures MoveRobot(w, mv) == w.(robot := ApplyTo(mv, w.robot, w.bounds).value)
  {
  }

  /** A step into a wall, or off the grid, changes nothing. */
  lemma MoveIntoWall(w: Warehouse, mv: Move)
    requires ApplyTo(mv, w.robot, w.bounds).None? || ApplyTo(mv, w.robot, w.bounds).value in w.walls
    ensures MoveRobot(w, mv) == w
  {
  }

  /** A step into a run of k boxes followed by a free cell shifts the run
      one cell and moves the robot into the first box's place; a run that
      ends at a wall or the edge leaves everything as it was. */
  lemma MoveIntoBoxes(w: Warehouse, mv: Move, k: nat)
    requires ApplyTo(mv, w.robot, w.bounds).Some?
    requires k >= 1
    requires var next := ApplyTo(mv, w.robot, w.bounds).value;
      next in w.boxes && next !in w.walls && BoxRun(w.walls, w.boxes, next, mv, k, w.bounds)
    ensures var next := ApplyTo(mv, w.robot, w.bounds).value;
      var end := Steps(next, mv, k, w.bounds);
      if end.Some? && end.value !in w.walls && end.value !in w.boxes then
        MoveRobot(w, mv) == w.(boxes := w.boxes - {next} + {end.value}, robot := next)
      else if end.None? || end.value in w.walls then
        MoveRobot(w, mv) == w
      else true
  {
    var next := ApplyTo(mv, w.robot, w.bounds).value;
    var end := Steps(next, mv, k, w.bounds);
    if end.Some? && end.value !in w.walls && end.value !in w.boxes {
      PushShiftsRun(w.walls, w.boxes, next, mv, k, w.bounds);
    } else if end.None? || end.value in w.walls {
      PushBlocked(w.walls, w.boxes, next, mv, k, w.bounds);
    }
  }

  /** A move keeps the walls, the bounds and the number of boxes, and the
      robot still stands on neither a wall nor a box. */
  lemma MoveKeepsValid(w: Warehouse, mv: Move)
    requires Valid(w)
    ensures Valid(MoveRobot(w, mv))
    ensures |MoveRobot(w, mv).boxes| == |w.boxes|
  {
    match ApplyTo(mv, w.robot, w.bounds)
    case None =>
    case Some(next) =>
      if next !in w.walls && next in w.boxes && Pushed(w.walls, w.boxes, next, mv, w.bounds).Some? {
        var after := Pushed(w.walls, w.boxes, next, mv, w.bounds).value;
        assert MoveRobot(w, mv) == w.(boxes := after, robot := next);
        PushKeepsValid(w, next, mv, after);
      }
  }

  lemma PushKeepsValid(w: Warehouse, next: Coordinate, mv: Move, after: set<Coordinate>)
    requires Valid(w) && next in w.boxes && next !in w.walls
    requires Pushed(w.walls, w.boxes, next, mv, w.bounds) == Some(after)
    ensures Valid(w.(boxes := after, robot := next)) && |after| == |w.boxes|
  {
    PushedShape(w.walls, w.boxes, next, mv, w.bounds);
    PushKeepsCount(w.walls, w.boxes, next, mv, w.bounds);
    var k: nat :| ShiftsTo(w.walls, w.boxes, next, mv, k, w.bounds, after);
  }

  // ---- The grid object ----

  class Grid {
    var walls: set<Coordinate>
    var boxes: set<Coordinate>
    var robot: Coordinate
    var bounds: Bounds

    function Value(): Warehouse
      reads this
    {
      Warehouse(walls, boxes, robot, bounds)
    }

    constructor (w: Warehouse)
      ensures Value() == w
    {
      walls, boxes, robot, bounds := w.walls, w.boxes, w.robot, w.bounds;
    }

    /** `Grid::move_box`: pushes the box at pos in place, reporting whether
        it moved; a blocked push changes nothing. */
    method MoveBox(pos: Coordinate, mv: Move) returns (moved: bool)
      modifies this
      ensures walls == old(walls) && robot == old(robot) && bounds == old(bounds)
      ensures moved == Pushed(walls, old(boxes), pos, mv, bounds).Some?
      ensures boxes == if moved then Pushed(walls, old(boxes), pos, mv, bounds).value else old(boxes)
      decreases Room(pos, mv, bounds)
    {
      var target := ApplyTo(mv, pos, bounds);
      if target.None? {
        return false;
      }
      var next := target.value;
      if next in walls {
        return false;
      }
      if next in boxes {
        StepNearsEdge(mv, pos, bounds);
        var pushed := MoveBox(next, mv);
        if !pushed {
          return false;
        }
        PushedShape(walls, old(boxes), next, mv, bounds);
      }
      boxes := boxes - {pos};
      moved := next !in boxes;
      boxes := boxes + {next};
    }

    /** `Grid::move_robot`: a moved copy of the grid; this one is left as it is. */
    method MoveRobotCopy(mv: Move) returns (g: Grid)
      ensures fresh(g)
      ensures g.Value() == MoveRobot(Value(), mv)
    {
      g := new Grid(Value());
      var target := ApplyTo(mv, robot, bounds);
      if target.Some? {
        var next := target.value;
        if next in walls {
          return;
        }
        if next in boxes {
          var pushed := g.MoveBox(next, mv);
          if !pushed {
            return;
          }
        }
        g.robot := next;
      }
    }
  }

  // ---- Parsing ----

  /** What `Grid::from_str` makes of the lines of the picture: walls at '#',
      boxes at 'O', the robot at the last '@', and bounds one past the
      largest row and column index. */
  ghost predicate Parses(lines: seq<string>, w: Warehouse)
  {
    && w.walls == CellsOf(lines, '#')
    && w.boxes == CellsOf(lines, 'O')
    && IsLast(CellsOf(lines, '@'), w.robot)
    && w.bounds == PictureBounds(lines)
  }

  /** Each cell holds one character, so a parsed warehouse has no box on a
      wall; the robot stands on neither when the picture shows one. */
  lemma ParsedIsValid(lines: seq<string>, w: Warehouse)
    requires Parses(lines, w) && CellsOf(lines, '@') != {}
    ensures Valid(w)
  {
  }

  /** The picture determines the warehouse. */
  lemma ParsesUnique(lines: seq<string>, a: Warehouse, b: Warehouse)
    requires Parses(lines, a) && Parses(lines, b)
    ensures a == b
  {
    IsLastUnique(CellsOf(lines, '@'), a.robot, b.robot);
  }

  /** What has been read of the picture up to (r, c) in reading order. */
  ghost predicate ReadUpTo(lines: seq<string>, r: nat, c: nat, walls: set<Coordinate>, boxes: set<Coordinate>, robot: Coordinate)
  {
    && walls == CellsBefore(lines, '#', r, c)
    && boxes == CellsBefore(lines, 'O', r, c)
    && IsLast(CellsBefore(lines, '@', r, c), robot)
  }

  /** Reading one more cell adds it to the walls, the boxes or the robot. */
  lemma ReadCell(lines: seq<string>, r: nat, c: nat, walls: set<Coordinate>, boxes: set<Coordinate>, robot: Coordinate)
    requires r < |lines| && c < |lines[r]|
    requires ReadUpTo(lines, r, c, walls, boxes, robot)
    ensures lines[r][c] == '#' ==> ReadUpTo(lines, r, c + 1, walls + {(r, c)}, boxes, robot)
    ensures lines[r][c] == 'O' ==> ReadUpTo(lines, r, c + 1, walls, boxes + {(r, c)}, robot)
    ensures lines[r][c] == '@' ==> ReadUpTo(lines, r, c + 1, walls, boxes, (r, c))
    ensures lines[r][c] !in "#O@" ==> ReadUpTo(lines, r, c + 1, walls, boxes, robot)
  {
    CellsBeforeStep(lines, '#', r, c);
    CellsBeforeStep(lines, 'O', r, c);
    LastStep(lines, '@', r, c, robot);
  }

  /** The inner loop of `Grid::from_str`: the cells of row r, left to right. */
  method ReadRow(lines: seq<string>, r: nat, walls0: set<Coordinate>, boxes0: set<Coordinate>, robot0: Coordinate, maxC0: nat)
    returns (walls: set<Coordinate>, boxes: set<Coordinate>, robot: Coordinate, maxC: nat)
    requires r < |lines|
    requires ReadUpTo(lines, r, 0, walls0, boxes0, robot0)
    requires maxC0 + 1 == Max(Width(lines[..r]), 1)
    ensures ReadUpTo(lines, r, |lines[r]|, walls, boxes, robot)
    ensures maxC + 1 == Max(Width(lines[..r + 1]), 1)
  {
    hide ReadUpTo, CellsBefore, IsLast;
    walls, boxes, robot, maxC := walls0, boxes0, robot0, maxC0;
    var row := lines[r];
    var c := 0;
    while c < |row|
      invariant c <= |row|
      invariant ReadUpTo(lines, r, c, walls, boxes, robot)
      invariant maxC + 1 == Max(Max(Width(lines[..r]), c), 1)
    {
      ReadCell(lines, r, c, walls, boxes, robot);
      match row[c] {
        case '#' => walls := walls + {(r, c)};
        case 'O' => boxes := boxes + {(r, c)};
        case '@' => robot := (r, c);
        case _ =>
      }
      maxC := Max(maxC, c);
      c := c + 1;
    }
    assert lines[..r + 1][..r] == lines[..r];
  }

  /** `Grid::from_str`: reads the picture cell by cell in reading order. */
  method FromStr(input: string) returns (g: Grid)
    ensures fresh(g)
    ensures Parses(Lines(input), g.Value())
  {
    var lines := Lines(input);
    var walls: set<Coordinate> := {};
    var boxes: set<Coordinate> := {};
    var robot: Coordinate := (0, 0);
    var maxR: nat := 0;
    var maxC: nat := 0;
    var r := 0;
    while r < |lines|
      invariant r <= |lines|
      invariant ReadUpTo(lines, r, 0, walls, boxes, robot)
      invariant maxR + 1 == Max(r, 1)
      invariant maxC + 1 == Max(Width(lines[..r]), 1)
    {
      walls, boxes, robot, maxC := ReadRow(lines, r, walls, boxes, robot, maxC);
      CellsBeforeRow(lines, '#', r);
      CellsBeforeRow(lines, 'O', r);
      CellsBeforeRow(lines, '@', r);
      maxR := Max(maxR, r);
      r := r + 1;
    }
    CellsBeforeAll(lines, '#');
    CellsBeforeAll(lines, 'O');
    CellsBeforeAll(lines, '@');
    assert lines[..r] == lines;
    g := new Grid(Warehouse(walls, boxes, robot, (maxR + 1, maxC + 1)));
  }

  /** The moves: the arrow characters in order, every other character skipped. */
  function ParseMoves(s: string): (r: seq<Move>)
    ensures |r| <= |s|
  {
    if s == [] then []
    else
      var front := ParseMoves(s[..|s| - 1]);
      match ParseMove(s[|s| - 1])
      case Some(mv) => front + [mv]
      case None => front
  }

  /** Reading the moves of two pieces of text is reading each in turn. */
  lemma {:induction false} ParseMovesAppend(s: string, t: string)
    ensures ParseMoves(s + t) == ParseMoves(s) + ParseMoves(t)
    decreases |t|
  {
    if t == [] {
      assert s + t == s;
    } else {
      var t0 := t[..|t| - 1];
      assert (s + t)[..|s + t| - 1] == s + t0;
      ParseMovesAppend(s, t0);
    }
  }

  function ShowMoves(moves: seq<Move>): (s: string)
    ensures |s| == |moves|
  {
    if moves == [] then [] else ShowMoves(moves[..|moves| - 1]) + [MoveChar(moves[|moves| - 1])]
  }

  /** The moves are read back from their characters, a line break or any
      other character in between changing nothing. */
  lemma {:induction false} ParseShowMoves(moves: seq<Move>)
    ensures ParseMoves(ShowMoves(moves)) == moves
  {
    if moves != [] {
      var front := moves[..|moves| - 1];
      ParseShowMoves(front);
      var s := ShowMoves(moves);
      assert s[..|s| - 1] == ShowMoves(front);
      assert moves == front + [moves[|moves| - 1]];
    }
  }

  lemma ParseMovesSkips(s: string, ch: char, t: string)
    requires ParseMove(ch).None?
    ensures ParseMoves(s + [ch] + t) == ParseMoves(s + t)
  {
    ParseMovesAppend(s + [ch], t);
    ParseMovesAppend(s, t);
    assert (s + [ch])[..|s + [ch]| - 1] == s;
  }

  /** `parse_input`: the picture and the moves either side of the first
      blank line; None when there is no blank line (a panic in the source). */
  method ParseInput(input: string) returns (result: Option<(Grid, seq<Move>)>)
    ensures result.None? <==> SplitOnce(input, "\n\n").None?
    ensures result.Some? ==>
      var (picture, moves) := SplitOnce(input, "\n\n").value;
      && fresh(result.value.0)
      && Parses(Lines(picture), result.value.0.Value())
      && result.value.1 == ParseMoves(moves)
  {
    match SplitOnce(input, "\n\n")
    case None =>
      return None;
    case Some((picture, moves)) =>
      var g := FromStr(picture);
      return Some((g, ParseMoves(moves)));
  }
}
