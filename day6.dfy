/** Day 6: a guard walking a lab, turning right at obstructions, until she
    leaves the grid or walks in a loop. */
module Day6 {
  import opened Common

  datatype Direction = Up | Right | Down | Left

  /** Position in the cycle Up, Right, Down, Left. */
  function Index(d: Direction): nat
  {
    match d
    case Up => 0
    case Right => 1
    case Down => 2
    case Left => 3
  }

  /** `turn`: a quarter turn clockwise. */
  function Turn(d: Direction): (r: Direction)
    ensures Index(r) == (Index(d) + 1) % 4
  {
    match d
    case Up => Right
    case Right => Down
    case Down => Left
    case Left => Up
  }

  /** Four quarter turns are the identity, and fewer are not. */
  lemma FourTurns(d: Direction)
    ensures Turn(Turn(Turn(Turn(d)))) == d
    ensures Turn(d) != d && Turn(Turn(d)) != d && Turn(Turn(Turn(d))) != d
  {
    var i := Index(d);
    assert Index(Turn(Turn(Turn(Turn(d))))) == i;
  }

  /** (row, column) */
  type Coord = (nat, nat)

  /** The lab as a value: its size and where the obstructions are. */
  datatype Layout = Layout(width: nat, height: nat, obstructions: set<Coord>)

  /** The lab that `count_loops` edits in place. */
  class Lab {
    const width: nat
    const height: nat
    var obstructions: set<Coord>

    constructor (layout: Layout)
      ensures View() == layout
    {
      width := layout.width;
      height := layout.height;
      obstructions := layout.obstructions;
    }

    function View(): Layout
      reads this
    {
      Layout(width, height, obstructions)
    }

    /** `with_obstruction`: adds one; says whether it was new. */
    method WithObstruction(p: Coord) returns (inserted: bool)
      modifies this
      ensures inserted <==> p !in old(obstructions)
      ensures obstructions == old(obstructions) + {p}
    {
      inserted := p !in obstructions;
      obstructions := obstructions + {p};
    }

    /** `without_obstruction`: removes one; says whether it was there. */
    method WithoutObstruction(p: Coord) returns (removed: bool)
      modifies this
      ensures removed <==> p in old(obstructions)
      ensures obstructions == old(obstructions) - {p}
    {
      removed := p in obstructions;
      obstructions := obstructions - {p};
    }
  }

  datatype Guard = Guard(row: nat, column: nat, direction: Direction)

  predicate InBounds(g: Guard, lab: Layout)
  {
    g.row < lab.height && g.column < lab.width
  }

  /** The cell one step ahead, which may be off the grid. */
  function Ahead(g: Guard): (int, int)
  {
    match g.direction
    case Up => (g.row - 1, g.column)
    case Right => (g.row, g.column + 1)
    case Down => (g.row + 1, g.column)
    case Left => (g.row, g.column - 1)
  }

  predicate OnGrid(cell: (int, int), lab: Layout)
  {
    0 <= cell.0 < lab.height && 0 <= cell.1 < lab.width
  }

  /** `next_position`: the cell ahead, None when the step underflows or, to
      the right and downwards, reaches the width or height. The source does
      not check the far edge when going up or left; for a guard on the grid
      that makes no difference. */
  function NextPosition(g: Guard, lab: Layout): (r: Option<Coord>)
    ensures r.Some? ==> r.value.0 as int == Ahead(g).0 && r.value.1 as int == Ahead(g).1
    ensures InBounds(g, lab) ==> (r.Some? <==> OnGrid(Ahead(g), lab))
  {
    match g.direction
    case Up => if g.row >= 1 then Some((g.row - 1, g.column)) else None
    case Right => if g.column + 1 < lab.width then Some((g.row, g.column + 1)) else None
    case Down => if g.row + 1 < lab.height then Some((g.row + 1, g.column)) else None
    case Left => if g.column >= 1 then Some((g.row, g.column - 1)) else None
  }

  /** `take_step`: turn in place before an obstruction, step onto a clear
      cell, and None when the step leaves the grid. */
  function TakeStep(g: Guard, lab: Layout): (r: Option<Guard>)
    ensures r.None? <==> NextPosition(g, lab).None?
    ensures r.Some? && NextPosition(g, lab).value in lab.obstructions ==>
      r.value == Guard(g.row, g.column, Turn(g.direction))
    ensures r.Some? && NextPosition(g, lab).value !in lab.obstructions ==>
      r.value == Guard(NextPosition(g, lab).value.0, NextPosition(g, lab).value.1, g.direction)
  {
    match NextPosition(g, lab)
    case Some((row, column)) =>
      if (row, column) in lab.obstructions then Some(g.(direction := Turn(g.direction)))
      else Some(Guard(row, column, g.direction))
    case None => None
  }

  /** A guard on the grid stays on the grid. */
  lemma StepInBounds(g: Guard, lab: Layout)
    requires InBounds(g, lab) && TakeStep(g, lab).Some?
    ensures InBounds(TakeStep(g, lab).value, lab)
  {
    assert OnGrid(Ahead(g), lab);
  }

  // ---- The walk ----

  /** The state after n steps; None once the guard has left. */
  function Iterate(s: Option<Guard>, lab: Layout, n: nat): Option<Guard>
    decreases n
  {
    if n == 0 || s.None? then s
    else Iterate(TakeStep(s.value, lab), lab, n - 1)
  }

  lemma {:induction false} IterateNone(lab: Layout, n: nat)
    ensures Iterate(None, lab, n) == None
  {
  }

  lemma {:induction false} IterateAdd(s: Option<Guard>, lab: Layout, a: nat, b: nat)
    ensures Iterate(s, lab, a + b) == Iterate(Iterate(s, lab, a), lab, b)
    decreases a
  {
    if a != 0 {
      if s.None? {
        IterateNone(lab, b);
      } else {
        IterateAdd(TakeStep(s.value, lab), lab, a - 1, b);
      }
    }
  }

  /** Once the guard has left, she stays gone. */
  lemma NoneStays(s: Option<Guard>, lab: Layout, n: nat, m: nat)
    requires Iterate(s, lab, n) == None && n <= m
    ensures Iterate(s, lab, m) == None
  {
    IterateAdd(s, lab, n, m - n);
    IterateNone(lab, m - n);
  }

  /** A guard that stays on the grid stays on the grid for every step. */
  lemma {:induction false} IterateInBounds(g: Guard, lab: Layout, n: nat)
    requires InBounds(g, lab) && Iterate(Some(g), lab, n).Some?
    ensures InBounds(Iterate(Some(g), lab, n).value, lab)
    decreases n
  {
    if n != 0 {
      StepInBounds(g, lab);
      IterateInBounds(TakeStep(g, lab).value, lab, n - 1);
    }
  }

  /** A repeated state means the guard never leaves. */
  lemma {:induction false} RepeatLoops(s: Option<Guard>, lab: Layout, i: nat, j: nat, n: nat)
    requires i < j && Iterate(s, lab, i) == Iterate(s, lab, j) && Iterate(s, lab, j).Some?
    ensures Iterate(s, lab, n).Some?
    decreases n
  {
    if n < j {
      if Iterate(s, lab, n).None? {
        NoneStays(s, lab, n, j);
      }
    } else {
      IterateAdd(s, lab, j, n - j);
      IterateAdd(s, lab, i, n - j);
      RepeatLoops(s, lab, i, j, i + (n - j));
    }
  }

  ghost predicate Loops(g: Guard, lab: Layout)
  {
    forall n: nat :: Iterate(Some(g), lab, n).Some?
  }

  /** The states of the walk, at most n of them, ending when the guard
      leaves. */
  function Walk(g: Guard, lab: Layout, n: nat): seq<Guard>
    decreases n
  {
    if n == 0 then []
    else
      match TakeStep(g, lab)
      case None => [g]
      case Some(h) => [g] + Walk(h, lab, n - 1)
  }

  /** A sequence whose entries are the states after 0, 1, ... steps, and
      after which the guard has left, is the walk. */
  lemma {:induction false} WalkExact(g: Guard, lab: Layout, n: nat, path: seq<Guard>)
    requires |path| <= n
    requires forall i :: 0 <= i < |path| ==> Iterate(Some(g), lab, i) == Some(path[i])
    requires Iterate(Some(g), lab, |path|) == None
    ensures Walk(g, lab, n) == path
    decreases n
  {
    if path == [] {
      assert false;
    } else {
      assert Iterate(Some(g), lab, 0) == Some(path[0]);
      var rest := path[1..];
      match TakeStep(g, lab)
      case None =>
        if |path| > 1 {
          assert Iterate(Some(g), lab, 1) == Some(path[1]);
          IterateNone(lab, 0);
          assert false;
        }
      case Some(h) =>
        if rest == [] {
          assert false;
        }
        forall i | 0 <= i < |rest|
          ensures Iterate(Some(h), lab, i) == Some(rest[i])
        {
          assert Iterate(Some(g), lab, i + 1) == Some(path[i + 1]);
        }
        assert Iterate(Some(g), lab, |path|) == Iterate(Some(h), lab, |rest|);
        WalkExact(h, lab, n - 1, rest);
    }
  }

  /** The guard leaves within `bound` steps. */
  predicate LeavesWithin(g: Guard, lab: Layout, bound: nat)
  {
    Iterate(Some(g), lab, bound) == None
  }

  /** `get_path`: every state of the guard until she leaves. The source loops
      forever on a looping walk; here the caller bounds the walk. */
  method GetPath(g: Guard, lab: Layout, ghost bound: nat) returns (path: seq<Guard>)
    requires LeavesWithin(g, lab, bound)
    ensures path == Walk(g, lab, bound)
    ensures forall i :: 0 <= i < |path| ==> Iterate(Some(g), lab, i) == Some(path[i])
    ensures Iterate(Some(g), lab, |path|) == None
  {
    path := [];
    var current: Option<Guard> := Some(g);
    while current.Some?
      invariant |path| <= bound
      invariant current == Iterate(Some(g), lab, |path|)
      invariant forall i :: 0 <= i < |path| ==> Iterate(Some(g), lab, i) == Some(path[i])
      decreases bound - |path|
    {
      if |path| == bound {
        assert false;
      }
      IterateAdd(Some(g), lab, |path|, 1);
      path := path + [current.value];
      current := TakeStep(current.value, lab);
    }
    WalkExact(g, lab, bound, path);
  }

  /** The cells a sequence of states stands on. */
  function Cells(path: seq<Guard>): set<Coord>
  {
    set i | 0 <= i < |path| :: (path[i].row, path[i].column)
  }

  /** `count_guard_positions`: the number of distinct cells the guard stands
      on before she leaves. */
  method CountGuardPositions(g: Guard, lab: Layout, ghost bound: nat) returns (count: nat)
    requires LeavesWithin(g, lab, bound)
    ensures count == |Cells(Walk(g, lab, bound))|
  {
    var visited: set<Coord> := {};
    ghost var path: seq<Guard> := [];
    var current: Option<Guard> := Some(g);
    while current.Some?
      invariant |path| <= bound
      invariant current == Iterate(Some(g), lab, |path|)
      invariant forall i :: 0 <= i < |path| ==> Iterate(Some(g), lab, i) == Some(path[i])
      invariant visited == Cells(path)
      decreases bound - |path|
    {
      if |path| == bound {
        assert false;
      }
      IterateAdd(Some(g), lab, |path|, 1);
      var here := current.value;
      assert Cells(path + [here]) == Cells(path) + {(here.row, here.column)} by {
        var next := path + [here];
        forall c | c in Cells(next)
          ensures c in Cells(path) + {(here.row, here.column)}
        {
          var i :| 0 <= i < |next| && c == (next[i].row, next[i].column);
          if i < |path| {
            assert next[i] == path[i];
          }
        }
        forall c | c in Cells(path)
          ensures c in Cells(next)
        {
          var i :| 0 <= i < |path| && c == (path[i].row, path[i].column);
          assert next[i] == path[i];
        }
        assert next[|path|] == here;
      }
      visited := visited + {(here.row, here.column)};
      path := path + [here];
      current := TakeStep(here, lab);
    }
    WalkExact(g, lab, bound, path);
    count := |visited|;
  }

  /** The positions counted are at most the steps taken, and lie on the grid
      when the guard starts on it. */
  lemma PositionsBounded(g: Guard, lab: Layout, bound: nat)
    requires LeavesWithin(g, lab, bound)
    ensures |Cells(Walk(g, lab, bound))| <= |Walk(g, lab, bound)|
    ensures InBounds(g, lab) ==> forall c :: c in Cells(Walk(g, lab, bound)) ==> c.0 < lab.height && c.1 < lab.width
  {
    var path := Walk(g, lab, bound);
    CellsAtMost(path);
    if InBounds(g, lab) {
      WalkIsIterate(g, lab, bound);
      forall c | c in Cells(path)
        ensures c.0 < lab.height && c.1 < lab.width
      {
        var i :| 0 <= i < |path| && c == (path[i].row, path[i].column);
        IterateInBounds(g, lab, i);
      }
    }
  }

  lemma {:induction false} CellsAtMost(path: seq<Guard>)
    ensures |Cells(path)| <= |path|
  {
    if path != [] {
      var init := path[..|path| - 1];
      CellsAtMost(init);
      var last := path[|path| - 1];
      assert Cells(path) <= Cells(init) + {(last.row, last.column)} by {
        forall c | c in Cells(path)
          ensures c in Cells(init) + {(last.row, last.column)}
        {
          var i :| 0 <= i < |path| && c == (path[i].row, path[i].column);
          if i < |init| {
            assert path[i] == init[i];
          }
        }
      }
      assert |Cells(init) + {(last.row, last.column)}| <= |Cells(init)| + 1;
      SubsetCard(Cells(path), Cells(init) + {(last.row, last.column)});
    } else {
      assert Cells(path) == {};
    }
  }


  /** The walk's entries are the states after 0, 1, ... steps. */
  lemma {:induction false} WalkIsIterate(g: Guard, lab: Layout, n: nat)
    ensures forall i :: 0 <= i < |Walk(g, lab, n)| ==> Iterate(Some(g), lab, i) == Some(Walk(g, lab, n)[i])
    decreases n
  {
    if n != 0 {
      match TakeStep(g, lab)
      case None =>
      case Some(h) =>
        WalkIsIterate(h, lab, n - 1);
        var w := Walk(g, lab, n);
        forall i | 0 <= i < |w|
          ensures Iterate(Some(g), lab, i) == Some(w[i])
        {
          if i > 0 {
            assert w[i] == Walk(h, lab, n - 1)[i - 1];
          }
        }
    }
  }

  // ---- will_loop ----

  /** The states facing d on the given cells. */
  function Facing(cells: set<Coord>, d: Direction): set<Guard>
  {
    set c | c in cells :: Guard(c.0, c.1, d)
  }

  /** Every state on the grid. */
  function AllStates(lab: Layout): (r: set<Guard>)
    ensures forall g :: InBounds(g, lab) ==> g in r
  {
    var cells := set row: nat, column: nat | row < lab.height && column < lab.width :: (row, column);
    var r := Facing(cells, Up) + Facing(cells, Right) + Facing(cells, Down) + Facing(cells, Left);
    assert forall g :: InBounds(g, lab) ==> g in r by {
      forall g | InBounds(g, lab)
        ensures g in r
      {
        var c := (g.row, g.column);
        assert c in cells;
        assert g == Guard(c.0, c.1, g.direction);
        assert g in Facing(cells, g.direction);
        assert g.direction == Up || g.direction == Right || g.direction == Down || g.direction == Left;
      }
    }
    r
  }

  /** `will_loop`: walks until a state repeats or the guard leaves. A state
      repeats exactly when the guard never leaves. */
  method WillLoop(g: Guard, lab: Layout) returns (looped: bool)
    requires InBounds(g, lab)
    ensures looped <==> Loops(g, lab)
  {
    var path: set<Guard> := {};
    var current: Option<Guard> := Some(g);
    ghost var k: nat := 0;
    while current.Some?
      invariant current == Iterate(Some(g), lab, k)
      invariant forall h :: h in path <==> exists i :: 0 <= i < k && Iterate(Some(g), lab, i) == Some(h)
      invariant current.Some? ==> InBounds(current.value, lab)
      invariant path <= AllStates(lab)
      decreases AllStates(lab) - path
    {
      var here := current.value;
      if here in path {
        ghost var i :| 0 <= i < k && Iterate(Some(g), lab, i) == Some(here);
        forall n: nat
          ensures Iterate(Some(g), lab, n).Some?
        {
          RepeatLoops(Some(g), lab, i, k, n);
        }
        return true;
      }
      IterateAdd(Some(g), lab, k, 1);
      path := path + {here};
      current := TakeStep(here, lab);
      if current.Some? {
        StepInBounds(here, lab);
      }
      k := k + 1;
    }
    assert Iterate(Some(g), lab, k).None?;
    return false;
  }

  // ---- count_loops ----

  /** What `count_loops` counts along the path, given the cells already
      tried: each new cell ahead that is not an obstruction is tried once,
      and counts when an obstruction there makes the guard, starting from
      that point of the path, loop. */
  ghost function LoopCount(path: seq<Guard>, lab: Layout, tried: set<Coord>): nat
  {
    if path == [] then 0
    else
      match NextPosition(path[0], lab)
      case None => LoopCount(path[1..], lab, tried)
      case Some(p) =>
        if p in tried then LoopCount(path[1..], lab, tried)
        else if p in lab.obstructions then LoopCount(path[1..], lab, tried + {p})
        else
          var blocked := lab.(obstructions := lab.obstructions + {p});
          (if Loops(path[0], blocked) then 1 else 0) + LoopCount(path[1..], lab, tried + {p})
  }

  /** The cells a path tries: the new cells ahead of its states. */
  function TriedCells(path: seq<Guard>, lab: Layout): set<Coord>
  {
    set i | 0 <= i < |path| && NextPosition(path[i], lab).Some? :: NextPosition(path[i], lab).value
  }

  /** The cells tried by a path: its own first cell ahead and those of the
      rest. */
  lemma TriedCellsCons(path: seq<Guard>, lab: Layout)
    requires path != []
    ensures TriedCells(path, lab) == TriedCells(path[1..], lab)
      + (if NextPosition(path[0], lab).Some? then {NextPosition(path[0], lab).value} else {})
  {
    var rest := path[1..];
    var head := if NextPosition(path[0], lab).Some? then {NextPosition(path[0], lab).value} else {};
    forall c | c in TriedCells(rest, lab)
      ensures c in TriedCells(path, lab)
    {
      var i :| 0 <= i < |rest| && NextPosition(rest[i], lab).Some? && c == NextPosition(rest[i], lab).value;
      assert rest[i] == path[i + 1];
    }
    forall c | c in TriedCells(path, lab)
      ensures c in TriedCells(rest, lab) + head
    {
      var i :| 0 <= i < |path| && NextPosition(path[i], lab).Some? && c == NextPosition(path[i], lab).value;
      if i > 0 {
        assert path[i] == rest[i - 1];
      }
    }
    if NextPosition(path[0], lab).Some? {
      assert NextPosition(path[0], lab).value in TriedCells(path, lab);
    }
  }

  /** Each cell is tried at most once, so the count is at most the number of
      distinct cells ahead of the path. */
  lemma {:induction false} LoopCountBounded(path: seq<Guard>, lab: Layout, tried: set<Coord>)
    ensures LoopCount(path, lab, tried) <= |TriedCells(path, lab) - tried|
    decreases |path|, 1
  {
    if path != [] {
      TriedCellsCons(path, lab);
      var rest := path[1..];
      match NextPosition(path[0], lab)
      case None =>
        assert TriedCells(path, lab) == TriedCells(rest, lab);
        LoopCountBounded(rest, lab, tried);
      case Some(p) =>
        if p in tried {
          assert TriedCells(path, lab) - tried == TriedCells(rest, lab) - tried;
          LoopCountBounded(rest, lab, tried);
        } else {
          LoopCountBoundedNew(path, lab, tried, p);
        }
    }
  }

  /** The step of LoopCountBounded where the cell ahead is new. */
  lemma {:induction false} LoopCountBoundedNew(path: seq<Guard>, lab: Layout, tried: set<Coord>, p: Coord)
    requires path != [] && NextPosition(path[0], lab) == Some(p) && p !in tried
    ensures LoopCount(path, lab, tried) <= |TriedCells(path, lab) - tried|
    decreases |path|, 0
  {
    var rest := path[1..];
    TriedCellsCons(path, lab);
    var all, later := TriedCells(path, lab), TriedCells(rest, lab);
    assert LoopCount(path, lab, tried) <= 1 + LoopCount(rest, lab, tried + {p});
    LoopCountBounded(rest, lab, tried + {p});
    SubsetCard(later - (tried + {p}), all - tried - {p});
    assert all - tried == (all - tried - {p}) + {p};
  }

  /** `count_loops`: along the guard's path, put an obstruction on each new
      free cell ahead, check whether the guard loops from there, and take it
      away again. */
  method CountLoops(g: Guard, layout: Layout, ghost bound: nat) returns (counter: nat)
    requires InBounds(g, layout) && LeavesWithin(g, layout, bound)
    ensures counter == LoopCount(Walk(g, layout, bound), layout, {})
  {
    var lab := new Lab(layout);
    counter := 0;
    var tried: set<Coord> := {};
    var path := GetPath(g, lab.View(), bound);
    var idx := 0;
    while idx < |path|
      invariant idx <= |path|
      invariant lab.View() == layout
      invariant counter + LoopCount(path[idx..], layout, tried) == LoopCount(path, layout, {})
    {
      var position := path[idx];
      assert path[idx..][1..] == path[idx + 1..];
      ghost var before := LoopCount(path[idx..], layout, tried);
      match NextPosition(position, lab.View()) {
        case None =>
        case Some(p) =>
          var untried := p !in tried;
          ghost var triedBefore := tried;
          tried := tried + {p};
          if untried {
            var inserted := lab.WithObstruction(p);
            if inserted {
              ghost var blocked := layout.(obstructions := layout.obstructions + {p});
              assert lab.View() == blocked;
              IterateInBounds(g, layout, idx);
              var loops := WillLoop(position, lab.View());
              assert before == (if Loops(position, blocked) then 1 else 0) + LoopCount(path[idx + 1..], layout, tried);
              if loops {
                counter := counter + 1;
              }
              var _ := lab.WithoutObstruction(p);
              assert lab.View() == layout;
            } else {
              assert before == LoopCount(path[idx + 1..], layout, tried);
            }
          } else {
            assert tried == triedBefore;
            assert before == LoopCount(path[idx + 1..], layout, tried);
          }
      }
      idx := idx + 1;
    }
  }

  // ---- parse_input ----

  /** Cell (r, c) comes before cell (y, x) in reading order. */
  predicate Before(r: nat, c: nat, y: nat, x: nat)
  {
    r < y || (r == y && c < x)
  }

  /** The '#' cells read so far, before (y, x). */
  function ObstructionsBefore(lines: seq<string>, y: nat, x: nat): set<Coord>
  {
    set r, c | 0 <= r < |lines| && 0 <= c < |lines[r]| && Before(r, c, y, x) && lines[r][c] == '#' :: (r, c)
  }

  /** (r, c) holds the last '^' before (y, x). */
  predicate LastCaretBefore(lines: seq<string>, r: nat, c: nat, y: nat, x: nat)
  {
    r < |lines| && c < |lines[r]| && lines[r][c] == '^' && Before(r, c, y, x)
    && forall r', c' :: 0 <= r' < |lines| && 0 <= c' < |lines[r']| && Before(r, c, r', c') && Before(r', c', y, x) ==> lines[r'][c'] != '^'
  }

  predicate NoCaretBefore(lines: seq<string>, y: nat, x: nat)
  {
    forall r, c :: 0 <= r < |lines| && 0 <= c < |lines[r]| && Before(r, c, y, x) ==> lines[r][c] != '^'
  }

  /** `parse_input`: the width is the first line's length, the height the
      number of lines; '#' cells are obstructions, and the guard faces up on
      the last '^'. None stands for the aborts on an empty input and on an
      input without a guard. */
  method ParseInput(input: string) returns (result: Option<(Layout, Guard)>)
    ensures var lines := Lines(input);
      (result.Some? <==> lines != [] && !NoCaretBefore(lines, |lines|, 0))
      && (result.Some? ==>
        var (lab, guard) := result.value;
        lab == Layout(|lines[0]|, |lines|, ObstructionsBefore(lines, |lines|, 0))
        && guard.direction == Up
        && LastCaretBefore(lines, guard.row, guard.column, |lines|, 0))
  {
    var lines := Lines(input);
    if lines == [] {
      return None;
    }
    var width := |lines[0]|;
    var height := |lines|;
    var guard: Option<Guard> := None;
    var obstructions: set<Coord> := {};
    var row := 0;
    while row < |lines|
      invariant row <= |lines|
      invariant obstructions == ObstructionsBefore(lines, row, 0)
      invariant guard.None? ==> NoCaretBefore(lines, row, 0)
      invariant guard.Some? ==> guard.value.direction == Up && LastCaretBefore(lines, guard.value.row, guard.value.column, row, 0)
    {
      var line := lines[row];
      var column := 0;
      while column < |line|
        invariant column <= |line|
        invariant obstructions == ObstructionsBefore(lines, row, column)
        invariant guard.None? ==> NoCaretBefore(lines, row, column)
        invariant guard.Some? ==> guard.value.direction == Up && LastCaretBefore(lines, guard.value.row, guard.value.column, row, column)
      {
        CellStep(lines, row, column);
        if line[column] == '#' {
          obstructions := obstructions + {(row, column)};
        } else if line[column] == '^' {
          guard := Some(Guard(row, column, Up));
        }
        column := column + 1;
      }
      RowStep(lines, row);
      row := row + 1;
    }
    if guard.None? {
      return None;
    }
    return Some((Layout(width, height, obstructions), guard.value));
  }

  /** Reading one more cell of a row. */
  lemma CellStep(lines: seq<string>, y: nat, x: nat)
    requires y < |lines| && x < |lines[y]|
    ensures ObstructionsBefore(lines, y, x + 1) == ObstructionsBefore(lines, y, x) + (if lines[y][x] == '#' then {(y, x)} else {})
    ensures NoCaretBefore(lines, y, x + 1) <==> NoCaretBefore(lines, y, x) && lines[y][x] != '^'
    ensures lines[y][x] == '^' ==> LastCaretBefore(lines, y, x, y, x + 1)
    ensures forall r, c :: lines[y][x] != '^' && LastCaretBefore(lines, r, c, y, x) ==> LastCaretBefore(lines, r, c, y, x + 1)
  {
    var a, b := ObstructionsBefore(lines, y, x + 1), ObstructionsBefore(lines, y, x) + (if lines[y][x] == '#' then {(y, x)} else {});
    forall p | p in a
      ensures p in b
    {
      var (r, c) := p;
      if !(r == y && c == x) {
        assert Before(r, c, y, x);
      }
    }
    forall p | p in b
      ensures p in a
    {
    }
  }

  /** Moving from the end of row y to the start of row y + 1. */
  lemma RowStep(lines: seq<string>, y: nat)
    requires y < |lines|
    ensures ObstructionsBefore(lines, y + 1, 0) == ObstructionsBefore(lines, y, |lines[y]|)
    ensures NoCaretBefore(lines, y + 1, 0) <==> NoCaretBefore(lines, y, |lines[y]|)
    ensures forall r, c :: LastCaretBefore(lines, r, c, y, |lines[y]|) ==> LastCaretBefore(lines, r, c, y + 1, 0)
  {
    assert forall r: nat, c: nat :: r < |lines| && c < |lines[r]| ==> (Before(r, c, y + 1, 0) <==> Before(r, c, y, |lines[y]|));
  }
}
