/** Pictures of grids, read line by line and character by character, as
    the grid-shaped puzzles of days 15, 16, 18 and 20 read their input. */
module Picture {
  /** (row, column). */
  type Cell = (nat, nat)

  /** The cells of the picture that show ch. */
  ghost function CellsOf(lines: seq<string>, ch: char): set<Cell>
  {
    set r: nat, c: nat | r < |lines| && c < |lines[r]| && lines[r][c] == ch :: (r, c)
  }

  /** The cells showing ch that come before (r, c) in reading order. */
  ghost function CellsBefore(lines: seq<string>, ch: char, r: nat, c: nat): set<Cell>
  {
    set i: nat, j: nat | i < |lines| && j < |lines[i]| && lines[i][j] == ch && (i < r || (i == r && j < c)) :: (i, j)
  }

  /** Reading order: row by row, left to right. */
  predicate ReadsBefore(a: Cell, b: Cell)
  {
    a.0 < b.0 || (a.0 == b.0 && a.1 < b.1)
  }

  lemma ReadsBeforeAsymmetric(a: Cell, b: Cell)
    ensures !(ReadsBefore(a, b) && ReadsBefore(b, a))
  {
  }

  /** x is the last of the cells in reading order, or (0, 0) when there are
      none: what a loop that overwrites x at every match leaves behind. */
  ghost predicate IsLast(cells: set<Cell>, x: Cell)
  {
    if cells == {} then x == (0, 0)
    else x in cells && forall y :: y in cells && y != x ==> ReadsBefore(y, x)
  }

  /** The last cell is unique. */
  lemma IsLastUnique(cells: set<Cell>, a: Cell, b: Cell)
    requires IsLast(cells, a) && IsLast(cells, b)
    ensures a == b
  {
    ReadsBeforeAsymmetric(a, b);
  }

  /** The widest row's length. */
  function Width(lines: seq<string>): (w: nat)
    ensures forall r :: 0 <= r < |lines| ==> |lines[r]| <= w
    ensures lines != [] ==> exists r :: 0 <= r < |lines| && |lines[r]| == w
  {
    if lines == [] then 0
    else
      var front := Width(lines[..|lines| - 1]);
      var last := |lines[|lines| - 1]|;
      if last > front then last else front
  }

  function Max(a: nat, b: nat): nat
  {
    if a < b then b else a
  }

  /** The bounds a reader computes as one past the largest row and column
      index it met, starting both at 0. */
  function PictureBounds(lines: seq<string>): (nat, nat)
  {
    (Max(|lines|, 1), Max(Width(lines), 1))
  }

  lemma CellsBeforeStep(lines: seq<string>, ch: char, r: nat, c: nat)
    requires r < |lines| && c < |lines[r]|
    ensures CellsBefore(lines, ch, r, c + 1) ==
      CellsBefore(lines, ch, r, c) + (if lines[r][c] == ch then {(r, c)} else {})
  {
  }

  lemma CellsBeforeRow(lines: seq<string>, ch: char, r: nat)
    requires r < |lines|
    ensures CellsBefore(lines, ch, r, |lines[r]|) == CellsBefore(lines, ch, r + 1, 0)
  {
  }

  lemma CellsBeforeAll(lines: seq<string>, ch: char)
    ensures CellsBefore(lines, ch, |lines|, 0) == CellsOf(lines, ch)
  {
  }

  lemma CellsBeforeAreBefore(lines: seq<string>, ch: char, r: nat, c: nat)
    ensures forall x :: x in CellsBefore(lines, ch, r, c) ==> ReadsBefore(x, (r, c))
  {
  }

  /** A cell read after all the others is the new last one. */
  lemma LastAdded(cells: set<Cell>, p: Cell)
    requires forall x :: x in cells ==> ReadsBefore(x, p)
    ensures IsLast(cells + {p}, p)
  {
  }

  /** Reading one more cell: it becomes the last match when it shows ch,
      and the last match stays otherwise. */
  lemma LastStep(lines: seq<string>, ch: char, r: nat, c: nat, x: Cell)
    requires r < |lines| && c < |lines[r]|
    requires IsLast(CellsBefore(lines, ch, r, c), x)
    ensures IsLast(CellsBefore(lines, ch, r, c + 1), if lines[r][c] == ch then (r, c) else x)
  {
    CellsBeforeStep(lines, ch, r, c);
    if lines[r][c] == ch {
      CellsBeforeAreBefore(lines, ch, r, c);
      LastAdded(CellsBefore(lines, ch, r, c), (r, c));
    }
  }
}
