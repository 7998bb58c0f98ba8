/** Day 21, "Keypad Conundrum": the minimum number of presses a human must
    make so that a chain of robot arms types a code on a numeric keypad.

    The source's two keypad types (a generic `KeyPad<T>` over number buttons
    or direction buttons) become one button type and a `Pad` tag: a button
    belongs to a pad when `OnPad` says so. The `Rc<RefCell<...>>` chain of
    keypads, each with its own cache, becomes one object holding a cache per
    directional level and one for the numeric keypad. */
module Day21 {
  import opened Common

  datatype DirectionButton = Up | Down | Left | Right

  type NumberButton = d: nat | d < 10

  datatype KeyPadButton = Digit(n: NumberButton) | Arrow(dir: DirectionButton) | Enter

  datatype Pad = Numeric | Directional

  /** The source's type parameter: digits live on the numeric keypad,
      arrows on the directional one, Enter on both. */
  predicate OnPad(pad: Pad, k: KeyPadButton)
  {
    match k
    case Digit(_) => pad == Numeric
    case Arrow(_) => pad == Directional
    case Enter => true
  }

  predicate AllOnPad(pad: Pad, keys: seq<KeyPadButton>)
  {
    forall i :: 0 <= i < |keys| ==> OnPad(pad, keys[i])
  }

  /** Coordinates are a pair of unsigned bytes (row, column). */
  type U8 = x: int | 0 <= x < 256

  type Coordinates = (U8, U8)

  /** Row and column of a cell reached by i steps of `mv`, as integers (so
      that a step off the top or the left edge is visible as a negative). */
  function Shifted(p: Coordinates, mv: DirectionButton, i: int): (int, int)
  {
    match mv
    case Up => (p.0 - i, p.1)
    case Down => (p.0 + i, p.1)
    case Left => (p.0, p.1 - i)
    case Right => (p.0, p.1 + i)
  }

  /** One unit step; None when either coordinate leaves the byte range. */
  function ApplyMove(p: Coordinates, mv: DirectionButton): (q: Option<Coordinates>)
  {
    var (r, c) := Shifted(p, mv, 1);
    if 0 <= r < 256 && 0 <= c < 256 then Some((r, c)) else None
  }

  function Opposite(mv: DirectionButton): DirectionButton
  {
    match mv
    case Up => Down
    case Down => Up
    case Left => Right
    case Right => Left
  }

  /** A step followed by the opposite step comes back to where it started. */
  lemma ApplyMoveUndo(p: Coordinates, mv: DirectionButton)
    requires ApplyMove(p, mv).Some?
    ensures ApplyMove(ApplyMove(p, mv).value, Opposite(mv)) == Some(p)
  {
  }

  /** Position of each button. The numeric keypad is
        7 8 9 / 4 5 6 / 1 2 3 / _ 0 A
      and the directional keypad is
        _ ^ A / < v > */
  function Coordinate(pad: Pad, key: KeyPadButton): Coordinates
    requires OnPad(pad, key)
  {
    match pad
    case Numeric =>
      (match key
       case Digit(0) => (3, 1)
       case Digit(1) => (2, 0)
       case Digit(2) => (2, 1)
       case Digit(3) => (2, 2)
       case Digit(4) => (1, 0)
       case Digit(5) => (1, 1)
       case Digit(6) => (1, 2)
       case Digit(7) => (0, 0)
       case Digit(8) => (0, 1)
       case Digit(9) => (0, 2)
       case Enter => (3, 2))
    case Directional =>
      (match key
       case Arrow(Up) => (0, 1)
       case Arrow(Right) => (1, 2)
       case Arrow(Down) => (1, 1)
       case Arrow(Left) => (1, 0)
       case Enter => (0, 2))
  }

  /** The hole of each keypad. */
  function Hole(pad: Pad): Coordinates
  {
    match pad
    case Numeric => (3, 0)
    case Directional => (0, 0)
  }

  /** Whether a cell is a button of the keypad: inside the grid and not the hole. */
  predicate Contains(pad: Pad, coord: Coordinates)
  {
    match pad
    case Numeric => if coord == (3, 0) then false else coord.0 <= 3 && coord.1 <= 2
    case Directional => if coord == (0, 0) then false else coord.0 <= 1 && coord.1 <= 2
  }

  /** Every button sits on a cell of its own keypad, and no two buttons share a cell. */
  lemma CoordinatesAreButtons(pad: Pad, a: KeyPadButton, b: KeyPadButton)
    requires OnPad(pad, a) && OnPad(pad, b)
    ensures Contains(pad, Coordinate(pad, a))
    ensures Coordinate(pad, a) == Coordinate(pad, b) ==> a == b
  {
  }

  /** `[x].repeat(n)` */
  function Rep(x: DirectionButton, n: nat): (r: seq<DirectionButton>)
    ensures |r| == n
  {
    seq(n, _ => x)
  }

  /** Every move of a run is the same move. */
  lemma RepAll(x: DirectionButton, n: nat)
    ensures forall i :: 0 <= i < n ==> Rep(x, n)[i] == x
  {
  }

  /** The run of moves along one axis from coordinate a to coordinate b:
      |a - b| copies of the move pointing from a towards b. */
  function Repeat(positive: DirectionButton, negative: DirectionButton, a: U8, b: U8): seq<DirectionButton>
  {
    Rep(if a < b then positive else negative, if a < b then b - a else a - b)
  }

  function VerticalMove(a: Coordinates, b: Coordinates): DirectionButton
  {
    if a.0 < b.0 then Down else Up
  }

  function HorizontalMove(a: Coordinates, b: Coordinates): DirectionButton
  {
    if a.1 < b.1 then Right else Left
  }

  function AbsDiff(x: int, y: int): nat
  {
    if x < y then y - x else x - y
  }

  /** The move multiset between two cells, vertical run first. */
  function Moves(a: Coordinates, b: Coordinates): seq<DirectionButton>
  {
    Repeat(Down, Up, a.0, b.0) + Repeat(Right, Left, a.1, b.1)
  }

  function Manhattan(a: Coordinates, b: Coordinates): nat
  {
    AbsDiff(a.0, b.0) + AbsDiff(a.1, b.1)
  }

  /** Occurrences of a move in a sequence of moves. */
  function Count(s: seq<DirectionButton>, x: DirectionButton): nat
  {
    if s == [] then 0 else (if s[0] == x then 1 else 0) + Count(s[1..], x)
  }

  lemma {:induction false} CountAppend(s: seq<DirectionButton>, t: seq<DirectionButton>, x: DirectionButton)
    ensures Count(s + t, x) == Count(s, x) + Count(t, x)
  {
    if s == [] {
      assert s + t == t;
    } else {
      assert (s + t)[1..] == s[1..] + t;
      CountAppend(s[1..], t, x);
    }
  }

  lemma {:induction false} CountRep(x: DirectionButton, n: nat, y: DirectionButton)
    ensures Count(Rep(x, n), y) == if x == y then n else 0
  {
    if n > 0 {
      assert Rep(x, n)[1..] == Rep(x, n - 1);
      CountRep(x, n - 1, y);
    }
  }

  /** Two move sequences are permutations of each other when every move
      occurs equally often in both. */
  predicate SameMoves(s: seq<DirectionButton>, t: seq<DirectionButton>)
  {
    Count(s, Up) == Count(t, Up) && Count(s, Down) == Count(t, Down)
    && Count(s, Left) == Count(t, Left) && Count(s, Right) == Count(t, Right)
  }

  lemma {:induction false} CountsCoverLength(s: seq<DirectionButton>)
    ensures Count(s, Up) + Count(s, Down) + Count(s, Left) + Count(s, Right) == |s|
  {
    if s != [] {
      CountsCoverLength(s[1..]);
    }
  }

  /** Equal counts of every move is the same thing as equal multisets. */
  lemma {:induction false} CountIsMultiplicity(s: seq<DirectionButton>, x: DirectionButton)
    ensures multiset(s)[x] == Count(s, x)
  {
    if s != [] {
      assert s == [s[0]] + s[1..];
      CountIsMultiplicity(s[1..], x);
    }
  }

  lemma SameMovesIsPermutation(s: seq<DirectionButton>, t: seq<DirectionButton>)
    ensures SameMoves(s, t) <==> multiset(s) == multiset(t)
  {
    forall x ensures multiset(s)[x] == Count(s, x) && multiset(t)[x] == Count(t, x) {
      CountIsMultiplicity(s, x);
      CountIsMultiplicity(t, x);
    }
    if SameMoves(s, t) {
      forall x ensures multiset(s)[x] == multiset(t)[x] {
        match x
        case Up =>
        case Down =>
        case Left =>
        case Right =>
      }
    }
  }

  /** The move multiset has |ra - rb| vertical and |ca - cb| horizontal moves,
      each pointing towards the target, so it has Manhattan length and a
      walk of it (ignoring the hole) ends on the target's row and column. */
  lemma MovesPointAtTarget(a: Coordinates, b: Coordinates)
    ensures |Moves(a, b)| == Manhattan(a, b)
    ensures Count(Moves(a, b), VerticalMove(a, b)) == AbsDiff(a.0, b.0)
    ensures Count(Moves(a, b), HorizontalMove(a, b)) == AbsDiff(a.1, b.1)
    ensures forall m :: m in Moves(a, b) ==> m == VerticalMove(a, b) || m == HorizontalMove(a, b)
    ensures Shifted(a, VerticalMove(a, b), AbsDiff(a.0, b.0)).0 == b.0
    ensures Shifted(a, HorizontalMove(a, b), AbsDiff(a.1, b.1)).1 == b.1
  {
    var v, h := VerticalMove(a, b), HorizontalMove(a, b);
    assert Moves(a, b) == Rep(v, AbsDiff(a.0, b.0)) + Rep(h, AbsDiff(a.1, b.1));
    CountAppend(Rep(v, AbsDiff(a.0, b.0)), Rep(h, AbsDiff(a.1, b.1)), v);
    CountAppend(Rep(v, AbsDiff(a.0, b.0)), Rep(h, AbsDiff(a.1, b.1)), h);
    CountRep(v, AbsDiff(a.0, b.0), v);
    CountRep(h, AbsDiff(a.1, b.1), v);
    CountRep(v, AbsDiff(a.0, b.0), h);
    CountRep(h, AbsDiff(a.1, b.1), h);
  }

  function Prepend(x: DirectionButton, ss: seq<seq<DirectionButton>>): (r: seq<seq<DirectionButton>>)
    ensures |r| == |ss|
    ensures forall i :: 0 <= i < |ss| ==> r[i] == [x] + ss[i]
  {
    seq(|ss|, i requires 0 <= i < |ss| => [x] + ss[i])
  }

  /** A sequence made of nv copies of v and nh copies of h and nothing else. */
  predicate IsArrangement(s: seq<DirectionButton>, v: DirectionButton, nv: nat, h: DirectionButton, nh: nat)
  {
    |s| == nv + nh && Count(s, v) == nv && Count(s, h) == nh
  }

  /** Every distinct arrangement of nv copies of v and nh copies of h. */
  function Arrangements(v: DirectionButton, nv: nat, h: DirectionButton, nh: nat): (r: seq<seq<DirectionButton>>)
    requires v != h
    ensures forall i :: 0 <= i < |r| ==> IsArrangement(r[i], v, nv, h, nh)
    decreases nv + nh
  {
    if nv == 0 then
      CountRep(h, nh, v);
      CountRep(h, nh, h);
      [Rep(h, nh)]
    else if nh == 0 then
      CountRep(v, nv, v);
      CountRep(v, nv, h);
      [Rep(v, nv)]
    else
      var left := Arrangements(v, nv - 1, h, nh);
      var right := Arrangements(v, nv, h, nh - 1);
      assert forall j :: 0 <= j < |left| ==> ([v] + left[j])[1..] == left[j];
      assert forall j :: 0 <= j < |right| ==> ([h] + right[j])[1..] == right[j];
      Prepend(v, left) + Prepend(h, right)
  }

  lemma InPrepend(x: DirectionButton, ss: seq<seq<DirectionButton>>, s: seq<DirectionButton>)
    ensures s in Prepend(x, ss) <==> s != [] && s[0] == x && s[1..] in ss
  {
    if s in Prepend(x, ss) {
      var i :| 0 <= i < |ss| && Prepend(x, ss)[i] == s;
      assert s[1..] == ss[i];
    }
    if s != [] && s[0] == x && s[1..] in ss {
      var i :| 0 <= i < |ss| && ss[i] == s[1..];
      assert Prepend(x, ss)[i] == s;
    }
  }

  lemma {:induction false} OnlyRep(s: seq<DirectionButton>, x: DirectionButton)
    requires Count(s, x) == |s|
    ensures s == Rep(x, |s|)
  {
    if s != [] {
      assert Count(s[1..], x) <= |s[1..]| by {
        CountAtMostLength(s[1..], x);
      }
      OnlyRep(s[1..], x);
      assert s == [x] + Rep(x, |s| - 1);
    }
  }

  lemma {:induction false} CountAtMostLength(s: seq<DirectionButton>, x: DirectionButton)
    ensures Count(s, x) <= |s|
  {
    if s != [] {
      CountAtMostLength(s[1..], x);
    }
  }

  lemma {:induction false} TwoCountsAtMostLength(s: seq<DirectionButton>, v: DirectionButton, h: DirectionButton)
    requires v != h
    ensures Count(s, v) + Count(s, h) <= |s|
    ensures s != [] && s[0] != v && s[0] != h ==> Count(s, v) + Count(s, h) < |s|
  {
    if s != [] {
      TwoCountsAtMostLength(s[1..], v, h);
    }
  }

  /** Every arrangement of the moves appears among the candidates. */
  lemma {:induction false} ArrangementsComplete(v: DirectionButton, nv: nat, h: DirectionButton, nh: nat, s: seq<DirectionButton>)
    requires v != h
    requires IsArrangement(s, v, nv, h, nh)
    ensures s in Arrangements(v, nv, h, nh)
    decreases nv + nh, 1
  {
    if nv == 0 || nh == 0 {
      RunIsArrangement(v, nv, h, nh, s);
    } else {
      ConsArrangementComplete(v, nv, h, nh, s);
    }
  }

  /** An arrangement of both moves is one move in front of a shorter
      arrangement, which is complete by induction. */
  lemma ConsArrangementComplete(v: DirectionButton, nv: nat, h: DirectionButton, nh: nat, s: seq<DirectionButton>)
    requires v != h && nv > 0 && nh > 0
    requires IsArrangement(s, v, nv, h, nh)
    ensures s in Arrangements(v, nv, h, nh)
    decreases nv + nh, 0
  {
    TailArrangement(v, nv, h, nh, s);
    var tail := s[1..];
    if s[0] == v {
      ArrangementsComplete(v, nv - 1, h, nh, tail);
      ConsArrangement(v, nv, h, nh, s, true);
    } else {
      ArrangementsComplete(v, nv, h, nh - 1, tail);
      ConsArrangement(v, nv, h, nh, s, false);
    }
  }

  /** With only one kind of move there is one arrangement: the run. */
  lemma RunIsArrangement(v: DirectionButton, nv: nat, h: DirectionButton, nh: nat, s: seq<DirectionButton>)
    requires v != h && (nv == 0 || nh == 0)
    requires IsArrangement(s, v, nv, h, nh)
    ensures s in Arrangements(v, nv, h, nh)
  {
    if nv == 0 {
      OnlyRep(s, h);
    } else {
      OnlyRep(s, v);
    }
  }

  /** Removing the first move of an arrangement leaves an arrangement with one
      fewer of that move. */
  lemma TailArrangement(v: DirectionButton, nv: nat, h: DirectionButton, nh: nat, s: seq<DirectionButton>)
    requires v != h && nv > 0 && nh > 0
    requires IsArrangement(s, v, nv, h, nh)
    ensures s[0] == v ==> IsArrangement(s[1..], v, nv - 1, h, nh)
    ensures s[0] != v ==> s[0] == h && IsArrangement(s[1..], v, nv, h, nh - 1)
  {
    TwoCountsAtMostLength(s, v, h);
  }

  /** An arrangement starting with v (resp. h) whose tail is an arrangement of
      one v (resp. h) fewer is one of the arrangements. */
  lemma ConsArrangement(v: DirectionButton, nv: nat, h: DirectionButton, nh: nat, s: seq<DirectionButton>, vertical: bool)
    requires v != h && nv > 0 && nh > 0 && s != []
    requires vertical ==> s[0] == v && s[1..] in Arrangements(v, nv - 1, h, nh)
    requires !vertical ==> s[0] == h && s[1..] in Arrangements(v, nv, h, nh - 1)
    ensures s in Arrangements(v, nv, h, nh)
  {
    var left := Arrangements(v, nv - 1, h, nh);
    var right := Arrangements(v, nv, h, nh - 1);
    assert Arrangements(v, nv, h, nh) == Prepend(v, left) + Prepend(h, right);
    if vertical {
      InPrepend(v, left, s);
    } else {
      InPrepend(h, right, s);
    }
  }

  /** The candidate move sequences for a transition: every distinct
      permutation of the move multiset between the two buttons. */
  function Candidates(pad: Pad, a: KeyPadButton, b: KeyPadButton): seq<seq<DirectionButton>>
    requires OnPad(pad, a) && OnPad(pad, b)
  {
    var ca, cb := Coordinate(pad, a), Coordinate(pad, b);
    Arrangements(VerticalMove(ca, cb), AbsDiff(ca.0, cb.0), HorizontalMove(ca, cb), AbsDiff(ca.1, cb.1))
  }

  /** The candidates are exactly the permutations of `Moves` (the source's
      `permutations`, without repeats); in particular each has Manhattan length. */
  lemma CandidatesArePermutations(pad: Pad, a: KeyPadButton, b: KeyPadButton, s: seq<DirectionButton>)
    requires OnPad(pad, a) && OnPad(pad, b)
    ensures s in Candidates(pad, a, b) <==> multiset(s) == multiset(Moves(Coordinate(pad, a), Coordinate(pad, b)))
    ensures s in Candidates(pad, a, b) ==> |s| == Manhattan(Coordinate(pad, a), Coordinate(pad, b))
  {
    var ca, cb := Coordinate(pad, a), Coordinate(pad, b);
    var v, h := VerticalMove(ca, cb), HorizontalMove(ca, cb);
    var nv, nh := AbsDiff(ca.0, cb.0), AbsDiff(ca.1, cb.1);
    var moves := Moves(ca, cb);
    MovesPointAtTarget(ca, cb);
    SameMovesIsPermutation(s, moves);
    CountsCoverLength(s);
    CountsCoverLength(moves);
    if s in Candidates(pad, a, b) {
      var i :| 0 <= i < |Candidates(pad, a, b)| && Candidates(pad, a, b)[i] == s;
      assert IsArrangement(s, v, nv, h, nh);
      assert SameMoves(s, moves);
    }
    if SameMoves(s, moves) {
      ArrangementsComplete(v, nv, h, nh, s);
    }
  }

  /** The walk of `check_moves`: every step must stay in the byte range and
      land on a button of the keypad. */
  predicate SafeWalk(pad: Pad, moves: seq<DirectionButton>, start: Coordinates)
    decreases |moves|
  {
    if moves == [] then true
    else match ApplyMove(start, moves[0])
      case None => false
      case Some(next) => Contains(pad, next) && SafeWalk(pad, moves[1..], next)
  }

  /** Where a walk ends, or None if some step leaves the byte range. */
  function Visit(start: Coordinates, moves: seq<DirectionButton>): Option<Coordinates>
    decreases |moves|
  {
    if moves == [] then Some(start)
    else match ApplyMove(start, moves[0])
      case None => None
      case Some(next) => Visit(next, moves[1..])
  }

  /** `check_moves` accepts exactly the walks in which no step underflows and
      every cell visited after a step is a button (never the hole, never off
      the grid). */
  lemma {:induction false} SafeWalkVisitsButtons(pad: Pad, moves: seq<DirectionButton>, start: Coordinates)
    ensures SafeWalk(pad, moves, start) <==>
      forall k :: 1 <= k <= |moves| ==> Visit(start, moves[..k]).Some? && Contains(pad, Visit(start, moves[..k]).value)
  {
    if moves != [] {
      match ApplyMove(start, moves[0])
      case None =>
        assert Visit(start, moves[..1]).None?;
      case Some(next) =>
        SafeWalkVisitsButtons(pad, moves[1..], next);
        forall k | 1 <= k <= |moves|
          ensures Visit(start, moves[..k]) == if k == 1 then Some(next) else Visit(next, moves[1..][..k - 1])
        {
          assert moves[..k][1..] == moves[1..][..k - 1];
          assert Visit(next, []) == Some(next);
        }
        if SafeWalk(pad, moves, start) {
          forall k | 1 <= k <= |moves|
            ensures Visit(start, moves[..k]).Some? && Contains(pad, Visit(start, moves[..k]).value)
          {
            if k > 1 {
              assert 1 <= k - 1 <= |moves[1..]|;
            }
          }
        } else {
          if Contains(pad, next) {
            var k :| 1 <= k <= |moves[1..]| && !(Visit(next, moves[1..][..k]).Some? && Contains(pad, Visit(next, moves[1..][..k]).value));
            assert Visit(start, moves[..k + 1]) == Visit(next, moves[1..][..k]);
          } else {
            assert Visit(start, moves[..1]) == Some(next);
          }
        }
    }
  }

  /** `check_moves`: walk the candidate from the start cell, failing on the
      first step that underflows or leaves the keypad. */
  method CheckMoves(pad: Pad, moves: seq<DirectionButton>, start: Coordinates) returns (ok: bool)
    ensures ok == SafeWalk(pad, moves, start)
  {
    var position := start;
    for i := 0 to |moves|
      invariant SafeWalk(pad, moves, start) == SafeWalk(pad, moves[i..], position)
    {
      assert moves[i..][1..] == moves[i + 1..];
      match ApplyMove(position, moves[i]) {
        case Some(newPos) =>
          if !Contains(pad, newPos) {
            return false;
          }
          position := newPos;
        case None =>
          return false;
      }
    }
    return true;
  }

  /** A cell given as integers is a byte pair that is a button of the keypad. */
  predicate CellOk(pad: Pad, cell: (int, int))
  {
    0 <= cell.0 < 256 && 0 <= cell.1 < 256 && Contains(pad, (cell.0, cell.1))
  }

  lemma SafeWalkStep(pad: Pad, mv: DirectionButton, p: Coordinates, next: Coordinates, rest: seq<DirectionButton>)
    requires ApplyMove(p, mv) == Some(next) && Contains(pad, next)
    ensures SafeWalk(pad, [mv] + rest, p) == SafeWalk(pad, rest, next)
  {
    assert ([mv] + rest)[1..] == rest;
  }

  /** Every cell of the k-step run from p (p excluded) is a button. */
  predicate RunOk(pad: Pad, p: Coordinates, mv: DirectionButton, k: nat)
  {
    forall i :: 1 <= i <= k ==> CellOk(pad, Shifted(p, mv, i))
  }

  lemma {:induction false} WalkRun(pad: Pad, mv: DirectionButton, k: nat, p: Coordinates, rest: seq<DirectionButton>)
    requires RunOk(pad, p, mv, k)
    ensures 0 <= Shifted(p, mv, k).0 < 256 && 0 <= Shifted(p, mv, k).1 < 256
    ensures SafeWalk(pad, Rep(mv, k) + rest, p) == SafeWalk(pad, rest, (Shifted(p, mv, k).0, Shifted(p, mv, k).1))
  {
    if k > 0 {
      var first := Shifted(p, mv, 1);
      assert CellOk(pad, first);
      var next: Coordinates := (first.0, first.1);
      assert SafeWalk(pad, Rep(mv, k) + rest, p) == SafeWalk(pad, Rep(mv, k - 1) + rest, next) by {
        assert Rep(mv, k) + rest == [mv] + (Rep(mv, k - 1) + rest);
        SafeWalkStep(pad, mv, p, next, Rep(mv, k - 1) + rest);
      }
      RunTailOk(pad, mv, k, p, next);
      WalkRun(pad, mv, k - 1, next, rest);
      ShiftedFromNext(p, mv, k - 1, next);
    } else {
      assert Rep(mv, k) + rest == rest;
    }
  }

  /** A run shifted from the first cell of another run is that run, one step on. */
  lemma ShiftedFromNext(p: Coordinates, mv: DirectionButton, i: int, next: Coordinates)
    requires next.0 == Shifted(p, mv, 1).0 && next.1 == Shifted(p, mv, 1).1
    ensures Shifted(next, mv, i) == Shifted(p, mv, i + 1)
  {
  }

  lemma RunTailOk(pad: Pad, mv: DirectionButton, k: nat, p: Coordinates, next: Coordinates)
    requires k > 0 && RunOk(pad, p, mv, k)
    requires next.0 == Shifted(p, mv, 1).0 && next.1 == Shifted(p, mv, 1).1
    ensures RunOk(pad, next, mv, k - 1)
  {
    forall i | 1 <= i <= k - 1
      ensures CellOk(pad, Shifted(next, mv, i))
    {
      ShiftedFromNext(p, mv, i, next);
    }
  }

  /** z lies after x on the way from x to y (y included). */
  predicate Toward(x: int, y: int, z: int)
  {
    (x < z <= y) || (y <= z < x)
  }

  /** The vertical run from row a.0 to row b.0 along column `col` stays on buttons
      unless the hole is on it. */
  lemma ColumnRunOk(pad: Pad, a: Coordinates, b: Coordinates, col: U8)
    requires Contains(pad, a) && Contains(pad, b) && (col == a.1 || col == b.1)
    requires !(Hole(pad).1 == col && Toward(a.0, b.0, Hole(pad).0))
    ensures RunOk(pad, (a.0, col), VerticalMove(a, b), AbsDiff(a.0, b.0))
  {
  }

  /** The horizontal run from column a.1 to column b.1 along row `row` stays on
      buttons unless the hole is on it. */
  lemma RowRunOk(pad: Pad, a: Coordinates, b: Coordinates, row: U8)
    requires Contains(pad, a) && Contains(pad, b) && (row == a.0 || row == b.0)
    requires !(Hole(pad).0 == row && Toward(a.1, b.1, Hole(pad).1))
    ensures RunOk(pad, (row, a.1), HorizontalMove(a, b), AbsDiff(a.1, b.1))
  {
  }

  /** The hole is a corner and neither end is the hole, so it cannot lie on
      both L-shaped routes. */
  lemma HoleMissesOneRoute(pad: Pad, a: Coordinates, b: Coordinates)
    requires Contains(pad, a) && Contains(pad, b)
    ensures var hole := Hole(pad);
      !((hole.1 == a.1 && Toward(a.0, b.0, hole.0)) || (hole.0 == b.0 && Toward(a.1, b.1, hole.1)))
      || !((hole.0 == a.0 && Toward(a.1, b.1, hole.1)) || (hole.1 == b.1 && Toward(a.0, b.0, hole.0)))
  {
  }

  /** Both keypads have a corner hole, so between any two buttons one of the
      two L-shaped routes (vertical first or horizontal first) avoids it. */
  lemma LShapedRouteIsSafe(pad: Pad, a: Coordinates, b: Coordinates)
    requires Contains(pad, a) && Contains(pad, b)
    ensures SafeWalk(pad, Rep(VerticalMove(a, b), AbsDiff(a.0, b.0)) + Rep(HorizontalMove(a, b), AbsDiff(a.1, b.1)), a)
         || SafeWalk(pad, Rep(HorizontalMove(a, b), AbsDiff(a.1, b.1)) + Rep(VerticalMove(a, b), AbsDiff(a.0, b.0)), a)
  {
    var hole := Hole(pad);
    HoleMissesOneRoute(pad, a, b);
    if !((hole.1 == a.1 && Toward(a.0, b.0, hole.0)) || (hole.0 == b.0 && Toward(a.1, b.1, hole.1))) {
      VerticalFirstIsSafe(pad, a, b);
    } else {
      HorizontalFirstIsSafe(pad, a, b);
    }
  }

  /** The vertical run from a ends level with a in b's row, the horizontal
      run in b's column. */
  lemma RunEnds(a: Coordinates, b: Coordinates)
    ensures Shifted(a, VerticalMove(a, b), AbsDiff(a.0, b.0)) == (b.0, a.1)
    ensures Shifted(a, HorizontalMove(a, b), AbsDiff(a.1, b.1)) == (a.0, b.1)
  {
  }

  /** Vertical run first is safe when the hole is on neither of its legs. */
  lemma VerticalFirstIsSafe(pad: Pad, a: Coordinates, b: Coordinates)
    requires Contains(pad, a) && Contains(pad, b)
    requires var hole := Hole(pad);
      !((hole.1 == a.1 && Toward(a.0, b.0, hole.0)) || (hole.0 == b.0 && Toward(a.1, b.1, hole.1)))
    ensures SafeWalk(pad, Rep(VerticalMove(a, b), AbsDiff(a.0, b.0)) + Rep(HorizontalMove(a, b), AbsDiff(a.1, b.1)), a)
  {
    var v, nv, h, nh := VerticalMove(a, b), AbsDiff(a.0, b.0), HorizontalMove(a, b), AbsDiff(a.1, b.1);
    var corner: Coordinates := (b.0, a.1);
    assert RunOk(pad, a, v, nv) by {
      ColumnRunOk(pad, a, b, a.1);
      assert (a.0, a.1) == a;
    }
    WalkRun(pad, v, nv, a, Rep(h, nh));
    RunEnds(a, b);
    assert Rep(h, nh) == Rep(h, nh) + [];
    RowRunOk(pad, a, b, b.0);
    WalkRun(pad, h, nh, corner, []);
  }

  /** Horizontal run first is safe when the hole is on neither of its legs. */
  lemma HorizontalFirstIsSafe(pad: Pad, a: Coordinates, b: Coordinates)
    requires Contains(pad, a) && Contains(pad, b)
    requires var hole := Hole(pad);
      !((hole.0 == a.0 && Toward(a.1, b.1, hole.1)) || (hole.1 == b.1 && Toward(a.0, b.0, hole.0)))
    ensures SafeWalk(pad, Rep(HorizontalMove(a, b), AbsDiff(a.1, b.1)) + Rep(VerticalMove(a, b), AbsDiff(a.0, b.0)), a)
  {
    var v, nv, h, nh := VerticalMove(a, b), AbsDiff(a.0, b.0), HorizontalMove(a, b), AbsDiff(a.1, b.1);
    var corner: Coordinates := (a.0, b.1);
    assert RunOk(pad, a, h, nh) by {
      RowRunOk(pad, a, b, a.0);
      assert (a.0, a.1) == a;
    }
    WalkRun(pad, h, nh, a, Rep(v, nv));
    RunEnds(a, b);
    assert Rep(v, nv) == Rep(v, nv) + [];
    assert RunOk(pad, corner, v, nv) by {
      ColumnRunOk(pad, a, b, b.1);
    }
    WalkRun(pad, v, nv, corner, []);
  }

  /** The two L-shaped routes are among the arrangements. */
  lemma RunsAreArrangements(v: DirectionButton, nv: nat, h: DirectionButton, nh: nat)
    requires v != h
    ensures Rep(v, nv) + Rep(h, nh) in Arrangements(v, nv, h, nh)
    ensures Rep(h, nh) + Rep(v, nv) in Arrangements(v, nv, h, nh)
  {
    CountAppend(Rep(v, nv), Rep(h, nh), v);
    CountAppend(Rep(v, nv), Rep(h, nh), h);
    CountAppend(Rep(h, nh), Rep(v, nv), v);
    CountAppend(Rep(h, nh), Rep(v, nv), h);
    CountRep(v, nv, v);
    CountRep(v, nv, h);
    CountRep(h, nh, v);
    CountRep(h, nh, h);
    ArrangementsComplete(v, nv, h, nh, Rep(v, nv) + Rep(h, nh));
    ArrangementsComplete(v, nv, h, nh, Rep(h, nh) + Rep(v, nv));
  }

  /** Some candidate of every transition is safe: the "Failed to find safe
      route" abort cannot happen on either keypad. */
  lemma SafeCandidateExists(pad: Pad, a: KeyPadButton, b: KeyPadButton)
    requires OnPad(pad, a) && OnPad(pad, b)
    ensures exists s :: s in Candidates(pad, a, b) && SafeWalk(pad, s, Coordinate(pad, a))
  {
    var ca, cb := Coordinate(pad, a), Coordinate(pad, b);
    var v, nv, h, nh := VerticalMove(ca, cb), AbsDiff(ca.0, cb.0), HorizontalMove(ca, cb), AbsDiff(ca.1, cb.1);
    var first := Rep(v, nv) + Rep(h, nh);
    var second := Rep(h, nh) + Rep(v, nv);
    CoordinatesAreButtons(pad, a, b);
    CoordinatesAreButtons(pad, b, a);
    LShapedRouteIsSafe(pad, ca, cb);
    RunsAreArrangements(v, nv, h, nh);
    if SafeWalk(pad, first, ca) {
      assert first in Candidates(pad, a, b);
    } else {
      assert second in Candidates(pad, a, b);
    }
  }

  /** Smallest element, None for an empty sequence. */
  function MinOpt(xs: seq<nat>): (m: Option<nat>)
    ensures m.None? <==> xs == []
    ensures m.Some? ==> m.value in xs && forall i :: 0 <= i < |xs| ==> m.value <= xs[i]
  {
    if xs == [] then None else Some(Min(xs))
  }

  lemma MinOptAppend(xs: seq<nat>, y: nat)
    ensures MinOpt(xs + [y]) == Some(if xs == [] || y < MinOpt(xs).value then y else MinOpt(xs).value)
  {
    var m := MinOpt(xs + [y]).value;
    var expected := if xs == [] || y < MinOpt(xs).value then y else MinOpt(xs).value;
    assert forall i :: 0 <= i < |xs| ==> (xs + [y])[i] == xs[i];
    if xs != [] {
      assert m <= MinOpt(xs).value;
      assert MinOpt(xs).value in xs + [y];
    }
    assert (xs + [y])[|xs|] == y;
    assert m <= y && expected in xs + [y];
  }

  function Arrows(moves: seq<DirectionButton>): (keys: seq<KeyPadButton>)
    ensures |keys| == |moves|
    ensures AllOnPad(Directional, keys)
  {
    seq(|moves|, i requires 0 <= i < |moves| => Arrow(moves[i]))
  }

  /** Enter, then the keys, then Enter: the arm starts and ends on Enter. */
  function Bracket(keys: seq<KeyPadButton>): (r: seq<KeyPadButton>)
    ensures |r| == |keys| + 2
  {
    [Enter] + keys + [Enter]
  }

  /** A bracketed sequence starts and ends on Enter with `keys` between. */
  lemma BracketParts(keys: seq<KeyPadButton>)
    ensures var r := Bracket(keys); r[0] == Enter && r[|r| - 1] == Enter && r[1..|r| - 1] == keys
  {
    var r := Bracket(keys);
    assert r[1..|r| - 1] == keys;
  }

  /** Human presses to press `moves` and then Enter on the keypad that
      controls a link with `level` directional links above it
      (`iterate`): with no controller it is one press per symbol. */
  function IterateCost(level: nat, moves: seq<DirectionButton>): nat
    decreases level, 0, 0, 0
  {
    if level == 0 then |moves| + 1
    else MinPresses(Directional, level - 1, Arrows(moves))
  }

  /** Costs of the safe candidates among `cs`, in order. */
  function CandidateCosts(pad: Pad, level: nat, start: Coordinates, cs: seq<seq<DirectionButton>>): seq<nat>
    decreases level, 1, |cs|, 0
  {
    if cs == [] then []
    else
      var last := cs[|cs| - 1];
      CandidateCosts(pad, level, start, cs[..|cs| - 1]) + (if SafeWalk(pad, last, start) then [IterateCost(level, last)] else [])
  }

  /** One more candidate adds its cost when it is safe. */
  lemma CandidateCostsSnoc(pad: Pad, level: nat, start: Coordinates, cs: seq<seq<DirectionButton>>, i: nat)
    requires i < |cs|
    ensures CandidateCosts(pad, level, start, cs[..i + 1])
      == CandidateCosts(pad, level, start, cs[..i]) + (if SafeWalk(pad, cs[i], start) then [IterateCost(level, cs[i])] else [])
  {
    assert cs[..i + 1][..i] == cs[..i];
  }

  lemma {:induction false} CandidateCostsNonEmpty(pad: Pad, level: nat, start: Coordinates, cs: seq<seq<DirectionButton>>)
    requires exists s :: s in cs && SafeWalk(pad, s, start)
    ensures CandidateCosts(pad, level, start, cs) != []
    decreases level, 1, |cs|, 1
  {
    var s :| s in cs && SafeWalk(pad, s, start);
    if cs[|cs| - 1] != s {
      assert s in cs[..|cs| - 1];
      CandidateCostsNonEmpty(pad, level, start, cs[..|cs| - 1]);
    }
  }

  /** The fewest human presses for the arm of this link (`level` directional
      links above it) to go from `a` to `b` and press `b`: the minimum over
      the safe candidates of the cost of typing that candidate and Enter one
      level up (`expand_pair`). */
  function ExpandCost(pad: Pad, level: nat, a: KeyPadButton, b: KeyPadButton): nat
    requires OnPad(pad, a) && OnPad(pad, b)
    decreases level, 2, 0, 0
  {
    var start, cs := Coordinate(pad, a), Candidates(pad, a, b);
    SafeCandidateExists(pad, a, b);
    CandidateCostsNonEmpty(pad, level, start, cs);
    Min(CandidateCosts(pad, level, start, cs))
  }

  /** Sum of the transition costs over adjacent pairs of `keys`. */
  function PairsCost(pad: Pad, level: nat, keys: seq<KeyPadButton>): nat
    requires AllOnPad(pad, keys)
    decreases level, 3, |keys|, 0
  {
    if |keys| < 2 then 0
    else PairsCost(pad, level, keys[..|keys| - 1]) + ExpandCost(pad, level, keys[|keys| - 2], keys[|keys| - 1])
  }

  /** `key_presses`: the human presses for this link's arm to type `keys`,
      starting and ending on Enter. */
  function MinPresses(pad: Pad, level: nat, keys: seq<KeyPadButton>): nat
    requires AllOnPad(pad, keys)
    decreases level, 4, 0, 0
  {
    PairsCost(pad, level, Bracket(keys))
  }

  /** The transition costs of adjacent pairs of `keys`, one per pair, in order. */
  function PairCostList(pad: Pad, level: nat, keys: seq<KeyPadButton>): (r: seq<nat>)
    requires AllOnPad(pad, keys)
    ensures |r| == if keys == [] then 0 else |keys| - 1
  {
    if |keys| < 2 then []
    else PairCostList(pad, level, keys[..|keys| - 1]) + [ExpandCost(pad, level, keys[|keys| - 2], keys[|keys| - 1])]
  }

  /** Entry i of the list is the cost of moving from key i to key i + 1. */
  lemma {:induction false} PairCostListAt(pad: Pad, level: nat, keys: seq<KeyPadButton>, i: nat)
    requires AllOnPad(pad, keys) && i + 1 < |keys|
    ensures PairCostList(pad, level, keys)[i] == ExpandCost(pad, level, keys[i], keys[i + 1])
    decreases |keys|
  {
    var init := keys[..|keys| - 1];
    if i + 2 < |keys| {
      PairCostListAt(pad, level, init, i);
      assert init[i] == keys[i] && init[i + 1] == keys[i + 1];
    }
  }

  lemma {:induction false} PairsCostIsSumOfPairs(pad: Pad, level: nat, keys: seq<KeyPadButton>)
    requires AllOnPad(pad, keys)
    ensures PairsCost(pad, level, keys) == Sum(PairCostList(pad, level, keys))
    decreases |keys|
  {
    if |keys| >= 2 {
      var init := keys[..|keys| - 1];
      var last := ExpandCost(pad, level, keys[|keys| - 2], keys[|keys| - 1]);
      PairsCostIsSumOfPairs(pad, level, init);
      SumAppend(PairCostList(pad, level, init), [last]);
      assert Sum([last]) == last + Sum([]);
    }
  }

  /** `key_presses` brackets the keys with Enter on both sides and adds up
      the cost of the n + 1 adjacent pairs. */
  lemma KeyPressesSumsPairs(pad: Pad, level: nat, keys: seq<KeyPadButton>)
    requires AllOnPad(pad, keys)
    ensures |PairCostList(pad, level, Bracket(keys))| == |keys| + 1
    ensures MinPresses(pad, level, keys) == Sum(PairCostList(pad, level, Bracket(keys)))
    ensures keys == [] ==> MinPresses(pad, level, keys) == ExpandCost(pad, level, Enter, Enter)
  {
    PairsCostIsSumOfPairs(pad, level, Bracket(keys));
    if keys == [] {
      assert Bracket(keys)[..1] == [Enter];
    }
  }

  /** Total distance the arm travels over the adjacent pairs among the
      first n of `keys`. */
  function Travel(pad: Pad, keys: seq<KeyPadButton>, n: nat): nat
    requires AllOnPad(pad, keys) && n <= |keys|
  {
    if n < 2 then 0
    else Travel(pad, keys, n - 1) + Manhattan(Coordinate(pad, keys[n - 2]), Coordinate(pad, keys[n - 1]))
  }

  /** Extending a prefix of `keys` by the key at position n - 1 adds the
      cost of the transition from `a` to `b`. */
  lemma PrefixPairsStep(pad: Pad, level: nat, keys: seq<KeyPadButton>, n: nat, a: KeyPadButton, b: KeyPadButton)
    requires AllOnPad(pad, keys) && 2 <= n <= |keys| && a == keys[n - 2] && b == keys[n - 1]
    requires OnPad(pad, a) && OnPad(pad, b)
    ensures AllOnPad(pad, keys[..n]) && AllOnPad(pad, keys[..n - 1])
    ensures PairsCost(pad, level, keys[..n]) == PairsCost(pad, level, keys[..n - 1]) + ExpandCost(pad, level, a, b)
  {
    var p, init := keys[..n], keys[..n - 1];
    assert p[..n - 1] == init;
    assert p[n - 2] == a && p[n - 1] == b;
    PairsCostLast(pad, level, p, init, a, b);
  }

  lemma PairsCostLast(pad: Pad, level: nat, keys: seq<KeyPadButton>, init: seq<KeyPadButton>, a: KeyPadButton, b: KeyPadButton)
    requires AllOnPad(pad, keys) && |keys| >= 2 && init == keys[..|keys| - 1]
    requires a == keys[|keys| - 2] && b == keys[|keys| - 1]
    ensures AllOnPad(pad, init) && OnPad(pad, a) && OnPad(pad, b)
    ensures PairsCost(pad, level, keys) == PairsCost(pad, level, init) + ExpandCost(pad, level, a, b)
  {
  }

  lemma TravelStep(pad: Pad, keys: seq<KeyPadButton>, n: nat, a: KeyPadButton, b: KeyPadButton)
    requires AllOnPad(pad, keys) && 2 <= n <= |keys| && a == keys[n - 2] && b == keys[n - 1]
    ensures OnPad(pad, a) && OnPad(pad, b)
    ensures Travel(pad, keys, n) == Travel(pad, keys, n - 1) + Manhattan(Coordinate(pad, a), Coordinate(pad, b))
  {
  }

  /** Typed directly, the first n keys cost one press per transition plus
      the distance travelled. */
  lemma {:induction false} DirectPrefixCost(pad: Pad, keys: seq<KeyPadButton>, n: nat)
    requires AllOnPad(pad, keys) && 1 <= n <= |keys|
    ensures AllOnPad(pad, keys[..n])
    ensures PairsCost(pad, 0, keys[..n]) + 1 == n + Travel(pad, keys, n)
  {
    if n >= 2 {
      DirectPrefixCost(pad, keys, n - 1);
      var a, b := keys[n - 2], keys[n - 1];
      PrefixPairsStep(pad, 0, keys, n, a, b);
      DirectEntryCost(pad, a, b);
    }
  }

  lemma PairsCostStep(pad: Pad, level: nat, keys: seq<KeyPadButton>)
    requires AllOnPad(pad, keys) && |keys| >= 2
    ensures PairsCost(pad, level, keys)
      == PairsCost(pad, level, keys[..|keys| - 1]) + ExpandCost(pad, level, keys[|keys| - 2], keys[|keys| - 1])
  {
  }

  /** Typed directly by a human, a key sequence costs one press per key, one
      for the final Enter, plus the distance the finger travels. */
  lemma DirectPresses(pad: Pad, keys: seq<KeyPadButton>)
    requires AllOnPad(pad, keys)
    ensures MinPresses(pad, 0, keys) == |keys| + 1 + Travel(pad, Bracket(keys), |keys| + 2)
  {
    var k := Bracket(keys);
    DirectPrefixCost(pad, k, |k|);
    assert k[..|k|] == k;
  }

  /** With no controlling keypad a transition costs its Manhattan distance
      plus the Enter press; a repeated button costs 1. */
  lemma DirectEntryCost(pad: Pad, a: KeyPadButton, b: KeyPadButton)
    requires OnPad(pad, a) && OnPad(pad, b)
    ensures ExpandCost(pad, 0, a, b) == Manhattan(Coordinate(pad, a), Coordinate(pad, b)) + 1
    ensures a == b ==> ExpandCost(pad, 0, a, b) == 1
  {
    var start, cs := Coordinate(pad, a), Candidates(pad, a, b);
    var n := Manhattan(start, Coordinate(pad, b));
    AllCostsAreDistance(pad, a, b, cs);
    var costs := CandidateCosts(pad, 0, start, cs);
    SafeCandidateExists(pad, a, b);
    CandidateCostsNonEmpty(pad, 0, start, cs);
    assert Min(costs) in costs;
  }

  lemma {:induction false} AllCostsAreDistance(pad: Pad, a: KeyPadButton, b: KeyPadButton, cs: seq<seq<DirectionButton>>)
    requires OnPad(pad, a) && OnPad(pad, b)
    requires forall s :: s in cs ==> s in Candidates(pad, a, b)
    ensures forall x :: x in CandidateCosts(pad, 0, Coordinate(pad, a), cs) ==> x == Manhattan(Coordinate(pad, a), Coordinate(pad, b)) + 1
  {
    if cs != [] {
      var init, last := cs[..|cs| - 1], cs[|cs| - 1];
      var start := Coordinate(pad, a);
      hide *;
      assert last in cs;
      AllCostsAreDistance(pad, a, b, init);
      CandidatesArePermutations(pad, a, b, last);
      CandidateCostsLast(pad, 0, start, cs);
      IterateCostGround(last);
    }
  }

  lemma IterateCostGround(moves: seq<DirectionButton>)
    ensures IterateCost(0, moves) == |moves| + 1
  {
  }

  /** The cost of the last candidate, when it is safe, comes last. */
  lemma CandidateCostsLast(pad: Pad, level: nat, start: Coordinates, cs: seq<seq<DirectionButton>>)
    requires cs != []
    ensures var last := cs[|cs| - 1];
      CandidateCosts(pad, level, start, cs)
      == CandidateCosts(pad, level, start, cs[..|cs| - 1]) + (if SafeWalk(pad, last, start) then [IterateCost(level, last)] else [])
  {
  }

  // ---- Every cost is at least one press per key, and depth never helps ----

  lemma {:induction false} CandidateCostsAtLeast(pad: Pad, level: nat, start: Coordinates, cs: seq<seq<DirectionButton>>)
    ensures forall x :: x in CandidateCosts(pad, level, start, cs) ==> x >= 1
    decreases level, 1, |cs|
  {
    if cs != [] {
      CandidateCostsAtLeast(pad, level, start, cs[..|cs| - 1]);
      var last := cs[|cs| - 1];
      if level > 0 {
        KeyPressesAtLeast(level - 1, Arrows(last));
      }
    }
  }

  lemma ExpandCostAtLeastOne(pad: Pad, level: nat, a: KeyPadButton, b: KeyPadButton)
    requires OnPad(pad, a) && OnPad(pad, b)
    ensures ExpandCost(pad, level, a, b) >= 1
    decreases level, 2, 0
  {
    var start, cs := Coordinate(pad, a), Candidates(pad, a, b);
    CandidateCostsAtLeast(pad, level, start, cs);
  }

  lemma {:induction false} PairsCostAtLeast(pad: Pad, level: nat, keys: seq<KeyPadButton>)
    requires AllOnPad(pad, keys)
    ensures |keys| >= 1 ==> PairsCost(pad, level, keys) >= |keys| - 1
    decreases level, 3, |keys|
  {
    if |keys| >= 2 {
      PairsCostAtLeast(pad, level, keys[..|keys| - 1]);
      ExpandCostAtLeastOne(pad, level, keys[|keys| - 2], keys[|keys| - 1]);
    }
  }

  /** Typing n keys takes at least n + 1 presses (each of the n + 1
      transitions ends with at least one press). */
  lemma KeyPressesAtLeast(level: nat, keys: seq<KeyPadButton>)
    requires AllOnPad(Directional, keys)
    ensures MinPresses(Directional, level, keys) >= |keys| + 1
    decreases level, 4, 0
  {
    PairsCostAtLeast(Directional, level, Bracket(keys));
  }

  lemma IterateCostMonotone(level: nat, moves: seq<DirectionButton>)
    ensures IterateCost(level + 1, moves) >= IterateCost(level, moves)
    decreases level, 0, 0
  {
    if level == 0 {
      KeyPressesAtLeast(0, Arrows(moves));
    } else {
      PairsCostMonotone(Directional, level - 1, Bracket(Arrows(moves)));
    }
  }

  lemma {:induction false} CandidateCostsMonotone(pad: Pad, level: nat, start: Coordinates, cs: seq<seq<DirectionButton>>)
    ensures |CandidateCosts(pad, level + 1, start, cs)| == |CandidateCosts(pad, level, start, cs)|
    ensures forall i :: 0 <= i < |CandidateCosts(pad, level, start, cs)| ==>
      CandidateCosts(pad, level + 1, start, cs)[i] >= CandidateCosts(pad, level, start, cs)[i]
    decreases level, 1, |cs|
  {
    if cs != [] {
      CandidateCostsMonotone(pad, level, start, cs[..|cs| - 1]);
      IterateCostMonotone(level, cs[|cs| - 1]);
    }
  }

  lemma ExpandCostMonotone(pad: Pad, level: nat, a: KeyPadButton, b: KeyPadButton)
    requires OnPad(pad, a) && OnPad(pad, b)
    ensures ExpandCost(pad, level + 1, a, b) >= ExpandCost(pad, level, a, b)
    decreases level, 2, 0
  {
    var start, cs := Coordinate(pad, a), Candidates(pad, a, b);
    CandidateCostsMonotone(pad, level, start, cs);
    var hi, lo := CandidateCosts(pad, level + 1, start, cs), CandidateCosts(pad, level, start, cs);
    var m := ExpandCost(pad, level + 1, a, b);
    var i :| 0 <= i < |hi| && hi[i] == m;
    assert lo[i] <= hi[i];
  }

  lemma {:induction false} PairsCostMonotone(pad: Pad, level: nat, keys: seq<KeyPadButton>)
    requires AllOnPad(pad, keys)
    ensures PairsCost(pad, level + 1, keys) >= PairsCost(pad, level, keys)
    decreases level, 3, |keys|
  {
    if |keys| >= 2 {
      PairsCostMonotone(pad, level, keys[..|keys| - 1]);
      ExpandCostMonotone(pad, level, keys[|keys| - 2], keys[|keys| - 1]);
    }
  }

  /** A longer chain of robots never makes a code cheaper to type. */
  lemma {:induction false} DeeperChainNeverCheaper(pad: Pad, d1: nat, d2: nat, keys: seq<KeyPadButton>)
    requires AllOnPad(pad, keys) && d1 <= d2
    ensures MinPresses(pad, d2, keys) >= MinPresses(pad, d1, keys)
    decreases d2 - d1
  {
    if d1 < d2 {
      DeeperChainNeverCheaper(pad, d1, d2 - 1, keys);
      PairsCostMonotone(pad, d2 - 1, Bracket(keys));
    }
  }

  // ---- Codes ----

  /** A door code: its number buttons and its numeric value. */
  datatype Code = Code(buttons: seq<NumberButton>, value: nat)

  function DigitKeys(buttons: seq<NumberButton>): (keys: seq<KeyPadButton>)
    ensures |keys| == |buttons| && AllOnPad(Numeric, keys)
    ensures forall i :: 0 <= i < |buttons| ==> keys[i] == Digit(buttons[i])
  {
    seq(|buttons|, i requires 0 <= i < |buttons| => Digit(buttons[i]))
  }

  /** The number buttons named by the digit characters of s, in order. */
  function ButtonsOf(s: string): (r: seq<NumberButton>)
    ensures |r| == |Digits(s)|
    ensures forall i :: 0 <= i < |r| ==> r[i] == DigitValue(Digits(s)[i])
  {
    var d := Digits(s);
    seq(|d|, i requires 0 <= i < |d| => DigitValue(d[i]))
  }

  /** `parse_code`: the digit buttons of the line and the decimal value of its
      digits; a line without digits makes the source's `unwrap` abort, which
      is None here. */
  function ParseCode(s: string): (r: Option<Code>)
    ensures r.Some? <==> exists i :: 0 <= i < |s| && IsDigit(s[i])
    ensures r.Some? ==> r.value.buttons == ButtonsOf(s) && r.value.value == DecimalValue(Digits(s))
  {
    match ParseDigits(Digits(s))
    case None => None
    case Some(v) => Some(Code(ButtonsOf(s), v))
  }

  /** Decimal value of a sequence of number buttons, most significant first. */
  function ButtonsValue(buttons: seq<NumberButton>): nat
  {
    if buttons == [] then 0 else ButtonsValue(buttons[..|buttons| - 1]) * 10 + buttons[|buttons| - 1]
  }

  function DigitChar(d: NumberButton): (c: char)
    ensures IsDigit(c) && DigitValue(c) == d
  {
    ('0' as int + d) as char
  }

  /** The text of a code as the puzzle writes it: its digits then 'A'. */
  function CodeText(buttons: seq<NumberButton>): (s: string)
    ensures |s| == |buttons| + 1
    ensures forall i :: 0 <= i < |buttons| ==> s[i] == DigitChar(buttons[i])
    ensures s[|buttons|] == 'A'
  {
    seq(|buttons|, i requires 0 <= i < |buttons| => DigitChar(buttons[i])) + "A"
  }

  lemma {:induction false} DigitsOfText(buttons: seq<NumberButton>, tail: string)
    requires forall i :: 0 <= i < |tail| ==> !IsDigit(tail[i])
    ensures Digits(seq(|buttons|, i requires 0 <= i < |buttons| => DigitChar(buttons[i])) + tail)
      == seq(|buttons|, i requires 0 <= i < |buttons| => DigitChar(buttons[i]))
  {
    var text := seq(|buttons|, i requires 0 <= i < |buttons| => DigitChar(buttons[i]));
    if buttons == [] {
      assert text + tail == tail;
    } else {
      var rest := seq(|buttons| - 1, i requires 0 <= i < |buttons| - 1 => DigitChar(buttons[1..][i]));
      assert (text + tail)[1..] == rest + tail;
      DigitsOfText(buttons[1..], tail);
      assert text == [DigitChar(buttons[0])] + rest;
    }
  }

  lemma {:induction false} DecimalValueOfText(buttons: seq<NumberButton>)
    ensures var text := seq(|buttons|, i requires 0 <= i < |buttons| => DigitChar(buttons[i]));
      DecimalValue(text) == ButtonsValue(buttons)
  {
    var text := seq(|buttons|, i requires 0 <= i < |buttons| => DigitChar(buttons[i]));
    if buttons != [] {
      var init := buttons[..|buttons| - 1];
      DecimalValueOfText(init);
      assert text[..|text| - 1] == seq(|init|, i requires 0 <= i < |init| => DigitChar(init[i]));
    }
  }

  /** Writing a non-empty code out and parsing it back gives the same buttons
      and their decimal value. */
  lemma ParseCodeText(buttons: seq<NumberButton>)
    requires buttons != []
    ensures ParseCode(CodeText(buttons)) == Some(Code(buttons, ButtonsValue(buttons)))
  {
    var text := seq(|buttons|, i requires 0 <= i < |buttons| => DigitChar(buttons[i]));
    assert CodeText(buttons) == text + "A";
    DigitsOfText(buttons, "A");
    DecimalValueOfText(buttons);
    assert IsDigit(CodeText(buttons)[0]);
    assert ButtonsOf(CodeText(buttons)) == buttons;
  }

  /** Parse every line; the source aborts on the first bad line. */
  function ParseCodes(lines: seq<string>): (r: Option<seq<Code>>)
    ensures r.Some? <==> forall i :: 0 <= i < |lines| ==> ParseCode(lines[i]).Some?
    ensures r.Some? ==> |r.value| == |lines| && forall i :: 0 <= i < |lines| ==> ParseCode(lines[i]) == Some(r.value[i])
  {
    if lines == [] then Some([])
    else
      match (ParseCode(lines[0]), ParseCodes(lines[1..]))
      case (Some(c), Some(cs)) => Some([c] + cs)
      case _ => None
  }

  /** `parse_input`: one code per line. */
  function ParseInput(input: string): Option<seq<Code>>
  {
    ParseCodes(Lines(input))
  }

  /** Sum over the codes of (presses on a chain with `level` directional
      keypads) times the code's value. */
  function Complexity(codes: seq<Code>, level: nat): nat
  {
    if codes == [] then 0
    else
      var last := codes[|codes| - 1];
      Complexity(codes[..|codes| - 1], level) + MinPresses(Numeric, level, DigitKeys(last.buttons)) * last.value
  }

  /** A longer chain never lowers the total. */
  lemma {:induction false} ComplexityMonotone(codes: seq<Code>, d1: nat, d2: nat)
    requires d1 <= d2
    ensures Complexity(codes, d1) <= Complexity(codes, d2)
  {
    if codes != [] {
      var last := codes[|codes| - 1];
      ComplexityMonotone(codes[..|codes| - 1], d1, d2);
      DeeperChainNeverCheaper(Numeric, d1, d2, DigitKeys(last.buttons));
      MulMonotone(MinPresses(Numeric, d1, DigitKeys(last.buttons)), MinPresses(Numeric, d2, DigitKeys(last.buttons)), last.value);
    }
  }

  lemma MulMonotone(x: nat, y: nat, k: nat)
    requires x <= y
    ensures x * k <= y * k
  {
  }

  // ---- The memoised keypad chain ----

  /** A chain of keypads: `links` directional keypads, link i controlled by
      link i - 1 and link 0 typed on directly by the human, topped by the
      numeric keypad on the door, which is at level `links`. Each keypad
      keeps its own cache of transition costs. */
  /** A keypad's cache: the remembered count for each transition. */
  type Cache = map<(KeyPadButton, KeyPadButton), nat>

  class KeyPadChain {
    const links: nat
    var numericCache: Cache
    var directionalCaches: seq<Cache>

    /** Every remembered count is the true minimum for its keypad. */
    ghost predicate Valid()
      reads this
    {
      |directionalCaches| == links
      && (forall k :: k in numericCache ==>
            OnPad(Numeric, k.0) && OnPad(Numeric, k.1) && numericCache[k] == ExpandCost(Numeric, links, k.0, k.1))
      && (forall i, k :: 0 <= i < links && k in directionalCaches[i] ==>
            OnPad(Directional, k.0) && OnPad(Directional, k.1) && directionalCaches[i][k] == ExpandCost(Directional, i, k.0, k.1))
    }

    /** The keypad at this level of the chain exists. */
    predicate IsLink(pad: Pad, level: nat)
    {
      if pad == Numeric then level == links else level < links
    }

    /** Every cache entry present before is still present afterwards. */
    twostate predicate CachesGrow()
      reads this
    {
      |directionalCaches| == |old(directionalCaches)|
      && old(numericCache).Keys <= numericCache.Keys
      && forall i :: 0 <= i < |directionalCaches| ==> old(directionalCaches)[i].Keys <= directionalCaches[i].Keys
    }

    /** `new_human`: a numeric keypad typed on directly. */
    constructor NewHuman()
      ensures links == 0 && Valid()
      ensures numericCache == map[] && directionalCaches == []
    {
      links := 0;
      numericCache := map[];
      directionalCaches := [];
    }

    /** `keypad_chain(length)`: a direct-entry directional keypad, wrapped
        by `length - 1` further directional keypads, under the numeric
        keypad. A length of 0 gives the same chain as a length of 1. */
    constructor Chain(length: nat)
      ensures links == (if length == 0 then 1 else length)
      ensures Valid()
      ensures numericCache == map[] && forall i :: 0 <= i < links ==> directionalCaches[i] == map[]
    {
      var caches: seq<Cache> := [map[]];
      var i := 1;
      while i < length
        invariant 1 <= i <= (if length == 0 then 1 else length)
        invariant |caches| == i
        invariant forall j :: 0 <= j < i ==> caches[j] == map[]
      {
        caches := caches + [map[]];
        i := i + 1;
      }
      links := |caches|;
      numericCache := map[];
      directionalCaches := caches;
    }

    /** The remembered count for a transition, if any (`recall`). */
    function Recall(pad: Pad, level: nat, a: KeyPadButton, b: KeyPadButton): (r: Option<nat>)
      reads this
      requires Valid() && IsLink(pad, level)
      ensures r.Some? ==> OnPad(pad, a) && OnPad(pad, b) && r.value == ExpandCost(pad, level, a, b)
    {
      if pad == Numeric then
        if (a, b) in numericCache then Some(numericCache[(a, b)]) else None
      else
        if (a, b) in directionalCaches[level] then Some(directionalCaches[level][(a, b)]) else None
    }

    /** `remember` on the numeric keypad: store a count for a transition. */
    method RememberNumeric(a: KeyPadButton, b: KeyPadButton, count: nat)
      requires Valid() && OnPad(Numeric, a) && OnPad(Numeric, b)
      requires count == ExpandCost(Numeric, links, a, b)
      modifies this
      ensures Valid() && CachesGrow()
      ensures numericCache == old(numericCache)[(a, b) := count] && directionalCaches == old(directionalCaches)
      ensures Recall(Numeric, links, a, b) == Some(count)
    {
      numericCache := numericCache[(a, b) := count];
    }

    /** `remember` on the directional keypad at `level`. */
    method RememberDirectional(level: nat, a: KeyPadButton, b: KeyPadButton, count: nat)
      requires Valid() && level < links && OnPad(Directional, a) && OnPad(Directional, b)
      requires count == ExpandCost(Directional, level, a, b)
      modifies this
      ensures Valid() && CachesGrow()
      ensures numericCache == old(numericCache)
      ensures var updated: Cache := old(directionalCaches)[level][(a, b) := count];
        directionalCaches == old(directionalCaches)[level := updated]
      ensures Recall(Directional, level, a, b) == Some(count)
    {
      var updated: Cache := directionalCaches[level][(a, b) := count];
      directionalCaches := directionalCaches[level := updated];
    }

    /** `key_presses`: add up the transition costs of Enter, the keys, Enter. */
    method KeyPresses(pad: Pad, level: nat, keys: seq<KeyPadButton>) returns (total: nat)
      requires Valid() && IsLink(pad, level) && AllOnPad(pad, keys)
      modifies this
      decreases level, 6
      ensures Valid() && CachesGrow()
      ensures total == MinPresses(pad, level, keys)
    {
      var bracketed := Bracket(keys);
      total := 0;
      for i := 1 to |bracketed|
        invariant Valid() && CachesGrow()
        invariant total == PairsCost(pad, level, bracketed[..i])
      {
        total := AddTransition(pad, level, bracketed, i, total);
      }
      assert bracketed[..|bracketed|] == bracketed;
    }

    /** One step of `key_presses`: add the cost of the transition into the
        key at position i. */
    method AddTransition(pad: Pad, level: nat, keys: seq<KeyPadButton>, i: nat, total: nat) returns (next: nat)
      requires Valid() && IsLink(pad, level) && AllOnPad(pad, keys) && 1 <= i < |keys|
      requires total == PairsCost(pad, level, keys[..i])
      modifies this
      decreases level, 5
      ensures Valid() && CachesGrow()
      ensures next == PairsCost(pad, level, keys[..i + 1])
    {
      var a, b := keys[i - 1], keys[i];
      var cost := PairCost(pad, level, a, b);
      PrefixPairsStep(pad, level, keys, i + 1, a, b);
      next := total + cost;
    }

    /** The call of `expand_pair` inside `key_presses`, seen only through
        the count it returns and the caches it keeps valid. */
    method PairCost(pad: Pad, level: nat, a: KeyPadButton, b: KeyPadButton) returns (count: nat)
      requires Valid() && IsLink(pad, level) && OnPad(pad, a) && OnPad(pad, b)
      modifies this
      decreases level, 4
      ensures Valid() && CachesGrow()
      ensures count == ExpandCost(pad, level, a, b)
    {
      count := ExpandPair(pad, level, a, b);
    }

    /** `expand_pair`: the cheapest way to move from `a` to `b` and press `b`,
        answered from the cache when possible and remembered otherwise. */
    method ExpandPair(pad: Pad, level: nat, a: KeyPadButton, b: KeyPadButton) returns (count: nat)
      requires Valid() && IsLink(pad, level) && OnPad(pad, a) && OnPad(pad, b)
      modifies this
      decreases level, 3
      ensures Valid() && CachesGrow()
      ensures count == ExpandCost(pad, level, a, b)
      ensures Recall(pad, level, a, b) == Some(count)
      ensures old(Recall(pad, level, a, b)).Some? ==> numericCache == old(numericCache) && directionalCaches == old(directionalCaches)
    {
      var cached := Recall(pad, level, a, b);
      if cached.Some? {
        return cached.value;
      }
      count := CheapestCandidate(pad, level, a, b);
      if pad == Numeric {
        RememberNumeric(a, b, count);
      } else {
        RememberDirectional(level, a, b, count);
      }
    }

    /** The search inside `expand_pair`: the least `iterate` cost over the
        candidates that stay on the keypad. */
    method CheapestCandidate(pad: Pad, level: nat, a: KeyPadButton, b: KeyPadButton) returns (count: nat)
      requires Valid() && IsLink(pad, level) && OnPad(pad, a) && OnPad(pad, b)
      modifies this
      decreases level, 2
      ensures Valid() && CachesGrow()
      ensures count == ExpandCost(pad, level, a, b)
    {
      var start := Coordinate(pad, a);
      var candidates := Candidates(pad, a, b);
      var best: Option<nat> := None;
      for i := 0 to |candidates|
        invariant Valid() && CachesGrow()
        invariant best == MinOpt(CandidateCosts(pad, level, start, candidates[..i]))
      {
        ghost var before := CandidateCosts(pad, level, start, candidates[..i]);
        CandidateCostsSnoc(pad, level, start, candidates, i);
        var safe := CheckMoves(pad, candidates[i], start);
        if safe {
          var cost := Iterate(level, candidates[i]);
          MinOptAppend(before, cost);
          assert CandidateCosts(pad, level, start, candidates[..i + 1]) == before + [cost];
          best := Some(if best.None? || cost < best.value then cost else best.value);
        } else {
          assert CandidateCosts(pad, level, start, candidates[..i + 1]) == before + [];
          assert before + [] == before;
        }
      }
      assert candidates[..|candidates|] == candidates;
      SafeCandidateExists(pad, a, b);
      CandidateCostsNonEmpty(pad, level, start, candidates);
      count := best.value;
    }

    /** `iterate`: the cost of typing the moves and Enter on the keypad that
        controls this one, or one press each when a human types directly. */
    method Iterate(level: nat, moves: seq<DirectionButton>) returns (cost: nat)
      requires Valid() && level <= links
      modifies this
      decreases level, 1
      ensures Valid() && CachesGrow()
      ensures cost == IterateCost(level, moves)
    {
      if level == 0 {
        cost := |moves| + 1;
      } else {
        cost := KeyPresses(Directional, level - 1, Arrows(moves));
      }
    }

    /** `count_key_presses`: the presses for each code on this chain times
        the code's value, summed. */
    method CountKeyPresses(codes: seq<Code>) returns (total: nat)
      requires Valid()
      modifies this
      ensures Valid() && CachesGrow()
      ensures total == Complexity(codes, links)
    {
      total := 0;
      for i := 0 to |codes|
        invariant Valid() && CachesGrow()
        invariant total == Complexity(codes[..i], links)
      {
        var presses := KeyPresses(Numeric, links, DigitKeys(codes[i].buttons));
        assert codes[..i + 1][..i] == codes[..i];
        total := total + presses * codes[i].value;
      }
      assert codes[..|codes|] == codes;
    }
  }
}
