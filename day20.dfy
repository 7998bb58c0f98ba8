/** Day 20: a single race track through a maze; a cheat lets the racer
    pass through walls for a bounded number of steps, and saves the steps
    of track it skips. */
module Day20 {
  import opened Common
  import opened Picture

  /** (row, column). */
  type Coordinates = (nat, nat)

  /** `apply`: a signed step on both coordinates, None when either would
      go below zero. */
  function Apply(p: Coordinates, delta: (int, int)): (r: Option<Coordinates>)
    ensures r.Some? <==> p.0 + delta.0 >= 0 && p.1 + delta.1 >= 0
    ensures r.Some? ==> r.value.0 == p.0 + delta.0 && r.value.1 == p.1 + delta.1
  {
    var r1 := p.0 + delta.0;
    var c1 := p.1 + delta.1;
    if r1 >= 0 && c1 >= 0 then Some((r1, c1)) else None
  }

  function AbsDiff(a: nat, b: nat): nat
  {
    if a < b then b - a else a - b
  }

  /** `manhattan_distance`. */
  function Manhattan(a: Coordinates, b: Coordinates): (d: nat)
    ensures d == 0 <==> a == b
  {
    AbsDiff(a.0, b.0) + AbsDiff(a.1, b.1)
  }

  lemma ManhattanSymmetric(a: Coordinates, b: Coordinates)
    ensures Manhattan(a, b) == Manhattan(b, a)
  {
  }

  lemma ManhattanTriangle(a: Coordinates, b: Coordinates, c: Coordinates)
    ensures Manhattan(a, c) <= Manhattan(a, b) + Manhattan(b, c)
  {
  }

  /** The four unit steps in the order the walk tries them: up, right,
      down, left. */
  const Deltas: seq<(int, int)> := [(-1, 0), (0, 1), (1, 0), (0, -1)]

  /** A unit step lands on a cell at Manhattan distance 1. */
  lemma DeltaAdjacent(p: Coordinates, k: nat)
    requires k < 4 && Apply(p, Deltas[k]).Some?
    ensures Manhattan(p, Apply(p, Deltas[k]).value) == 1
  {
  }

  /** Every cell at Manhattan distance 1 is one of the four steps. */
  lemma AdjacentIsDelta(p: Coordinates, q: Coordinates)
    requires Manhattan(p, q) == 1
    ensures exists k :: 0 <= k < 4 && Apply(p, Deltas[k]) == Some(q)
  {
    if q.0 + 1 == p.0 {
      assert Apply(p, Deltas[0]) == Some(q);
    } else if q.1 == p.1 + 1 {
      assert Apply(p, Deltas[1]) == Some(q);
    } else if q.0 == p.0 + 1 {
      assert Apply(p, Deltas[2]) == Some(q);
    } else {
      assert Apply(p, Deltas[3]) == Some(q);
    }
  }

  // ---- The track ----

  datatype RaceTrack = RaceTrack(course: set<Coordinates>, start: Coordinates, end: Coordinates)

  /** A step the walk may take from position: a neighbour on the course
      that is not the cell it has just left. */
  predicate CanMove(track: RaceTrack, position: Coordinates, prev: Coordinates, next: Coordinates)
  {
    Manhattan(position, next) == 1 && next in track.course && next != prev
  }

  /** The first of the steps k, k + 1, … that the walk may take. */
  function FirstMoveFrom(track: RaceTrack, position: Coordinates, prev: Coordinates, k: nat): (r: Option<Coordinates>)
    requires k <= 4
    ensures r.Some? ==> CanMove(track, position, prev, r.value)
    ensures r.None? ==> forall j :: k <= j < 4 && Apply(position, Deltas[j]).Some? ==>
      !CanMove(track, position, prev, Apply(position, Deltas[j]).value)
    decreases 4 - k
  {
    if k == 4 then None
    else
      var next := Apply(position, Deltas[k]);
      if next.Some? && next.value in track.course && next.value != prev then
        DeltaAdjacent(position, k);
        next
      else
        FirstMoveFrom(track, position, prev, k + 1)
  }

  /** The step the inner loop of `get_track_positions` takes, if any. */
  function NextMove(track: RaceTrack, position: Coordinates, prev: Coordinates): Option<Coordinates>
  {
    FirstMoveFrom(track, position, prev, 0)
  }

  /** The walk moves exactly when some neighbour other than the cell it
      has just left is on the course. */
  lemma NextMoveExists(track: RaceTrack, position: Coordinates, prev: Coordinates)
    ensures NextMove(track, position, prev).Some? <==> exists q :: CanMove(track, position, prev, q)
  {
    if q :| CanMove(track, position, prev, q) {
      AdjacentIsDelta(position, q);
    }
  }

  /** The walk's (position, prev) after i passes of the outer loop of
      `get_track_positions`; when no step is possible nothing changes. */
  function State(track: RaceTrack, i: nat): (Coordinates, Coordinates)
  {
    if i == 0 then (track.start, track.start)
    else
      var (position, prev) := State(track, i - 1);
      match NextMove(track, position, prev)
      case Some(next) => (next, position)
      case None => (position, prev)
  }

  lemma StateStart(track: RaceTrack)
    ensures State(track, 0) == (track.start, track.start)
  {
  }

  lemma StateStep(track: RaceTrack, i: nat)
    ensures State(track, i + 1) == match NextMove(track, State(track, i).0, State(track, i).1)
      case Some(next) => (next, State(track, i).0)
      case None => State(track, i)
  {
  }

  /** The walk reaches the end at some pass: otherwise `get_track_positions`
      loops forever. */
  ghost predicate Reaches(track: RaceTrack)
  {
    exists n: nat :: State(track, n).0 == track.end
  }

  /** n is the first pass that stands on the end. */
  predicate FinishesAt(track: RaceTrack, n: nat)
  {
    State(track, n).0 == track.end && forall i :: 0 <= i < n ==> State(track, i).0 != track.end
  }

  lemma {:induction false} FirstFinish(track: RaceTrack, n: nat)
    requires State(track, n).0 == track.end
    ensures exists m: nat :: m <= n && FinishesAt(track, m)
    decreases n
  {
    if i :| 0 <= i < n && State(track, i).0 == track.end {
      FirstFinish(track, i);
    } else {
      assert FinishesAt(track, n);
    }
  }

  lemma FinishesAtUnique(track: RaceTrack, m: nat, n: nat)
    requires FinishesAt(track, m) && FinishesAt(track, n)
    ensures m == n
  {
  }

  /** Once the walk is stuck it stays where it is. */
  lemma {:induction false} StuckStays(track: RaceTrack, i: nat, j: nat)
    requires i <= j
    requires NextMove(track, State(track, i).0, State(track, i).1).None?
    ensures State(track, j) == State(track, i)
    decreases j - i
  {
    if i < j {
      StuckStays(track, i, j - 1);
    }
  }

  /** Before it finishes, every pass of the walk moves one step along the
      course to a cell other than the one it has just left: the track is a
      path of adjacent course cells. */
  lemma WalkSteps(track: RaceTrack, n: nat, i: nat)
    requires FinishesAt(track, n) && i < n
    ensures CanMove(track, State(track, i).0, State(track, i).1, State(track, i + 1).0)
    ensures State(track, i + 1).1 == State(track, i).0
  {
    var (position, prev) := State(track, i);
    if NextMove(track, position, prev).None? {
      StuckStays(track, i, n);
      assert false;
    }
  }

  /** The inner loop of `get_track_positions`: tries the four steps in
      order and takes the first that stays on the course without going
      back to prev; stays put when there is none. */
  method Step(track: RaceTrack, position: Coordinates, prev: Coordinates) returns (position': Coordinates, prev': Coordinates)
    ensures (position', prev') == match NextMove(track, position, prev)
      case Some(next) => (next, position)
      case None => (position, prev)
  {
    position', prev' := position, prev;
    var k := 0;
    var moved := false;
    while k < 4 && !moved
      invariant k <= 4
      invariant NextMove(track, position, prev) == if moved then Some(position') else FirstMoveFrom(track, position, prev, k)
      invariant if moved then prev' == position else (position', prev') == (position, prev)
    {
      var next := Apply(position, Deltas[k]);
      if next.Some? && next.value in track.course && next.value != prev {
        prev', position' := position, next.value;
        moved := true;
      }
      k := k + 1;
    }
  }

  /** `get_track_positions`: the walk from the start, numbered, up to and
      including the first time it stands on the end. */
  method GetTrackPositions(track: RaceTrack) returns (visited: seq<(nat, Coordinates)>)
    requires Reaches(track)
    ensures |visited| > 0 && FinishesAt(track, |visited| - 1)
    ensures forall i :: 0 <= i < |visited| ==> visited[i] == (i, State(track, i).0)
  {
    hide State, NextMove;
    ghost var n: nat :| State(track, n).0 == track.end;
    StateStart(track);
    visited := [];
    var position, prev := track.start, track.start;
    var index: nat := 0;
    while true
      invariant index <= n
      invariant (position, prev) == State(track, index)
      invariant |visited| == index
      invariant forall i :: 0 <= i < index ==> visited[i] == (i, State(track, i).0)
      invariant forall i :: 0 <= i < index ==> State(track, i).0 != track.end
      decreases n - index
    {
      visited := visited + [(index, position)];
      if position == track.end {
        break;
      }
      position, prev := Step(track, position, prev);
      StateStep(track, index);
      index := index + 1;
    }
  }

  /** The cells of the walk, pass 0 to pass n. */
  function Path(track: RaceTrack, n: nat): (path: seq<Coordinates>)
    ensures |path| == n + 1
  {
    seq(n + 1, i requires 0 <= i <= n => State(track, i).0)
  }

  // ---- Cheats ----

  /** What the cheat from the i-th to the j-th cell of the path saves:
      None when the two are more than maxCheat apart, or when the jump
      saves nothing. */
  function Saving(path: seq<Coordinates>, i: nat, j: nat, maxCheat: nat): (r: Option<nat>)
    requires i < j < |path|
    ensures r.Some? <==> Manhattan(path[i], path[j]) <= maxCheat && Manhattan(path[i], path[j]) < j - i
    ensures r.Some? ==> r.value > 0 && r.value + Manhattan(path[i], path[j]) == j - i
  {
    var d := Manhattan(path[i], path[j]);
    if d > maxCheat then None
    else if j - i < d then None
    else if j - i - d > 0 then Some(j - i - d)
    else None
  }

  /** Adds the cheat of the pair (i, j), if any, overwriting an earlier
      entry with the same two cells. */
  function AddCheat(path: seq<Coordinates>, i: nat, j: nat, maxCheat: nat, acc: map<(Coordinates, Coordinates), nat>): map<(Coordinates, Coordinates), nat>
    requires i < j < |path|
  {
    match Saving(path, i, j, maxCheat)
    case Some(s) => acc[(path[i], path[j]) := s]
    case None => acc
  }

  /** The pairs (i, j), (i, j + 1), …, (i, |path| - 1), in that order. */
  function CollectRow(path: seq<Coordinates>, i: nat, j: nat, maxCheat: nat, acc: map<(Coordinates, Coordinates), nat>): map<(Coordinates, Coordinates), nat>
    requires i < j
    decreases |path| - j
  {
    if j >= |path| then acc else CollectRow(path, i, j + 1, maxCheat, AddCheat(path, i, j, maxCheat, acc))
  }

  /** The pairs of `tuple_combinations` from first index i on. */
  function CollectFrom(path: seq<Coordinates>, i: nat, maxCheat: nat, acc: map<(Coordinates, Coordinates), nat>): map<(Coordinates, Coordinates), nat>
    decreases |path| - i
  {
    if i >= |path| then acc else CollectFrom(path, i + 1, maxCheat, CollectRow(path, i, i + 1, maxCheat, acc))
  }

  /** The map `cheats` collects from the path: every pair of cells i < j,
      in `tuple_combinations` order, later pairs overwriting earlier ones. */
  function CheatsOf(path: seq<Coordinates>, maxCheat: nat): map<(Coordinates, Coordinates), nat>
  {
    CollectFrom(path, 0, maxCheat, map[])
  }

  /** Every entry of m is the saving of some pair of the path with those
      two cells. */
  ghost predicate Explained(path: seq<Coordinates>, maxCheat: nat, m: map<(Coordinates, Coordinates), nat>)
  {
    forall key :: key in m ==> exists i: nat, j: nat :: i < j < |path| && key == (path[i], path[j]) && Saving(path, i, j, maxCheat) == Some(m[key])
  }

  /** Every pair that saves something, up to pair (i, j) exclusive in
      `tuple_combinations` order, has an entry in m. */
  ghost predicate Covers(path: seq<Coordinates>, maxCheat: nat, i: nat, j: nat, m: map<(Coordinates, Coordinates), nat>)
  {
    forall a: nat, b: nat :: a < b < |path| && (a < i || (a == i && b < j)) && Saving(path, a, b, maxCheat).Some? ==> (path[a], path[b]) in m
  }

  lemma AddCheatKeeps(path: seq<Coordinates>, i: nat, j: nat, maxCheat: nat, acc: map<(Coordinates, Coordinates), nat>)
    requires i < j < |path|
    requires Explained(path, maxCheat, acc) && Covers(path, maxCheat, i, j, acc)
    ensures Explained(path, maxCheat, AddCheat(path, i, j, maxCheat, acc))
    ensures Covers(path, maxCheat, i, j + 1, AddCheat(path, i, j, maxCheat, acc))
  {
    var m := AddCheat(path, i, j, maxCheat, acc);
    forall key | key in m
      ensures exists a: nat, b: nat :: a < b < |path| && key == (path[a], path[b]) && Saving(path, a, b, maxCheat) == Some(m[key])
    {
      if Saving(path, i, j, maxCheat).Some? && key == (path[i], path[j]) {
        assert Saving(path, i, j, maxCheat) == Some(m[key]);
      } else {
        assert m[key] == acc[key];
      }
    }
  }

  /** Past the last row every pair is covered. */
  lemma CoversAll(path: seq<Coordinates>, maxCheat: nat, i: nat, m: map<(Coordinates, Coordinates), nat>)
    requires |path| <= i && Covers(path, maxCheat, i, 0, m)
    ensures Covers(path, maxCheat, |path|, 0, m)
  {
  }

  /** The end of row i covers the pairs that start before i + 1. */
  lemma CoversRow(path: seq<Coordinates>, maxCheat: nat, i: nat, j: nat, m: map<(Coordinates, Coordinates), nat>)
    requires |path| <= j && Covers(path, maxCheat, i, j, m)
    ensures Covers(path, maxCheat, i + 1, 0, m)
  {
  }

  /** Row i starts with nothing of its own covered yet. */
  lemma CoversStart(path: seq<Coordinates>, maxCheat: nat, i: nat, m: map<(Coordinates, Coordinates), nat>)
    requires Covers(path, maxCheat, i, 0, m)
    ensures Covers(path, maxCheat, i, i + 1, m)
  {
  }

  lemma {:induction false} CollectRowKeeps(path: seq<Coordinates>, i: nat, j: nat, maxCheat: nat, acc: map<(Coordinates, Coordinates), nat>)
    requires i < j
    requires Explained(path, maxCheat, acc) && Covers(path, maxCheat, i, j, acc)
    ensures Explained(path, maxCheat, CollectRow(path, i, j, maxCheat, acc))
    ensures Covers(path, maxCheat, i + 1, 0, CollectRow(path, i, j, maxCheat, acc))
    decreases |path| - j
  {
    hide Explained, Covers;
    if j >= |path| {
      CoversRow(path, maxCheat, i, j, acc);
    } else {
      AddCheatKeeps(path, i, j, maxCheat, acc);
      CollectRowKeeps(path, i, j + 1, maxCheat, AddCheat(path, i, j, maxCheat, acc));
    }
  }

  lemma {:induction false} CollectFromKeeps(path: seq<Coordinates>, i: nat, maxCheat: nat, acc: map<(Coordinates, Coordinates), nat>)
    requires Explained(path, maxCheat, acc) && Covers(path, maxCheat, i, 0, acc)
    ensures Explained(path, maxCheat, CollectFrom(path, i, maxCheat, acc))
    ensures Covers(path, maxCheat, |path|, 0, CollectFrom(path, i, maxCheat, acc))
    decreases |path| - i
  {
    hide Explained, Covers;
    if i >= |path| {
      CoversAll(path, maxCheat, i, acc);
    } else {
      CoversStart(path, maxCheat, i, acc);
      CollectRowKeeps(path, i, i + 1, maxCheat, acc);
      CollectFromKeeps(path, i + 1, maxCheat, CollectRow(path, i, i + 1, maxCheat, acc));
    }
  }

  /** The cheats map holds an entry for exactly the pairs of cells i < j of
      the path that are at most maxCheat apart and that the jump saves
      steps for; each entry is the saving of one such pair: positive, and
      the path steps skipped less the length of the jump. */
  lemma CheatsOfSpec(path: seq<Coordinates>, maxCheat: nat, key: (Coordinates, Coordinates))
    ensures key in CheatsOf(path, maxCheat) <==>
      exists i: nat, j: nat :: i < j < |path| && key == (path[i], path[j]) && Saving(path, i, j, maxCheat).Some?
    ensures key in CheatsOf(path, maxCheat) ==>
      exists i: nat, j: nat :: i < j < |path| && key == (path[i], path[j]) && Saving(path, i, j, maxCheat) == Some(CheatsOf(path, maxCheat)[key])
  {
    CollectFromKeeps(path, 0, maxCheat, map[]);
  }

  /** Allowing longer cheats keeps every cheat, with the same saving for a
      pair of cells that only one pair of the path joins. */
  lemma CheatsGrow(path: seq<Coordinates>, short: nat, long: nat, key: (Coordinates, Coordinates))
    requires short <= long
    requires key in CheatsOf(path, short)
    ensures key in CheatsOf(path, long)
  {
    CheatsOfSpec(path, short, key);
    var i: nat, j: nat :| i < j < |path| && key == (path[i], path[j]) && Saving(path, i, j, short).Some?;
    assert Saving(path, i, j, long).Some?;
    CheatsOfSpec(path, long, key);
  }

  /** `cheats`: the cheats of at most maxCheat steps along the track. */
  method Cheats(track: RaceTrack, maxCheat: nat) returns (cheats: map<(Coordinates, Coordinates), nat>)
    requires Reaches(track)
    ensures exists n :: FinishesAt(track, n) && cheats == CheatsOf(Path(track, n), maxCheat)
  {
    var visited := GetTrackPositions(track);
    var path := seq(|visited|, i requires 0 <= i < |visited| => visited[i].1);
    assert path == Path(track, |visited| - 1);
    cheats := CheatsOf(path, maxCheat);
  }

  /** The cheats that save at least threshold steps. */
  function Above(cheats: map<(Coordinates, Coordinates), nat>, threshold: nat): set<(Coordinates, Coordinates)>
  {
    set key | key in cheats && cheats[key] >= threshold
  }

  /** Raising the threshold never counts more cheats. */
  lemma AboveShrinks(cheats: map<(Coordinates, Coordinates), nat>, low: nat, high: nat)
    requires low <= high
    ensures |Above(cheats, high)| <= |Above(cheats, low)|
  {
    SubsetCard(Above(cheats, high), Above(cheats, low));
  }

  /** With threshold 1 every cheat counts, as every saving is positive. */
  lemma AboveOne(path: seq<Coordinates>, maxCheat: nat)
    ensures |Above(CheatsOf(path, maxCheat), 1)| == |CheatsOf(path, maxCheat)|
  {
    var m := CheatsOf(path, maxCheat);
    forall key | key in m
      ensures m[key] >= 1
    {
      CheatsOfSpec(path, maxCheat, key);
    }
    assert Above(m, 1) == m.Keys;
  }

  /** `count_cheats_from`. */
  method CountCheatsFrom(track: RaceTrack, threshold: nat, maxCheat: nat) returns (count: nat)
    requires Reaches(track)
    ensures exists n :: FinishesAt(track, n) && count == |Above(CheatsOf(Path(track, n), maxCheat), threshold)|
  {
    var cheats := Cheats(track, maxCheat);
    count := |Above(cheats, threshold)|;
  }

  // ---- Parsing ----

  /** What `parse_input` makes of the lines of the picture: the course is
      every '.', 'S' and 'E' cell, the start the last 'S' and the end the
      last 'E' (each (0, 0) when missing). */
  ghost predicate Parses(lines: seq<string>, track: RaceTrack)
  {
    && track.course == CellsOf(lines, '.') + CellsOf(lines, 'S') + CellsOf(lines, 'E')
    && IsLast(CellsOf(lines, 'S'), track.start)
    && IsLast(CellsOf(lines, 'E'), track.end)
  }

  lemma ParsesUnique(lines: seq<string>, a: RaceTrack, b: RaceTrack)
    requires Parses(lines, a) && Parses(lines, b)
    ensures a == b
  {
    IsLastUnique(CellsOf(lines, 'S'), a.start, b.start);
    IsLastUnique(CellsOf(lines, 'E'), a.end, b.end);
  }

  ghost predicate ReadUpTo(lines: seq<string>, r: nat, c: nat, course: set<Coordinates>, start: Coordinates, end: Coordinates)
  {
    && course == CellsBefore(lines, '.', r, c) + CellsBefore(lines, 'S', r, c) + CellsBefore(lines, 'E', r, c)
    && IsLast(CellsBefore(lines, 'S', r, c), start)
    && IsLast(CellsBefore(lines, 'E', r, c), end)
  }

  lemma ReadCell(lines: seq<string>, r: nat, c: nat, course: set<Coordinates>, start: Coordinates, end: Coordinates)
    requires r < |lines| && c < |lines[r]|
    requires ReadUpTo(lines, r, c, course, start, end)
    ensures lines[r][c] == '.' ==> ReadUpTo(lines, r, c + 1, course + {(r, c)}, start, end)
    ensures lines[r][c] == 'S' ==> ReadUpTo(lines, r, c + 1, course + {(r, c)}, (r, c), end)
    ensures lines[r][c] == 'E' ==> ReadUpTo(lines, r, c + 1, course + {(r, c)}, start, (r, c))
    ensures lines[r][c] !in ".SE" ==> ReadUpTo(lines, r, c + 1, course, start, end)
  {
    hide CellsBefore, IsLast;
    CellsBeforeStep(lines, '.', r, c);
    CellsBeforeStep(lines, 'S', r, c);
    CellsBeforeStep(lines, 'E', r, c);
    LastStep(lines, 'S', r, c, start);
    LastStep(lines, 'E', r, c, end);
  }

  lemma ReadNone(lines: seq<string>)
    ensures ReadUpTo(lines, 0, 0, {}, (0, 0), (0, 0))
  {
  }

  lemma ReadNextRow(lines: seq<string>, r: nat, course: set<Coordinates>, start: Coordinates, end: Coordinates)
    requires r < |lines| && ReadUpTo(lines, r, |lines[r]|, course, start, end)
    ensures ReadUpTo(lines, r + 1, 0, course, start, end)
  {
    CellsBeforeRow(lines, '.', r);
    CellsBeforeRow(lines, 'S', r);
    CellsBeforeRow(lines, 'E', r);
  }

  lemma ReadAll(lines: seq<string>, track: RaceTrack)
    requires ReadUpTo(lines, |lines|, 0, track.course, track.start, track.end)
    ensures Parses(lines, track)
  {
    CellsBeforeAll(lines, '.');
    CellsBeforeAll(lines, 'S');
    CellsBeforeAll(lines, 'E');
  }

  /** The inner loop of `parse_input`: the cells of row r, left to right. */
  method ReadRow(lines: seq<string>, r: nat, course0: set<Coordinates>, start0: Coordinates, end0: Coordinates)
    returns (course: set<Coordinates>, start: Coordinates, end: Coordinates)
    requires r < |lines|
    requires ReadUpTo(lines, r, 0, course0, start0, end0)
    ensures ReadUpTo(lines, r, |lines[r]|, course, start, end)
  {
    hide ReadUpTo, CellsBefore, IsLast;
    course, start, end := course0, start0, end0;
    var row := lines[r];
    var c := 0;
    while c < |row|
      invariant c <= |row|
      invariant ReadUpTo(lines, r, c, course, start, end)
    {
      ReadCell(lines, r, c, course, start, end);
      match row[c] {
        case '.' => course := course + {(r, c)};
        case 'S' => course := course + {(r, c)}; start := (r, c);
        case 'E' => course := course + {(r, c)}; end := (r, c);
        case _ =>
      }
      c := c + 1;
    }
  }

  /** `parse_input`: reads the picture cell by cell in reading order. */
  method ParseInput(input: string) returns (track: RaceTrack)
    ensures Parses(Lines(input), track)
  {
    hide ReadUpTo, Parses;
    var lines := Lines(input);
    var course: set<Coordinates> := {};
    var start: Coordinates := (0, 0);
    var end: Coordinates := (0, 0);
    var r := 0;
    ReadNone(lines);
    while r < |lines|
      invariant r <= |lines|
      invariant ReadUpTo(lines, r, 0, course, start, end)
    {
      course, start, end := ReadRow(lines, r, course, start, end);
      ReadNextRow(lines, r, course, start, end);
      r := r + 1;
    }
    track := RaceTrack(course, start, end);
    ReadAll(lines, track);
  }
}
