/** Day 8: antennas on a grid, and the antinodes that each pair of antennas
    of one frequency casts: the points on their line twice as far from one
    antenna as from the other. */
module Day8 {
  import opened Common

  /** (row, column). */
  type Coord = (nat, nat)

  /** The grid's size and, per frequency, its antennas in reading order. */
  datatype AntennaMap = AntennaMap(height: nat, width: nat, antenna: map<char, seq<Coord>>)

  // ---- parse_input ----

  /** Where `ch` occurs in one line, left to right. */
  function RowPositions(row: nat, line: string, ch: char): seq<Coord>
  {
    if line == [] then []
    else (RowPositions(row, line[..|line| - 1], ch)
          + (if line[|line| - 1] == ch then [(row, |line| - 1)] else []))
  }

  /** Where `ch` occurs in the grid, in reading order. */
  function GridPositions(lines: seq<string>, ch: char): seq<Coord>
  {
    if lines == [] then []
    else GridPositions(lines[..|lines| - 1], ch) + RowPositions(|lines| - 1, lines[|lines| - 1], ch)
  }

  /** The positions a row records are exactly the cells of that row holding
      the character. */
  lemma {:induction false} RowPositionsExact(row: nat, line: string, ch: char, c: Coord)
    ensures c in RowPositions(row, line, ch) <==> c.0 == row && c.1 < |line| && line[c.1] == ch
  {
    if line != [] {
      var init := line[..|line| - 1];
      RowPositionsExact(row, init, ch, c);
      if c.1 < |init| {
        assert init[c.1] == line[c.1];
      }
    }
  }

  /** The positions the grid records are exactly the cells holding the
      character. */
  lemma {:induction false} GridPositionsExact(lines: seq<string>, ch: char, c: Coord)
    ensures c in GridPositions(lines, ch) <==> c.0 < |lines| && c.1 < |lines[c.0]| && lines[c.0][c.1] == ch
  {
    if lines != [] {
      var init := lines[..|lines| - 1];
      GridPositionsExact(init, ch, c);
      RowPositionsExact(|lines| - 1, lines[|lines| - 1], ch, c);
      if c.0 < |init| {
        assert init[c.0] == lines[c.0];
      }
    }
  }

  /** The positions of `ch` recorded once the scan reaches column `col` of
      row `row`. */
  function Scanned(lines: seq<string>, row: nat, col: nat, ch: char): seq<Coord>
    requires row < |lines| && col <= |lines[row]|
  {
    GridPositions(lines[..row], ch) + RowPositions(row, lines[row][..col], ch)
  }

  /** `parse_input`'s `entry(c).or_default().push(p)`. */
  function Record(antenna: map<char, seq<Coord>>, c: char, p: Coord): map<char, seq<Coord>>
  {
    antenna[c := (if c in antenna then antenna[c] else []) + [p]]
  }

  /** The map holds, for each frequency met so far, its positions so far. */
  predicate Holds(antenna: map<char, seq<Coord>>, lines: seq<string>, row: nat, col: nat)
    requires row < |lines| && col <= |lines[row]|
  {
    (forall ch :: ch in antenna <==> ch != '.' && Scanned(lines, row, col, ch) != [])
    && (forall ch :: ch in antenna ==> antenna[ch] == Scanned(lines, row, col, ch))
  }

  lemma ScanStep(lines: seq<string>, row: nat, col: nat, ch: char)
    requires row < |lines| && col < |lines[row]|
    ensures Scanned(lines, row, col + 1, ch)
      == Scanned(lines, row, col, ch) + (if lines[row][col] == ch then [(row, col)] else [])
  {
    assert lines[row][..col + 1][..col] == lines[row][..col];
  }

  /** Scanning one more cell: a '.' leaves the map as it is, any other
      character is recorded. */
  lemma CellStep(antenna: map<char, seq<Coord>>, lines: seq<string>, row: nat, col: nat)
    requires row < |lines| && col < |lines[row]|
    requires Holds(antenna, lines, row, col)
    ensures lines[row][col] == '.' ==> Holds(antenna, lines, row, col + 1)
    ensures lines[row][col] != '.' ==> Holds(Record(antenna, lines[row][col], (row, col)), lines, row, col + 1)
  {
    forall ch {
      ScanStep(lines, row, col, ch);
    }
  }

  lemma RowStart(antenna: map<char, seq<Coord>>, lines: seq<string>, row: nat)
    requires row < |lines|
    requires forall ch :: ch in antenna <==> ch != '.' && GridPositions(lines[..row], ch) != []
    requires forall ch :: ch in antenna ==> antenna[ch] == GridPositions(lines[..row], ch)
    ensures Holds(antenna, lines, row, 0)
  {
    assert lines[row][..0] == [];
  }

  lemma RowEnd(antenna: map<char, seq<Coord>>, lines: seq<string>, row: nat)
    requires row < |lines|
    requires Holds(antenna, lines, row, |lines[row]|)
    ensures forall ch :: ch in antenna <==> ch != '.' && GridPositions(lines[..row + 1], ch) != []
    ensures forall ch :: ch in antenna ==> antenna[ch] == GridPositions(lines[..row + 1], ch)
  {
    assert lines[..row + 1][..row] == lines[..row];
    assert lines[row][..|lines[row]|] == lines[row];
  }

  /** `parse_input`: the width is the first line's length, the height the
      number of lines, and every character other than '.' is an antenna of
      that frequency at its cell. None when there is no first line. */
  method ParseInput(input: string) returns (r: Option<AntennaMap>)
    ensures r.None? <==> Lines(input) == []
    ensures r.Some? ==> r.value.width == |Lines(input)[0]| && r.value.height == |Lines(input)|
    ensures r.Some? ==> forall ch :: ch in r.value.antenna <==> ch != '.' && GridPositions(Lines(input), ch) != []
    ensures r.Some? ==> forall ch :: ch in r.value.antenna ==> r.value.antenna[ch] == GridPositions(Lines(input), ch)
  {
    hide Lines;
    var lines := Lines(input);
    if lines == [] {
      return None;
    }
    var antenna: map<char, seq<Coord>> := map[];
    var row := 0;
    while row < |lines|
      invariant 0 <= row <= |lines|
      invariant forall ch :: ch in antenna <==> ch != '.' && GridPositions(lines[..row], ch) != []
      invariant forall ch :: ch in antenna ==> antenna[ch] == GridPositions(lines[..row], ch)
    {
      var line := lines[row];
      var col := 0;
      RowStart(antenna, lines, row);
      while col < |line|
        invariant 0 <= col <= |line|
        invariant Holds(antenna, lines, row, col)
      {
        CellStep(antenna, lines, row, col);
        var c := line[col];
        if c != '.' {
          antenna := Record(antenna, c, (row, col));
        }
        col := col + 1;
      }
      RowEnd(antenna, lines, row);
      row := row + 1;
    }
    assert lines[..|lines|] == lines;
    return Some(AntennaMap(|lines|, |lines[0]|, antenna));
  }

  // ---- antinodes ----

  /** `a` lies on the line through `p` and `q`, twice as far from one of
      them as from the other, on the far side of the nearer one. */
  predicate IsAntinode(a: Coord, p: Coord, q: Coord)
  {
    (a.0 - q.0 == 2 * (a.0 - p.0) && a.1 - q.1 == 2 * (a.1 - p.1))
    || (a.0 - p.0 == 2 * (a.0 - q.0) && a.1 - p.1 == 2 * (a.1 - q.1))
  }

  /** A cell of the (height, width) grid. */
  predicate InBounds(r: int, c: int, bounds: (nat, nat))
  {
    0 <= r < bounds.0 && 0 <= c < bounds.1
  }

  /** `find_antinodes_for_pair`: p1 pushed away from p2 by their
      difference, then p2 pushed away from p1; each kept only when it does
      not underflow and lies inside the (height, width) bounds. */
  function FindAntinodesForPair(p1: Coord, p2: Coord, bounds: (nat, nat)): (r: seq<Coord>)
    ensures |r| <= 2
    ensures forall k :: 0 <= k < |r| ==> r[k].0 < bounds.0 && r[k].1 < bounds.1
  {
    var dr := p1.0 - p2.0;
    var dc := p1.1 - p2.1;
    (if InBounds(p1.0 + dr, p1.1 + dc, bounds) then [(p1.0 + dr, p1.1 + dc)] else [])
    + (if InBounds(p2.0 - dr, p2.1 - dc, bounds) then [(p2.0 - dr, p2.1 - dc)] else [])
  }

  /** The pair's antinodes are exactly the antinodes of the two antennas
      inside the grid. */
  lemma PairExact(p1: Coord, p2: Coord, bounds: (nat, nat), a: Coord)
    ensures a in FindAntinodesForPair(p1, p2, bounds) <==> a.0 < bounds.0 && a.1 < bounds.1 && IsAntinode(a, p1, p2)
  {
  }

  /** Swapping the antennas swaps the two candidates, so the same antinodes
      come out. */
  lemma PairSymmetric(p1: Coord, p2: Coord, bounds: (nat, nat))
    ensures var r := FindAntinodesForPair(p1, p2, bounds);
      FindAntinodesForPair(p2, p1, bounds) == if |r| == 2 then [r[1], r[0]] else r
    ensures forall a :: a in FindAntinodesForPair(p1, p2, bounds) <==> a in FindAntinodesForPair(p2, p1, bounds)
  {
  }

  /** The antinodes of `p` paired with each antenna of `rest`, in order. */
  function AntinodesWith(p: Coord, rest: seq<Coord>, bounds: (nat, nat)): (r: seq<Coord>)
    ensures forall k :: 0 <= k < |r| ==> r[k].0 < bounds.0 && r[k].1 < bounds.1
  {
    if rest == [] then []
    else FindAntinodesForPair(p, rest[0], bounds) + AntinodesWith(p, rest[1..], bounds)
  }

  /** `find_antinodes_for_frequency`: the pairs' antinodes over every pair
      of antennas taken in order (`tuple_combinations`), concatenated. */
  function FindAntinodesForFrequency(antenna: seq<Coord>, bounds: (nat, nat)): (r: seq<Coord>)
    ensures forall k :: 0 <= k < |r| ==> r[k].0 < bounds.0 && r[k].1 < bounds.1
  {
    if antenna == [] then []
    else AntinodesWith(antenna[0], antenna[1..], bounds) + FindAntinodesForFrequency(antenna[1..], bounds)
  }

  lemma {:induction false} AntinodesWithExact(p: Coord, rest: seq<Coord>, bounds: (nat, nat), a: Coord)
    ensures a in AntinodesWith(p, rest, bounds)
      <==> exists j :: 0 <= j < |rest| && a in FindAntinodesForPair(p, rest[j], bounds)
  {
    if rest != [] {
      AntinodesWithExact(p, rest[1..], bounds, a);
      if a in AntinodesWith(p, rest[1..], bounds) {
        var j :| 0 <= j < |rest[1..]| && a in FindAntinodesForPair(p, rest[1..][j], bounds);
        assert a in FindAntinodesForPair(p, rest[j + 1], bounds);
      }
      if exists j :: 0 <= j < |rest| && a in FindAntinodesForPair(p, rest[j], bounds) {
        var j :| 0 <= j < |rest| && a in FindAntinodesForPair(p, rest[j], bounds);
        if j > 0 {
          assert rest[1..][j - 1] == rest[j];
        }
      }
    }
  }

  /** A frequency's antinodes are exactly those of some pair of its
      antennas, the first listed before the second. */
  lemma {:induction false} FrequencyExact(antenna: seq<Coord>, bounds: (nat, nat), a: Coord)
    ensures a in FindAntinodesForFrequency(antenna, bounds)
      <==> exists i, j :: 0 <= i < j < |antenna| && a in FindAntinodesForPair(antenna[i], antenna[j], bounds)
  {
    if antenna != [] {
      var tail := antenna[1..];
      FrequencyExact(tail, bounds, a);
      AntinodesWithExact(antenna[0], tail, bounds, a);
      if a in AntinodesWith(antenna[0], tail, bounds) {
        var j :| 0 <= j < |tail| && a in FindAntinodesForPair(antenna[0], tail[j], bounds);
        assert a in FindAntinodesForPair(antenna[0], antenna[j + 1], bounds);
      }
      if a in FindAntinodesForFrequency(tail, bounds) {
        var i, j :| 0 <= i < j < |tail| && a in FindAntinodesForPair(tail[i], tail[j], bounds);
        assert a in FindAntinodesForPair(antenna[i + 1], antenna[j + 1], bounds);
      }
      if exists i, j :: 0 <= i < j < |antenna| && a in FindAntinodesForPair(antenna[i], antenna[j], bounds) {
        var i, j :| 0 <= i < j < |antenna| && a in FindAntinodesForPair(antenna[i], antenna[j], bounds);
        if i == 0 {
          assert tail[j - 1] == antenna[j];
        } else {
          assert tail[i - 1] == antenna[i] && tail[j - 1] == antenna[j];
        }
      }
    }
  }

  /** `a` is an antinode of two antennas of one frequency. */
  predicate SharedAntinode(m: AntennaMap, a: Coord)
  {
    exists ch, i, j :: ch in m.antenna && 0 <= i < j < |m.antenna[ch]| && IsAntinode(a, m.antenna[ch][i], m.antenna[ch][j])
  }

  /** Every antinode of every frequency, each once. */
  function AllAntinodes(m: AntennaMap): set<Coord>
  {
    set ch, a | ch in m.antenna && a in FindAntinodesForFrequency(m.antenna[ch], (m.height, m.width)) :: a
  }

  /** `count_antinodes_for_map`: the number of distinct antinodes over all
      frequencies. */
  function CountAntinodesForMap(m: AntennaMap): (r: nat)
    ensures r == |AllAntinodes(m)|
    ensures r <= m.height * m.width
  {
    GridCellsSize(m.height, m.width);
    SubsetCard(AllAntinodes(m), GridCells(m.height, m.width));
    |AllAntinodes(m)|
  }

  /** The cells of a (height, width) grid. */
  function GridCells(height: nat, width: nat): set<Coord>
  {
    set r: nat, c: nat | r < height && c < width :: (r, c)
  }

  function RowCells(row: nat, width: nat): set<Coord>
  {
    set c: nat | c < width :: (row, c)
  }

  lemma {:induction false} RowCellsSize(row: nat, width: nat)
    ensures |RowCells(row, width)| == width
  {
    if width > 0 {
      RowCellsSize(row, width - 1);
      assert RowCells(row, width) == RowCells(row, width - 1) + {(row, width - 1)};
    } else {
      assert RowCells(row, width) == {};
    }
  }

  lemma GridSplit(height: nat, width: nat)
    requires height > 0
    ensures GridCells(height, width) == GridCells(height - 1, width) + RowCells(height - 1, width)
    ensures GridCells(height - 1, width) !! RowCells(height - 1, width)
  {
    forall c | c in GridCells(height, width)
      ensures c in GridCells(height - 1, width) + RowCells(height - 1, width)
    {
      if c.0 < height - 1 {
        assert c in GridCells(height - 1, width);
      } else {
        assert c in RowCells(height - 1, width);
      }
    }
  }

  lemma {:induction false} GridCellsSize(height: nat, width: nat)
    ensures |GridCells(height, width)| == height * width
  {
    if height > 0 {
      GridCellsSize(height - 1, width);
      RowCellsSize(height - 1, width);
      GridSplit(height, width);
      assert (height - 1) * width + width == height * width;
    } else {
      assert GridCells(height, width) == {};
    }
  }


  /** The antinodes counted are exactly the in-grid cells that are an
      antinode of two antennas of one frequency. */
  lemma AllAntinodesExact(m: AntennaMap, a: Coord)
    ensures a in AllAntinodes(m) <==> a.0 < m.height && a.1 < m.width && SharedAntinode(m, a)
  {
    var bounds := (m.height, m.width);
    if a in AllAntinodes(m) {
      var ch :| ch in m.antenna && a in FindAntinodesForFrequency(m.antenna[ch], bounds);
      FrequencyExact(m.antenna[ch], bounds, a);
      var i, j :| 0 <= i < j < |m.antenna[ch]| && a in FindAntinodesForPair(m.antenna[ch][i], m.antenna[ch][j], bounds);
      PairExact(m.antenna[ch][i], m.antenna[ch][j], bounds, a);
    }
    if a.0 < m.height && a.1 < m.width && SharedAntinode(m, a) {
      var ch, i, j :| ch in m.antenna && 0 <= i < j < |m.antenna[ch]|
        && IsAntinode(a, m.antenna[ch][i], m.antenna[ch][j]);
      PairExact(m.antenna[ch][i], m.antenna[ch][j], bounds, a);
      FrequencyExact(m.antenna[ch], bounds, a);
    }
  }
}
