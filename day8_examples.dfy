/** The worked examples of Day 8, evaluated in the model. */
module Day8Examples {
  import opened Day8

  const Zeros: seq<Coord> := [(1, 8), (2, 5), (3, 7), (4, 4)]
  const As: seq<Coord> := [(5, 6), (8, 8), (9, 9)]
  const ExampleMap: AntennaMap := AntennaMap(12, 12, map['0' := Zeros, 'A' := As])

  /** The antinodes of single pairs, including ones cut off by the grid's
      edge. */
  lemma ExamplePairs()
    ensures FindAntinodesForPair((3, 4), (5, 5), (12, 12)) == [(1, 3), (7, 6)]
    ensures FindAntinodesForPair((4, 8), (5, 5), (12, 12)) == [(3, 11), (6, 2)]
    ensures FindAntinodesForPair((4, 8), (5, 5), (10, 10)) == [(6, 2)]
    ensures FindAntinodesForPair((1, 1), (3, 3), (10, 10)) == [(5, 5)]
  {
  }

  /** The antinodes of one frequency with three antennas. */
  lemma ExampleFrequency()
    ensures FindAntinodesForFrequency([(3, 4), (4, 8), (5, 5)], (10, 10)) == [(2, 0), (1, 3), (7, 6), (6, 2)]
  {
  }

  lemma ExampleZeros()
    ensures FindAntinodesForFrequency(Zeros, (12, 12))
      == [(0, 11), (3, 2), (5, 6), (7, 0), (1, 3), (4, 9), (0, 6), (6, 3), (2, 10), (5, 1)]
  {
  }

  lemma ExampleAs()
    ensures FindAntinodesForFrequency(As, (12, 12)) == [(2, 4), (11, 10), (1, 3), (7, 7), (10, 10)]
  {
  }

  function Elements(s: seq<Coord>): set<Coord>
  {
    set a | a in s
  }

  /** With two frequencies, the antinodes are those of the one and of the
      other. */
  lemma TwoFrequencies(m: AntennaMap, f: char, g: char)
    requires m.antenna.Keys == {f, g}
    ensures AllAntinodes(m) == Elements(FindAntinodesForFrequency(m.antenna[f], (m.height, m.width)))
      + Elements(FindAntinodesForFrequency(m.antenna[g], (m.height, m.width)))
  {
  }

  const ZeroAntinodes: set<Coord> := {(0, 11), (3, 2), (5, 6), (7, 0), (1, 3), (4, 9), (0, 6), (6, 3), (2, 10), (5, 1)}
  const AAntinodes: set<Coord> := {(2, 4), (11, 10), (1, 3), (7, 7), (10, 10)}
  const ExampleAntinodes: set<Coord> := {(0, 6), (0, 11), (1, 3), (2, 4), (2, 10), (3, 2), (4, 9), (5, 1), (5, 6),
    (6, 3), (7, 0), (7, 7), (10, 10), (11, 10)}

  lemma ZeroElements()
    ensures Elements(FindAntinodesForFrequency(Zeros, (12, 12))) == ZeroAntinodes
  {
    ExampleZeros();
  }

  lemma AElements()
    ensures Elements(FindAntinodesForFrequency(As, (12, 12))) == AAntinodes
  {
    ExampleAs();
  }

  lemma ExampleUnion()
    ensures ZeroAntinodes + AAntinodes == ExampleAntinodes
  {
  }

  lemma ExampleDistinct()
    ensures |ExampleAntinodes| == 14
  {
  }

  /** The two frequencies give 14 distinct antinodes; (1, 3) is shared. */
  lemma ExampleCount()
    ensures CountAntinodesForMap(ExampleMap) == 14
  {
    assert ExampleMap.antenna.Keys == {'0', 'A'};
    TwoFrequencies(ExampleMap, '0', 'A');
    ZeroElements();
    AElements();
    ExampleUnion();
    ExampleDistinct();
  }
}
