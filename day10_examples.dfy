/** The worked examples of Day 10. */
module Day10Examples {
  import opened Common
  import opened Day10

  /** The four-by-four example map. */
  const Small: Grid := Grid([[0, 1, 2, 3], [1, 2, 3, 4], [8, 7, 6, 5], [9, 8, 7, 6]])

  /** The small map has a single trailhead, in its corner. */
  lemma SmallTrailheads()
    ensures Trailheads(Small) == [(0, 0)]
  {
    assert RowZeros(Small.cells[0], 0, 0) == [(0, 0)];
    assert RowZeros(Small.cells[1], 1, 0) == [];
    assert RowZeros(Small.cells[2], 2, 0) == [];
    assert RowZeros(Small.cells[3], 3, 0) == [];
  }

  lemma AdjacentInside()
    ensures Adjacent(Small, (1, 1)) == [((0, 1), 1), ((1, 2), 3), ((2, 1), 7), ((1, 0), 1)]
  {
  }

  lemma AdjacentCorner()
    ensures Adjacent(Small, (0, 0)) == [((0, 1), 1), ((1, 0), 1)]
  {
  }

  lemma AdjacentEdge()
    ensures Adjacent(Small, (3, 2)) == [((2, 2), 6), ((3, 3), 6), ((3, 1), 8)]
  {
  }

  /** The eight-by-eight example map. */
  const Large: Grid := Grid([[8, 9, 0, 1, 0, 1, 2, 3], [7, 8, 1, 2, 1, 8, 7, 4], [8, 7, 4, 3, 0, 9, 6, 5], [9, 6, 5, 4, 9, 8, 7, 4], [4, 5, 6, 7, 8, 9, 0, 3], [3, 2, 0, 1, 9, 0, 1, 2], [0, 1, 3, 2, 9, 8, 0, 1], [1, 0, 4, 5, 6, 7, 3, 2]])

  // The trailhead at (0, 2) of the larger map, worked out cell by cell from
  // the peaks down: for each cell, its neighbours on the map, then its peaks
  // and rating from those of the neighbours one higher.

  lemma Large0_1()
    ensures Peaks(Large, (0, 1)) == {(0, 1)} && Rating(Large, (0, 1)) == 1
  {
    assert Get(Large, (0, 1)) == Some(9);
  }

  lemma Large3_0()
    ensures Peaks(Large, (3, 0)) == {(3, 0)} && Rating(Large, (3, 0)) == 1
  {
    assert Get(Large, (3, 0)) == Some(9);
  }

  lemma Large3_4()
    ensures Peaks(Large, (3, 4)) == {(3, 4)} && Rating(Large, (3, 4)) == 1
  {
    assert Get(Large, (3, 4)) == Some(9);
  }

  lemma Large4_5()
    ensures Peaks(Large, (4, 5)) == {(4, 5)} && Rating(Large, (4, 5)) == 1
  {
    assert Get(Large, (4, 5)) == Some(9);
  }

  lemma Large5_4()
    ensures Peaks(Large, (5, 4)) == {(5, 4)} && Rating(Large, (5, 4)) == 1
  {
    assert Get(Large, (5, 4)) == Some(9);
  }

  lemma Around1_1()
    ensures Get(Large, (1, 1)) == Some(8)
    ensures Adjacent(Large, (1, 1)) == [((0, 1), 9), ((1, 2), 1), ((2, 1), 7), ((1, 0), 7)]
  {
  }

  lemma Climb1_1(g: Grid)
    requires Get(g, (1, 1)) == Some(8)
    requires Adjacent(g, (1, 1)) == [((0, 1), 9), ((1, 2), 1), ((2, 1), 7), ((1, 0), 7)]
    requires Peaks(g, (0, 1)) == {(0, 1)} && Rating(g, (0, 1)) == 1
    ensures Peaks(g, (1, 1)) == {(0, 1)} && Rating(g, (1, 1)) == 1
  {
    ClimbStep(g, (1, 1), 8, [((0, 1), 9), ((1, 2), 1), ((2, 1), 7), ((1, 0), 7)]);
    assert PeaksOver(g, [((1, 0), 7)], 8) == {} && RatingOver(g, [((1, 0), 7)], 8) == 0;
    assert PeaksOver(g, [((2, 1), 7), ((1, 0), 7)], 8) == {} && RatingOver(g, [((2, 1), 7), ((1, 0), 7)], 8) == 0;
    assert PeaksOver(g, [((1, 2), 1), ((2, 1), 7), ((1, 0), 7)], 8) == {} && RatingOver(g, [((1, 2), 1), ((2, 1), 7), ((1, 0), 7)], 8) == 0;
    assert PeaksOver(g, [((0, 1), 9), ((1, 2), 1), ((2, 1), 7), ((1, 0), 7)], 8) == {(0, 1)} && RatingOver(g, [((0, 1), 9), ((1, 2), 1), ((2, 1), 7), ((1, 0), 7)], 8) == 1;
  }

  lemma Large1_1()
    ensures Peaks(Large, (1, 1)) == {(0, 1)} && Rating(Large, (1, 1)) == 1
  {
    Around1_1();
    Large0_1();
    Climb1_1(Large);
  }

  lemma Around2_0()
    ensures Get(Large, (2, 0)) == Some(8)
    ensures Adjacent(Large, (2, 0)) == [((1, 0), 7), ((2, 1), 7), ((3, 0), 9)]
  {
  }

  lemma Climb2_0(g: Grid)
    requires Get(g, (2, 0)) == Some(8)
    requires Adjacent(g, (2, 0)) == [((1, 0), 7), ((2, 1), 7), ((3, 0), 9)]
    requires Peaks(g, (3, 0)) == {(3, 0)} && Rating(g, (3, 0)) == 1
    ensures Peaks(g, (2, 0)) == {(3, 0)} && Rating(g, (2, 0)) == 1
  {
    ClimbStep(g, (2, 0), 8, [((1, 0), 7), ((2, 1), 7), ((3, 0), 9)]);
    assert PeaksOver(g, [((3, 0), 9)], 8) == {(3, 0)} && RatingOver(g, [((3, 0), 9)], 8) == 1;
    assert PeaksOver(g, [((2, 1), 7), ((3, 0), 9)], 8) == {(3, 0)} && RatingOver(g, [((2, 1), 7), ((3, 0), 9)], 8) == 1;
    assert PeaksOver(g, [((1, 0), 7), ((2, 1), 7), ((3, 0), 9)], 8) == {(3, 0)} && RatingOver(g, [((1, 0), 7), ((2, 1), 7), ((3, 0), 9)], 8) == 1;
  }

  lemma Large2_0()
    ensures Peaks(Large, (2, 0)) == {(3, 0)} && Rating(Large, (2, 0)) == 1
  {
    Around2_0();
    Large3_0();
    Climb2_0(Large);
  }

  lemma Around4_4()
    ensures Get(Large, (4, 4)) == Some(8)
    ensures Adjacent(Large, (4, 4)) == [((3, 4), 9), ((4, 5), 9), ((5, 4), 9), ((4, 3), 7)]
  {
  }

  lemma Climb4_4(g: Grid)
    requires Get(g, (4, 4)) == Some(8)
    requires Adjacent(g, (4, 4)) == [((3, 4), 9), ((4, 5), 9), ((5, 4), 9), ((4, 3), 7)]
    requires Peaks(g, (3, 4)) == {(3, 4)} && Rating(g, (3, 4)) == 1
    requires Peaks(g, (4, 5)) == {(4, 5)} && Rating(g, (4, 5)) == 1
    requires Peaks(g, (5, 4)) == {(5, 4)} && Rating(g, (5, 4)) == 1
    ensures Peaks(g, (4, 4)) == {(3, 4), (4, 5), (5, 4)} && Rating(g, (4, 4)) == 3
  {
    ClimbStep(g, (4, 4), 8, [((3, 4), 9), ((4, 5), 9), ((5, 4), 9), ((4, 3), 7)]);
    assert PeaksOver(g, [((4, 3), 7)], 8) == {} && RatingOver(g, [((4, 3), 7)], 8) == 0;
    assert PeaksOver(g, [((5, 4), 9), ((4, 3), 7)], 8) == {(5, 4)} && RatingOver(g, [((5, 4), 9), ((4, 3), 7)], 8) == 1;
    assert PeaksOver(g, [((4, 5), 9), ((5, 4), 9), ((4, 3), 7)], 8) == {(4, 5), (5, 4)} && RatingOver(g, [((4, 5), 9), ((5, 4), 9), ((4, 3), 7)], 8) == 2;
    assert PeaksOver(g, [((3, 4), 9), ((4, 5), 9), ((5, 4), 9), ((4, 3), 7)], 8) == {(3, 4), (4, 5), (5, 4)} && RatingOver(g, [((3, 4), 9), ((4, 5), 9), ((5, 4), 9), ((4, 3), 7)], 8) == 3;
  }

  lemma Large4_4()
    ensures Peaks(Large, (4, 4)) == {(3, 4), (4, 5), (5, 4)} && Rating(Large, (4, 4)) == 3
  {
    Around4_4();
    Large3_4();
    Large4_5();
    Large5_4();
    Climb4_4(Large);
  }

  lemma Around2_1()
    ensures Get(Large, (2, 1)) == Some(7)
    ensures Adjacent(Large, (2, 1)) == [((1, 1), 8), ((2, 2), 4), ((3, 1), 6), ((2, 0), 8)]
  {
  }

  lemma Climb2_1(g: Grid)
    requires Get(g, (2, 1)) == Some(7)
    requires Adjacent(g, (2, 1)) == [((1, 1), 8), ((2, 2), 4), ((3, 1), 6), ((2, 0), 8)]
    requires Peaks(g, (1, 1)) == {(0, 1)} && Rating(g, (1, 1)) == 1
    requires Peaks(g, (2, 0)) == {(3, 0)} && Rating(g, (2, 0)) == 1
    ensures Peaks(g, (2, 1)) == {(0, 1), (3, 0)} && Rating(g, (2, 1)) == 2
  {
    ClimbStep(g, (2, 1), 7, [((1, 1), 8), ((2, 2), 4), ((3, 1), 6), ((2, 0), 8)]);
    assert PeaksOver(g, [((2, 0), 8)], 7) == {(3, 0)} && RatingOver(g, [((2, 0), 8)], 7) == 1;
    assert PeaksOver(g, [((3, 1), 6), ((2, 0), 8)], 7) == {(3, 0)} && RatingOver(g, [((3, 1), 6), ((2, 0), 8)], 7) == 1;
    assert PeaksOver(g, [((2, 2), 4), ((3, 1), 6), ((2, 0), 8)], 7) == {(3, 0)} && RatingOver(g, [((2, 2), 4), ((3, 1), 6), ((2, 0), 8)], 7) == 1;
    assert PeaksOver(g, [((1, 1), 8), ((2, 2), 4), ((3, 1), 6), ((2, 0), 8)], 7) == {(0, 1), (3, 0)} && RatingOver(g, [((1, 1), 8), ((2, 2), 4), ((3, 1), 6), ((2, 0), 8)], 7) == 2;
  }

  lemma Large2_1()
    ensures Peaks(Large, (2, 1)) == {(0, 1), (3, 0)} && Rating(Large, (2, 1)) == 2
  {
    Around2_1();
    Large1_1();
    Large2_0();
    Climb2_1(Large);
  }

  lemma Around4_3()
    ensures Get(Large, (4, 3)) == Some(7)
    ensures Adjacent(Large, (4, 3)) == [((3, 3), 4), ((4, 4), 8), ((5, 3), 1), ((4, 2), 6)]
  {
  }

  lemma Climb4_3(g: Grid)
    requires Get(g, (4, 3)) == Some(7)
    requires Adjacent(g, (4, 3)) == [((3, 3), 4), ((4, 4), 8), ((5, 3), 1), ((4, 2), 6)]
    requires Peaks(g, (4, 4)) == {(3, 4), (4, 5), (5, 4)} && Rating(g, (4, 4)) == 3
    ensures Peaks(g, (4, 3)) == {(3, 4), (4, 5), (5, 4)} && Rating(g, (4, 3)) == 3
  {
    ClimbStep(g, (4, 3), 7, [((3, 3), 4), ((4, 4), 8), ((5, 3), 1), ((4, 2), 6)]);
    assert PeaksOver(g, [((4, 2), 6)], 7) == {} && RatingOver(g, [((4, 2), 6)], 7) == 0;
    assert PeaksOver(g, [((5, 3), 1), ((4, 2), 6)], 7) == {} && RatingOver(g, [((5, 3), 1), ((4, 2), 6)], 7) == 0;
    assert PeaksOver(g, [((4, 4), 8), ((5, 3), 1), ((4, 2), 6)], 7) == {(3, 4), (4, 5), (5, 4)} && RatingOver(g, [((4, 4), 8), ((5, 3), 1), ((4, 2), 6)], 7) == 3;
    assert PeaksOver(g, [((3, 3), 4), ((4, 4), 8), ((5, 3), 1), ((4, 2), 6)], 7) == {(3, 4), (4, 5), (5, 4)} && RatingOver(g, [((3, 3), 4), ((4, 4), 8), ((5, 3), 1), ((4, 2), 6)], 7) == 3;
  }

  lemma Large4_3()
    ensures Peaks(Large, (4, 3)) == {(3, 4), (4, 5), (5, 4)} && Rating(Large, (4, 3)) == 3
  {
    Around4_3();
    Large4_4();
    Climb4_3(Large);
  }

  lemma Around3_1()
    ensures Get(Large, (3, 1)) == Some(6)
    ensures Adjacent(Large, (3, 1)) == [((2, 1), 7), ((3, 2), 5), ((4, 1), 5), ((3, 0), 9)]
  {
  }

  lemma Climb3_1(g: Grid)
    requires Get(g, (3, 1)) == Some(6)
    requires Adjacent(g, (3, 1)) == [((2, 1), 7), ((3, 2), 5), ((4, 1), 5), ((3, 0), 9)]
    requires Peaks(g, (2, 1)) == {(0, 1), (3, 0)} && Rating(g, (2, 1)) == 2
    ensures Peaks(g, (3, 1)) == {(0, 1), (3, 0)} && Rating(g, (3, 1)) == 2
  {
    ClimbStep(g, (3, 1), 6, [((2, 1), 7), ((3, 2), 5), ((4, 1), 5), ((3, 0), 9)]);
    assert PeaksOver(g, [((3, 0), 9)], 6) == {} && RatingOver(g, [((3, 0), 9)], 6) == 0;
    assert PeaksOver(g, [((4, 1), 5), ((3, 0), 9)], 6) == {} && RatingOver(g, [((4, 1), 5), ((3, 0), 9)], 6) == 0;
    assert PeaksOver(g, [((3, 2), 5), ((4, 1), 5), ((3, 0), 9)], 6) == {} && RatingOver(g, [((3, 2), 5), ((4, 1), 5), ((3, 0), 9)], 6) == 0;
    assert PeaksOver(g, [((2, 1), 7), ((3, 2), 5), ((4, 1), 5), ((3, 0), 9)], 6) == {(0, 1), (3, 0)} && RatingOver(g, [((2, 1), 7), ((3, 2), 5), ((4, 1), 5), ((3, 0), 9)], 6) == 2;
  }

  lemma Large3_1()
    ensures Peaks(Large, (3, 1)) == {(0, 1), (3, 0)} && Rating(Large, (3, 1)) == 2
  {
    Around3_1();
    Large2_1();
    Climb3_1(Large);
  }

  lemma Around4_2()
    ensures Get(Large, (4, 2)) == Some(6)
    ensures Adjacent(Large, (4, 2)) == [((3, 2), 5), ((4, 3), 7), ((5, 2), 0), ((4, 1), 5)]
  {
  }

  lemma Climb4_2(g: Grid)
    requires Get(g, (4, 2)) == Some(6)
    requires Adjacent(g, (4, 2)) == [((3, 2), 5), ((4, 3), 7), ((5, 2), 0), ((4, 1), 5)]
    requires Peaks(g, (4, 3)) == {(3, 4), (4, 5), (5, 4)} && Rating(g, (4, 3)) == 3
    ensures Peaks(g, (4, 2)) == {(3, 4), (4, 5), (5, 4)} && Rating(g, (4, 2)) == 3
  {
    ClimbStep(g, (4, 2), 6, [((3, 2), 5), ((4, 3), 7), ((5, 2), 0), ((4, 1), 5)]);
    assert PeaksOver(g, [((4, 1), 5)], 6) == {} && RatingOver(g, [((4, 1), 5)], 6) == 0;
    assert PeaksOver(g, [((5, 2), 0), ((4, 1), 5)], 6) == {} && RatingOver(g, [((5, 2), 0), ((4, 1), 5)], 6) == 0;
    assert PeaksOver(g, [((4, 3), 7), ((5, 2), 0), ((4, 1), 5)], 6) == {(3, 4), (4, 5), (5, 4)} && RatingOver(g, [((4, 3), 7), ((5, 2), 0), ((4, 1), 5)], 6) == 3;
    assert PeaksOver(g, [((3, 2), 5), ((4, 3), 7), ((5, 2), 0), ((4, 1), 5)], 6) == {(3, 4), (4, 5), (5, 4)} && RatingOver(g, [((3, 2), 5), ((4, 3), 7), ((5, 2), 0), ((4, 1), 5)], 6) == 3;
  }

  lemma Large4_2()
    ensures Peaks(Large, (4, 2)) == {(3, 4), (4, 5), (5, 4)} && Rating(Large, (4, 2)) == 3
  {
    Around4_2();
    Large4_3();
    Climb4_2(Large);
  }

  lemma Around3_2()
    ensures Get(Large, (3, 2)) == Some(5)
    ensures Adjacent(Large, (3, 2)) == [((2, 2), 4), ((3, 3), 4), ((4, 2), 6), ((3, 1), 6)]
  {
  }

  lemma Climb3_2(g: Grid)
    requires Get(g, (3, 2)) == Some(5)
    requires Adjacent(g, (3, 2)) == [((2, 2), 4), ((3, 3), 4), ((4, 2), 6), ((3, 1), 6)]
    requires Peaks(g, (4, 2)) == {(3, 4), (4, 5), (5, 4)} && Rating(g, (4, 2)) == 3
    requires Peaks(g, (3, 1)) == {(0, 1), (3, 0)} && Rating(g, (3, 1)) == 2
    ensures Peaks(g, (3, 2)) == {(0, 1), (3, 0), (3, 4), (4, 5), (5, 4)} && Rating(g, (3, 2)) == 5
  {
    ClimbStep(g, (3, 2), 5, [((2, 2), 4), ((3, 3), 4), ((4, 2), 6), ((3, 1), 6)]);
    assert PeaksOver(g, [((3, 1), 6)], 5) == {(0, 1), (3, 0)} && RatingOver(g, [((3, 1), 6)], 5) == 2;
    assert PeaksOver(g, [((4, 2), 6), ((3, 1), 6)], 5) == {(0, 1), (3, 0), (3, 4), (4, 5), (5, 4)} && RatingOver(g, [((4, 2), 6), ((3, 1), 6)], 5) == 5;
    assert PeaksOver(g, [((3, 3), 4), ((4, 2), 6), ((3, 1), 6)], 5) == {(0, 1), (3, 0), (3, 4), (4, 5), (5, 4)} && RatingOver(g, [((3, 3), 4), ((4, 2), 6), ((3, 1), 6)], 5) == 5;
    assert PeaksOver(g, [((2, 2), 4), ((3, 3), 4), ((4, 2), 6), ((3, 1), 6)], 5) == {(0, 1), (3, 0), (3, 4), (4, 5), (5, 4)} && RatingOver(g, [((2, 2), 4), ((3, 3), 4), ((4, 2), 6), ((3, 1), 6)], 5) == 5;
  }

  lemma Large3_2()
    ensures Peaks(Large, (3, 2)) == {(0, 1), (3, 0), (3, 4), (4, 5), (5, 4)} && Rating(Large, (3, 2)) == 5
  {
    Around3_2();
    Large4_2();
    Large3_1();
    Climb3_2(Large);
  }

  lemma Around2_2()
    ensures Get(Large, (2, 2)) == Some(4)
    ensures Adjacent(Large, (2, 2)) == [((1, 2), 1), ((2, 3), 3), ((3, 2), 5), ((2, 1), 7)]
  {
  }

  lemma Climb2_2(g: Grid)
    requires Get(g, (2, 2)) == Some(4)
    requires Adjacent(g, (2, 2)) == [((1, 2), 1), ((2, 3), 3), ((3, 2), 5), ((2, 1), 7)]
    requires Peaks(g, (3, 2)) == {(0, 1), (3, 0), (3, 4), (4, 5), (5, 4)} && Rating(g, (3, 2)) == 5
    ensures Peaks(g, (2, 2)) == {(0, 1), (3, 0), (3, 4), (4, 5), (5, 4)} && Rating(g, (2, 2)) == 5
  {
    ClimbStep(g, (2, 2), 4, [((1, 2), 1), ((2, 3), 3), ((3, 2), 5), ((2, 1), 7)]);
    assert PeaksOver(g, [((2, 1), 7)], 4) == {} && RatingOver(g, [((2, 1), 7)], 4) == 0;
    assert PeaksOver(g, [((3, 2), 5), ((2, 1), 7)], 4) == {(0, 1), (3, 0), (3, 4), (4, 5), (5, 4)} && RatingOver(g, [((3, 2), 5), ((2, 1), 7)], 4) == 5;
    assert PeaksOver(g, [((2, 3), 3), ((3, 2), 5), ((2, 1), 7)], 4) == {(0, 1), (3, 0), (3, 4), (4, 5), (5, 4)} && RatingOver(g, [((2, 3), 3), ((3, 2), 5), ((2, 1), 7)], 4) == 5;
    assert PeaksOver(g, [((1, 2), 1), ((2, 3), 3), ((3, 2), 5), ((2, 1), 7)], 4) == {(0, 1), (3, 0), (3, 4), (4, 5), (5, 4)} && RatingOver(g, [((1, 2), 1), ((2, 3), 3), ((3, 2), 5), ((2, 1), 7)], 4) == 5;
  }

  lemma Large2_2()
    ensures Peaks(Large, (2, 2)) == {(0, 1), (3, 0), (3, 4), (4, 5), (5, 4)} && Rating(Large, (2, 2)) == 5
  {
    Around2_2();
    Large3_2();
    Climb2_2(Large);
  }

  lemma Around3_3()
    ensures Get(Large, (3, 3)) == Some(4)
    ensures Adjacent(Large, (3, 3)) == [((2, 3), 3), ((3, 4), 9), ((4, 3), 7), ((3, 2), 5)]
  {
  }

  lemma Climb3_3(g: Grid)
    requires Get(g, (3, 3)) == Some(4)
    requires Adjacent(g, (3, 3)) == [((2, 3), 3), ((3, 4), 9), ((4, 3), 7), ((3, 2), 5)]
    requires Peaks(g, (3, 2)) == {(0, 1), (3, 0), (3, 4), (4, 5), (5, 4)} && Rating(g, (3, 2)) == 5
    ensures Peaks(g, (3, 3)) == {(0, 1), (3, 0), (3, 4), (4, 5), (5, 4)} && Rating(g, (3, 3)) == 5
  {
    ClimbStep(g, (3, 3), 4, [((2, 3), 3), ((3, 4), 9), ((4, 3), 7), ((3, 2), 5)]);
    assert PeaksOver(g, [((3, 2), 5)], 4) == {(0, 1), (3, 0), (3, 4), (4, 5), (5, 4)} && RatingOver(g, [((3, 2), 5)], 4) == 5;
    assert PeaksOver(g, [((4, 3), 7), ((3, 2), 5)], 4) == {(0, 1), (3, 0), (3, 4), (4, 5), (5, 4)} && RatingOver(g, [((4, 3), 7), ((3, 2), 5)], 4) == 5;
    assert PeaksOver(g, [((3, 4), 9), ((4, 3), 7), ((3, 2), 5)], 4) == {(0, 1), (3, 0), (3, 4), (4, 5), (5, 4)} && RatingOver(g, [((3, 4), 9), ((4, 3), 7), ((3, 2), 5)], 4) == 5;
    assert PeaksOver(g, [((2, 3), 3), ((3, 4), 9), ((4, 3), 7), ((3, 2), 5)], 4) == {(0, 1), (3, 0), (3, 4), (4, 5), (5, 4)} && RatingOver(g, [((2, 3), 3), ((3, 4), 9), ((4, 3), 7), ((3, 2), 5)], 4) == 5;
  }

  lemma Large3_3()
    ensures Peaks(Large, (3, 3)) == {(0, 1), (3, 0), (3, 4), (4, 5), (5, 4)} && Rating(Large, (3, 3)) == 5
  {
    Around3_3();
    Large3_2();
    Climb3_3(Large);
  }

  lemma Around2_3()
    ensures Get(Large, (2, 3)) == Some(3)
    ensures Adjacent(Large, (2, 3)) == [((1, 3), 2), ((2, 4), 0), ((3, 3), 4), ((2, 2), 4)]
  {
  }

  lemma Climb2_3(g: Grid)
    requires Get(g, (2, 3)) == Some(3)
    requires Adjacent(g, (2, 3)) == [((1, 3), 2), ((2, 4), 0), ((3, 3), 4), ((2, 2), 4)]
    requires Peaks(g, (3, 3)) == {(0, 1), (3, 0), (3, 4), (4, 5), (5, 4)} && Rating(g, (3, 3)) == 5
    requires Peaks(g, (2, 2)) == {(0, 1), (3, 0), (3, 4), (4, 5), (5, 4)} && Rating(g, (2, 2)) == 5
    ensures Peaks(g, (2, 3)) == {(0, 1), (3, 0), (3, 4), (4, 5), (5, 4)} && Rating(g, (2, 3)) == 10
  {
    ClimbStep(g, (2, 3), 3, [((1, 3), 2), ((2, 4), 0), ((3, 3), 4), ((2, 2), 4)]);
    assert PeaksOver(g, [((2, 2), 4)], 3) == {(0, 1), (3, 0), (3, 4), (4, 5), (5, 4)} && RatingOver(g, [((2, 2), 4)], 3) == 5;
    assert PeaksOver(g, [((3, 3), 4), ((2, 2), 4)], 3) == {(0, 1), (3, 0), (3, 4), (4, 5), (5, 4)} && RatingOver(g, [((3, 3), 4), ((2, 2), 4)], 3) == 10;
    assert PeaksOver(g, [((2, 4), 0), ((3, 3), 4), ((2, 2), 4)], 3) == {(0, 1), (3, 0), (3, 4), (4, 5), (5, 4)} && RatingOver(g, [((2, 4), 0), ((3, 3), 4), ((2, 2), 4)], 3) == 10;
    assert PeaksOver(g, [((1, 3), 2), ((2, 4), 0), ((3, 3), 4), ((2, 2), 4)], 3) == {(0, 1), (3, 0), (3, 4), (4, 5), (5, 4)} && RatingOver(g, [((1, 3), 2), ((2, 4), 0), ((3, 3), 4), ((2, 2), 4)], 3) == 10;
  }

  lemma Large2_3()
    ensures Peaks(Large, (2, 3)) == {(0, 1), (3, 0), (3, 4), (4, 5), (5, 4)} && Rating(Large, (2, 3)) == 10
  {
    Around2_3();
    Large3_3();
    Large2_2();
    Climb2_3(Large);
  }

  lemma Around1_3()
    ensures Get(Large, (1, 3)) == Some(2)
    ensures Adjacent(Large, (1, 3)) == [((0, 3), 1), ((1, 4), 1), ((2, 3), 3), ((1, 2), 1)]
  {
  }

  lemma Climb1_3(g: Grid)
    requires Get(g, (1, 3)) == Some(2)
    requires Adjacent(g, (1, 3)) == [((0, 3), 1), ((1, 4), 1), ((2, 3), 3), ((1, 2), 1)]
    requires Peaks(g, (2, 3)) == {(0, 1), (3, 0), (3, 4), (4, 5), (5, 4)} && Rating(g, (2, 3)) == 10
    ensures Peaks(g, (1, 3)) == {(0, 1), (3, 0), (3, 4), (4, 5), (5, 4)} && Rating(g, (1, 3)) == 10
  {
    ClimbStep(g, (1, 3), 2, [((0, 3), 1), ((1, 4), 1), ((2, 3), 3), ((1, 2), 1)]);
    assert PeaksOver(g, [((1, 2), 1)], 2) == {} && RatingOver(g, [((1, 2), 1)], 2) == 0;
    assert PeaksOver(g, [((2, 3), 3), ((1, 2), 1)], 2) == {(0, 1), (3, 0), (3, 4), (4, 5), (5, 4)} && RatingOver(g, [((2, 3), 3), ((1, 2), 1)], 2) == 10;
    assert PeaksOver(g, [((1, 4), 1), ((2, 3), 3), ((1, 2), 1)], 2) == {(0, 1), (3, 0), (3, 4), (4, 5), (5, 4)} && RatingOver(g, [((1, 4), 1), ((2, 3), 3), ((1, 2), 1)], 2) == 10;
    assert PeaksOver(g, [((0, 3), 1), ((1, 4), 1), ((2, 3), 3), ((1, 2), 1)], 2) == {(0, 1), (3, 0), (3, 4), (4, 5), (5, 4)} && RatingOver(g, [((0, 3), 1), ((1, 4), 1), ((2, 3), 3), ((1, 2), 1)], 2) == 10;
  }

  lemma Large1_3()
    ensures Peaks(Large, (1, 3)) == {(0, 1), (3, 0), (3, 4), (4, 5), (5, 4)} && Rating(Large, (1, 3)) == 10
  {
    Around1_3();
    Large2_3();
    Climb1_3(Large);
  }

  lemma Around0_3()
    ensures Get(Large, (0, 3)) == Some(1)
    ensures Adjacent(Large, (0, 3)) == [((0, 4), 0), ((1, 3), 2), ((0, 2), 0)]
  {
  }

  lemma Climb0_3(g: Grid)
    requires Get(g, (0, 3)) == Some(1)
    requires Adjacent(g, (0, 3)) == [((0, 4), 0), ((1, 3), 2), ((0, 2), 0)]
    requires Peaks(g, (1, 3)) == {(0, 1), (3, 0), (3, 4), (4, 5), (5, 4)} && Rating(g, (1, 3)) == 10
    ensures Peaks(g, (0, 3)) == {(0, 1), (3, 0), (3, 4), (4, 5), (5, 4)} && Rating(g, (0, 3)) == 10
  {
    ClimbStep(g, (0, 3), 1, [((0, 4), 0), ((1, 3), 2), ((0, 2), 0)]);
    assert PeaksOver(g, [((0, 2), 0)], 1) == {} && RatingOver(g, [((0, 2), 0)], 1) == 0;
    assert PeaksOver(g, [((1, 3), 2), ((0, 2), 0)], 1) == {(0, 1), (3, 0), (3, 4), (4, 5), (5, 4)} && RatingOver(g, [((1, 3), 2), ((0, 2), 0)], 1) == 10;
    assert PeaksOver(g, [((0, 4), 0), ((1, 3), 2), ((0, 2), 0)], 1) == {(0, 1), (3, 0), (3, 4), (4, 5), (5, 4)} && RatingOver(g, [((0, 4), 0), ((1, 3), 2), ((0, 2), 0)], 1) == 10;
  }

  lemma Large0_3()
    ensures Peaks(Large, (0, 3)) == {(0, 1), (3, 0), (3, 4), (4, 5), (5, 4)} && Rating(Large, (0, 3)) == 10
  {
    Around0_3();
    Large1_3();
    Climb0_3(Large);
  }

  lemma Around1_2()
    ensures Get(Large, (1, 2)) == Some(1)
    ensures Adjacent(Large, (1, 2)) == [((0, 2), 0), ((1, 3), 2), ((2, 2), 4), ((1, 1), 8)]
  {
  }

  lemma Climb1_2(g: Grid)
    requires Get(g, (1, 2)) == Some(1)
    requires Adjacent(g, (1, 2)) == [((0, 2), 0), ((1, 3), 2), ((2, 2), 4), ((1, 1), 8)]
    requires Peaks(g, (1, 3)) == {(0, 1), (3, 0), (3, 4), (4, 5), (5, 4)} && Rating(g, (1, 3)) == 10
    ensures Peaks(g, (1, 2)) == {(0, 1), (3, 0), (3, 4), (4, 5), (5, 4)} && Rating(g, (1, 2)) == 10
  {
    ClimbStep(g, (1, 2), 1, [((0, 2), 0), ((1, 3), 2), ((2, 2), 4), ((1, 1), 8)]);
    assert PeaksOver(g, [((1, 1), 8)], 1) == {} && RatingOver(g, [((1, 1), 8)], 1) == 0;
    assert PeaksOver(g, [((2, 2), 4), ((1, 1), 8)], 1) == {} && RatingOver(g, [((2, 2), 4), ((1, 1), 8)], 1) == 0;
    assert PeaksOver(g, [((1, 3), 2), ((2, 2), 4), ((1, 1), 8)], 1) == {(0, 1), (3, 0), (3, 4), (4, 5), (5, 4)} && RatingOver(g, [((1, 3), 2), ((2, 2), 4), ((1, 1), 8)], 1) == 10;
    assert PeaksOver(g, [((0, 2), 0), ((1, 3), 2), ((2, 2), 4), ((1, 1), 8)], 1) == {(0, 1), (3, 0), (3, 4), (4, 5), (5, 4)} && RatingOver(g, [((0, 2), 0), ((1, 3), 2), ((2, 2), 4), ((1, 1), 8)], 1) == 10;
  }

  lemma Large1_2()
    ensures Peaks(Large, (1, 2)) == {(0, 1), (3, 0), (3, 4), (4, 5), (5, 4)} && Rating(Large, (1, 2)) == 10
  {
    Around1_2();
    Large1_3();
    Climb1_2(Large);
  }

  lemma Around0_2()
    ensures Get(Large, (0, 2)) == Some(0)
    ensures Adjacent(Large, (0, 2)) == [((0, 3), 1), ((1, 2), 1), ((0, 1), 9)]
  {
  }

  lemma Climb0_2(g: Grid)
    requires Get(g, (0, 2)) == Some(0)
    requires Adjacent(g, (0, 2)) == [((0, 3), 1), ((1, 2), 1), ((0, 1), 9)]
    requires Peaks(g, (0, 3)) == {(0, 1), (3, 0), (3, 4), (4, 5), (5, 4)} && Rating(g, (0, 3)) == 10
    requires Peaks(g, (1, 2)) == {(0, 1), (3, 0), (3, 4), (4, 5), (5, 4)} && Rating(g, (1, 2)) == 10
    ensures Peaks(g, (0, 2)) == {(0, 1), (3, 0), (3, 4), (4, 5), (5, 4)} && Rating(g, (0, 2)) == 20
  {
    ClimbStep(g, (0, 2), 0, [((0, 3), 1), ((1, 2), 1), ((0, 1), 9)]);
    assert PeaksOver(g, [((0, 1), 9)], 0) == {} && RatingOver(g, [((0, 1), 9)], 0) == 0;
    assert PeaksOver(g, [((1, 2), 1), ((0, 1), 9)], 0) == {(0, 1), (3, 0), (3, 4), (4, 5), (5, 4)} && RatingOver(g, [((1, 2), 1), ((0, 1), 9)], 0) == 10;
    assert PeaksOver(g, [((0, 3), 1), ((1, 2), 1), ((0, 1), 9)], 0) == {(0, 1), (3, 0), (3, 4), (4, 5), (5, 4)} && RatingOver(g, [((0, 3), 1), ((1, 2), 1), ((0, 1), 9)], 0) == 20;
  }

  lemma Large0_2()
    ensures Peaks(Large, (0, 2)) == {(0, 1), (3, 0), (3, 4), (4, 5), (5, 4)} && Rating(Large, (0, 2)) == 20
  {
    Around0_2();
    Large0_3();
    Large1_2();
    Climb0_2(Large);
  }

  lemma FivePeaks(g: Grid)
    requires Peaks(g, (0, 2)) == {(0, 1), (3, 0), (3, 4), (4, 5), (5, 4)}
    ensures Score(g, (0, 2)) == 5
  {
  }

  /** The trailhead at (0, 2) reaches five peaks by twenty trails. */
  lemma ScoreAndRating()
    ensures Score(Large, (0, 2)) == 5 && Rating(Large, (0, 2)) == 20
  {
    Large0_2();
    FivePeaks(Large);
  }
}
