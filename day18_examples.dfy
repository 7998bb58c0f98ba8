/** The worked example of Day 18: a 7 by 7 memory space and 25 bytes. */
module Day18Examples {
  import opened Common
  import opened Day18

  /** The bytes of the example, (row, column). */
  const ExampleBytes: seq<Coordinates> := [
    (4, 5), (2, 4), (5, 4), (0, 3), (1, 2), (3, 6), (4, 2), (5, 1),
    (6, 0), (3, 3), (6, 2), (1, 5), (2, 1), (5, 5), (5, 2), (5, 6),
    (4, 1), (4, 0), (4, 6), (1, 1), (1, 6), (0, 1), (5, 0), (6, 1),
    (0, 2)
  ]

  const Example := MemorySpace(ExampleBytes, (6, 6))

  // ---- Successors ----

  lemma NextFromStart()
    ensures Next(Position((0, 0), 0, 12, [(0, 0)]), Example)
            == [Position((0, 1), 1, 11, [(0, 0), (0, 1)]), Position((1, 0), 1, 11, [(0, 0), (1, 0)])]
  {
    var p := Position((0, 0), 0, 12, [(0, 0)]);
    assert Deltas == [(-1, 0), (0, 1), (1, 0), (0, -1)];
    assert Manhattan((0, 1), (6, 6)) == 11 && Manhattan((1, 0), (6, 6)) == 11;
    assert [(0, 0)] + [(0, 1)] == [(0, 0), (0, 1)] && [(0, 0)] + [(1, 0)] == [(0, 0), (1, 0)];
  }

  lemma NextInside()
    ensures Next(Position((1, 1), 2, 10, [(0, 0), (0, 1), (1, 1)]), Example)
            == [Position((0, 1), 3, 11, [(0, 0), (0, 1), (1, 1), (0, 1)]),
                Position((1, 2), 3, 9, [(0, 0), (0, 1), (1, 1), (1, 2)]),
                Position((2, 1), 3, 9, [(0, 0), (0, 1), (1, 1), (2, 1)]),
                Position((1, 0), 3, 11, [(0, 0), (0, 1), (1, 1), (1, 0)])]
  {
    var v := [(0, 0), (0, 1), (1, 1)];
    assert Deltas == [(-1, 0), (0, 1), (1, 0), (0, -1)];
    assert Manhattan((0, 1), (6, 6)) == 11 && Manhattan((1, 2), (6, 6)) == 9;
    assert Manhattan((2, 1), (6, 6)) == 9 && Manhattan((1, 0), (6, 6)) == 11;
    assert v + [(0, 1)] == [(0, 0), (0, 1), (1, 1), (0, 1)] && v + [(1, 2)] == [(0, 0), (0, 1), (1, 1), (1, 2)];
    assert v + [(2, 1)] == [(0, 0), (0, 1), (1, 1), (2, 1)] && v + [(1, 0)] == [(0, 0), (0, 1), (1, 1), (1, 0)];
  }

  lemma NextFromGoal()
    ensures Next(Position((6, 6), 12, 0, [(6, 6)]), Example)
            == [Position((5, 6), 13, 1, [(6, 6), (5, 6)]), Position((6, 5), 13, 1, [(6, 6), (6, 5)])]
  {
    assert Deltas == [(-1, 0), (0, 1), (1, 0), (0, -1)];
    assert Manhattan((5, 6), (6, 6)) == 1 && Manhattan((6, 5), (6, 6)) == 1;
    assert [(6, 6)] + [(5, 6)] == [(6, 6), (5, 6)] && [(6, 6)] + [(6, 5)] == [(6, 6), (6, 5)];
  }

  // ---- The cells blocked as the bytes fall ----

  /** The first 12 bytes of the example. */
  const FirstTwelve: seq<Coordinates> := [
    (4, 5), (2, 4), (5, 4), (0, 3), (1, 2), (3, 6), (4, 2), (5, 1),
    (6, 0), (3, 3), (6, 2), (1, 5)
  ]

  /** The first 20 bytes of the example. */
  const FirstTwenty: seq<Coordinates> := [
    (4, 5), (2, 4), (5, 4), (0, 3), (1, 2), (3, 6), (4, 2), (5, 1),
    (6, 0), (3, 3), (6, 2), (1, 5), (2, 1), (5, 5), (5, 2), (5, 6),
    (4, 1), (4, 0), (4, 6), (1, 1)
  ]

  /** The first 21 bytes of the example. */
  const FirstTwentyOne: seq<Coordinates> := [
    (4, 5), (2, 4), (5, 4), (0, 3), (1, 2), (3, 6), (4, 2), (5, 1),
    (6, 0), (3, 3), (6, 2), (1, 5), (2, 1), (5, 5), (5, 2), (5, 6),
    (4, 1), (4, 0), (4, 6), (1, 1), (1, 6)
  ]

  lemma ExamplePrefixes(space: MemorySpace)
    requires space == Example
    ensures |space.corrupted| == 25 && space.goal == (6, 6)
    ensures space.corrupted[..12] == FirstTwelve
    ensures space.corrupted[..20] == FirstTwenty
    ensures space.corrupted[..21] == FirstTwentyOne
    ensures space.corrupted[20] == (1, 6)
  {
  }

  /** The cells blocked once 12 bytes have fallen, coordinate by coordinate. */
  predicate BlockedTwelve(space: MemorySpace)
  {
    forall x :: x in Blocked(space, 12) ==> BlockedTwelveCell(x)
  }

  predicate BlockedTwelveCell(x: Coordinates)
  {
    || (x.0 == 0 && x.1 == 3) || (x.0 == 1 && x.1 == 2) || (x.0 == 1 && x.1 == 5) || (x.0 == 2 && x.1 == 4)
    || (x.0 == 3 && x.1 == 3) || (x.0 == 3 && x.1 == 6) || (x.0 == 4 && x.1 == 2) || (x.0 == 4 && x.1 == 5)
    || (x.0 == 5 && x.1 == 1) || (x.0 == 5 && x.1 == 4) || (x.0 == 6 && x.1 == 0) || (x.0 == 6 && x.1 == 2)
  }

  lemma BlockedTwelveMember(x: Coordinates)
    requires x in FirstTwelve
    ensures BlockedTwelveCell(x)
  {
  }

  lemma BlockedTwelveCells(space: MemorySpace)
    requires forall x :: x in Blocked(space, 12) <==> x in FirstTwelve
    ensures BlockedTwelve(space)
  {
    hide Blocked;
    forall x | x in Blocked(space, 12)
      ensures BlockedTwelveCell(x)
    {
      BlockedTwelveMember(x);
    }
  }

  /** The cells blocked once 20 bytes have fallen, coordinate by coordinate. */
  predicate BlockedTwenty(space: MemorySpace)
  {
    forall x :: x in Blocked(space, 20) ==> BlockedTwentyCell(x)
  }

  predicate BlockedTwentyCell(x: Coordinates)
  {
    || (x.0 == 0 && x.1 == 3) || (x.0 == 1 && x.1 == 1) || (x.0 == 1 && x.1 == 2) || (x.0 == 1 && x.1 == 5)
    || (x.0 == 2 && x.1 == 1) || (x.0 == 2 && x.1 == 4) || (x.0 == 3 && x.1 == 3) || (x.0 == 3 && x.1 == 6)
    || (x.0 == 4 && x.1 == 0) || (x.0 == 4 && x.1 == 1) || (x.0 == 4 && x.1 == 2) || (x.0 == 4 && x.1 == 5)
    || (x.0 == 4 && x.1 == 6) || (x.0 == 5 && x.1 == 1) || (x.0 == 5 && x.1 == 2) || (x.0 == 5 && x.1 == 4)
    || (x.0 == 5 && x.1 == 5) || (x.0 == 5 && x.1 == 6) || (x.0 == 6 && x.1 == 0) || (x.0 == 6 && x.1 == 2)
  }

  lemma BlockedTwentyMember(x: Coordinates)
    requires x in FirstTwenty
    ensures BlockedTwentyCell(x)
  {
  }

  lemma BlockedTwentyCells(space: MemorySpace)
    requires forall x :: x in Blocked(space, 20) <==> x in FirstTwenty
    ensures BlockedTwenty(space)
  {
    hide Blocked;
    forall x | x in Blocked(space, 20)
      ensures BlockedTwentyCell(x)
    {
      BlockedTwentyMember(x);
    }
  }

  /** The cells blocked once 21 bytes have fallen, coordinate by coordinate. */
  ghost predicate BlockedTwentyOne(space: MemorySpace)
  {
    forall x :: BlockedTwentyOneCell(x) ==> x in Blocked(space, 21)
  }

  predicate BlockedTwentyOneCell(x: Coordinates)
  {
    || (x.0 == 0 && x.1 == 3) || (x.0 == 1 && x.1 == 1) || (x.0 == 1 && x.1 == 2) || (x.0 == 1 && x.1 == 5)
    || (x.0 == 1 && x.1 == 6) || (x.0 == 2 && x.1 == 1) || (x.0 == 2 && x.1 == 4) || (x.0 == 3 && x.1 == 3)
    || (x.0 == 3 && x.1 == 6) || (x.0 == 4 && x.1 == 0) || (x.0 == 4 && x.1 == 1) || (x.0 == 4 && x.1 == 2)
    || (x.0 == 4 && x.1 == 5) || (x.0 == 4 && x.1 == 6) || (x.0 == 5 && x.1 == 1) || (x.0 == 5 && x.1 == 2)
    || (x.0 == 5 && x.1 == 4) || (x.0 == 5 && x.1 == 5) || (x.0 == 5 && x.1 == 6) || (x.0 == 6 && x.1 == 0)
    || (x.0 == 6 && x.1 == 2)
  }

  lemma BlockedTwentyOneMember(x: Coordinates)
    requires BlockedTwentyOneCell(x)
    ensures x in FirstTwentyOne
  {
  }

  lemma BlockedTwentyOneCells(space: MemorySpace)
    requires forall x :: x in Blocked(space, 21) <==> x in FirstTwentyOne
    ensures BlockedTwentyOne(space)
  {
    hide Blocked;
    forall x | BlockedTwentyOneCell(x)
      ensures x in Blocked(space, 21)
    {
      BlockedTwentyOneMember(x);
    }
  }

  // ---- Routes ----

  lemma PathSingle(space: MemorySpace, bytes: nat, c: Coordinates)
    ensures Path(space, bytes, [c] + [])
  {
  }

  /** One step onto the head of a path, the path written cell by cell. */
  lemma PathStep(space: MemorySpace, bytes: nat, a: Coordinates, b: Coordinates, rest: seq<Coordinates>)
    requires StepOk(space, bytes, a, b) && Path(space, bytes, [b] + rest)
    ensures Path(space, bytes, [a] + ([b] + rest))
  {
    PathPrepend(space, bytes, a, [b] + rest);
  }

  lemma ReachableTwelvePart1(space: MemorySpace)
    requires space.goal == (6, 6) && BlockedTwelve(space)
    ensures Path(space, 12, [(3, 5)] + ([(3, 4)] + ([(4, 4)] + ([(4, 3)] + ([(5, 3)] + ([(6, 3)] + ([(6, 4)] + ([(6, 5)] + ([(6, 6)] + [])))))))))
  {
    hide Path;
    PathSingle(space, 12, (6, 6));
    PathStep(space, 12, (6, 5), (6, 6), []);
    PathStep(space, 12, (6, 4), (6, 5), [(6, 6)] + ([]));
    PathStep(space, 12, (6, 3), (6, 4), [(6, 5)] + ([(6, 6)] + ([])));
    PathStep(space, 12, (5, 3), (6, 3), [(6, 4)] + ([(6, 5)] + ([(6, 6)] + ([]))));
    PathStep(space, 12, (4, 3), (5, 3), [(6, 3)] + ([(6, 4)] + ([(6, 5)] + ([(6, 6)] + ([])))));
    PathStep(space, 12, (4, 4), (4, 3), [(5, 3)] + ([(6, 3)] + ([(6, 4)] + ([(6, 5)] + ([(6, 6)] + ([]))))));
    PathStep(space, 12, (3, 4), (4, 4), [(4, 3)] + ([(5, 3)] + ([(6, 3)] + ([(6, 4)] + ([(6, 5)] + ([(6, 6)] + ([])))))));
    PathStep(space, 12, (3, 5), (3, 4), [(4, 4)] + ([(4, 3)] + ([(5, 3)] + ([(6, 3)] + ([(6, 4)] + ([(6, 5)] + ([(6, 6)] + ([]))))))));
  }

  lemma ReachableTwelvePart2(space: MemorySpace)
    requires space.goal == (6, 6) && BlockedTwelve(space)
    requires Path(space, 12, [(3, 5)] + ([(3, 4)] + ([(4, 4)] + ([(4, 3)] + ([(5, 3)] + ([(6, 3)] + ([(6, 4)] + ([(6, 5)] + ([(6, 6)] + [])))))))))
    ensures Path(space, 12, [(1, 3)] + ([(1, 4)] + ([(0, 4)] + ([(0, 5)] + ([(0, 6)] + ([(1, 6)] + ([(2, 6)] + ([(2, 5)] + ([(3, 5)] + ([(3, 4)] + ([(4, 4)] + ([(4, 3)] + ([(5, 3)] + ([(6, 3)] + ([(6, 4)] + ([(6, 5)] + ([(6, 6)] + [])))))))))))))))))
  {
    hide Path;
    PathStep(space, 12, (2, 5), (3, 5), [(3, 4)] + ([(4, 4)] + ([(4, 3)] + ([(5, 3)] + ([(6, 3)] + ([(6, 4)] + ([(6, 5)] + ([(6, 6)] + ([])))))))));
    PathStep(space, 12, (2, 6), (2, 5), [(3, 5)] + ([(3, 4)] + ([(4, 4)] + ([(4, 3)] + ([(5, 3)] + ([(6, 3)] + ([(6, 4)] + ([(6, 5)] + ([(6, 6)] + ([]))))))))));
    PathStep(space, 12, (1, 6), (2, 6), [(2, 5)] + ([(3, 5)] + ([(3, 4)] + ([(4, 4)] + ([(4, 3)] + ([(5, 3)] + ([(6, 3)] + ([(6, 4)] + ([(6, 5)] + ([(6, 6)] + ([])))))))))));
    PathStep(space, 12, (0, 6), (1, 6), [(2, 6)] + ([(2, 5)] + ([(3, 5)] + ([(3, 4)] + ([(4, 4)] + ([(4, 3)] + ([(5, 3)] + ([(6, 3)] + ([(6, 4)] + ([(6, 5)] + ([(6, 6)] + ([]))))))))))));
    PathStep(space, 12, (0, 5), (0, 6), [(1, 6)] + ([(2, 6)] + ([(2, 5)] + ([(3, 5)] + ([(3, 4)] + ([(4, 4)] + ([(4, 3)] + ([(5, 3)] + ([(6, 3)] + ([(6, 4)] + ([(6, 5)] + ([(6, 6)] + ([])))))))))))));
    PathStep(space, 12, (0, 4), (0, 5), [(0, 6)] + ([(1, 6)] + ([(2, 6)] + ([(2, 5)] + ([(3, 5)] + ([(3, 4)] + ([(4, 4)] + ([(4, 3)] + ([(5, 3)] + ([(6, 3)] + ([(6, 4)] + ([(6, 5)] + ([(6, 6)] + ([]))))))))))))));
    PathStep(space, 12, (1, 4), (0, 4), [(0, 5)] + ([(0, 6)] + ([(1, 6)] + ([(2, 6)] + ([(2, 5)] + ([(3, 5)] + ([(3, 4)] + ([(4, 4)] + ([(4, 3)] + ([(5, 3)] + ([(6, 3)] + ([(6, 4)] + ([(6, 5)] + ([(6, 6)] + ([])))))))))))))));
    PathStep(space, 12, (1, 3), (1, 4), [(0, 4)] + ([(0, 5)] + ([(0, 6)] + ([(1, 6)] + ([(2, 6)] + ([(2, 5)] + ([(3, 5)] + ([(3, 4)] + ([(4, 4)] + ([(4, 3)] + ([(5, 3)] + ([(6, 3)] + ([(6, 4)] + ([(6, 5)] + ([(6, 6)] + ([]))))))))))))))));
  }

  lemma ReachableTwelvePart3(space: MemorySpace)
    requires space.goal == (6, 6) && BlockedTwelve(space)
    requires Path(space, 12, [(1, 3)] + ([(1, 4)] + ([(0, 4)] + ([(0, 5)] + ([(0, 6)] + ([(1, 6)] + ([(2, 6)] + ([(2, 5)] + ([(3, 5)] + ([(3, 4)] + ([(4, 4)] + ([(4, 3)] + ([(5, 3)] + ([(6, 3)] + ([(6, 4)] + ([(6, 5)] + ([(6, 6)] + [])))))))))))))))))
    ensures Path(space, 12, [(0, 0)] + ([(0, 1)] + ([(1, 1)] + ([(2, 1)] + ([(2, 2)] + ([(2, 3)] + ([(1, 3)] + ([(1, 4)] + ([(0, 4)] + ([(0, 5)] + ([(0, 6)] + ([(1, 6)] + ([(2, 6)] + ([(2, 5)] + ([(3, 5)] + ([(3, 4)] + ([(4, 4)] + ([(4, 3)] + ([(5, 3)] + ([(6, 3)] + ([(6, 4)] + ([(6, 5)] + ([(6, 6)] + [])))))))))))))))))))))))
  {
    hide Path;
    PathStep(space, 12, (2, 3), (1, 3), [(1, 4)] + ([(0, 4)] + ([(0, 5)] + ([(0, 6)] + ([(1, 6)] + ([(2, 6)] + ([(2, 5)] + ([(3, 5)] + ([(3, 4)] + ([(4, 4)] + ([(4, 3)] + ([(5, 3)] + ([(6, 3)] + ([(6, 4)] + ([(6, 5)] + ([(6, 6)] + ([])))))))))))))))));
    PathStep(space, 12, (2, 2), (2, 3), [(1, 3)] + ([(1, 4)] + ([(0, 4)] + ([(0, 5)] + ([(0, 6)] + ([(1, 6)] + ([(2, 6)] + ([(2, 5)] + ([(3, 5)] + ([(3, 4)] + ([(4, 4)] + ([(4, 3)] + ([(5, 3)] + ([(6, 3)] + ([(6, 4)] + ([(6, 5)] + ([(6, 6)] + ([]))))))))))))))))));
    PathStep(space, 12, (2, 1), (2, 2), [(2, 3)] + ([(1, 3)] + ([(1, 4)] + ([(0, 4)] + ([(0, 5)] + ([(0, 6)] + ([(1, 6)] + ([(2, 6)] + ([(2, 5)] + ([(3, 5)] + ([(3, 4)] + ([(4, 4)] + ([(4, 3)] + ([(5, 3)] + ([(6, 3)] + ([(6, 4)] + ([(6, 5)] + ([(6, 6)] + ([])))))))))))))))))));
    PathStep(space, 12, (1, 1), (2, 1), [(2, 2)] + ([(2, 3)] + ([(1, 3)] + ([(1, 4)] + ([(0, 4)] + ([(0, 5)] + ([(0, 6)] + ([(1, 6)] + ([(2, 6)] + ([(2, 5)] + ([(3, 5)] + ([(3, 4)] + ([(4, 4)] + ([(4, 3)] + ([(5, 3)] + ([(6, 3)] + ([(6, 4)] + ([(6, 5)] + ([(6, 6)] + ([]))))))))))))))))))));
    PathStep(space, 12, (0, 1), (1, 1), [(2, 1)] + ([(2, 2)] + ([(2, 3)] + ([(1, 3)] + ([(1, 4)] + ([(0, 4)] + ([(0, 5)] + ([(0, 6)] + ([(1, 6)] + ([(2, 6)] + ([(2, 5)] + ([(3, 5)] + ([(3, 4)] + ([(4, 4)] + ([(4, 3)] + ([(5, 3)] + ([(6, 3)] + ([(6, 4)] + ([(6, 5)] + ([(6, 6)] + ([])))))))))))))))))))));
    PathStep(space, 12, (0, 0), (0, 1), [(1, 1)] + ([(2, 1)] + ([(2, 2)] + ([(2, 3)] + ([(1, 3)] + ([(1, 4)] + ([(0, 4)] + ([(0, 5)] + ([(0, 6)] + ([(1, 6)] + ([(2, 6)] + ([(2, 5)] + ([(3, 5)] + ([(3, 4)] + ([(4, 4)] + ([(4, 3)] + ([(5, 3)] + ([(6, 3)] + ([(6, 4)] + ([(6, 5)] + ([(6, 6)] + ([]))))))))))))))))))))));
  }

  /** A walk from the start to the goal, 22 steps, with 12 bytes fallen. */
  lemma ReachableTwelve(space: MemorySpace)
    requires space.goal == (6, 6) && BlockedTwelve(space)
    ensures Reachable(space, 12, (6, 6))
  {
    hide Path;
    ReachableTwelvePart1(space);
    ReachableTwelvePart2(space);
    ReachableTwelvePart3(space);
    assert Walk(space, 12, [(0, 0)] + ([(0, 1)] + ([(1, 1)] + ([(2, 1)] + ([(2, 2)] + ([(2, 3)] + ([(1, 3)] + ([(1, 4)] + ([(0, 4)] + ([(0, 5)] + ([(0, 6)] + ([(1, 6)] + ([(2, 6)] + ([(2, 5)] + ([(3, 5)] + ([(3, 4)] + ([(4, 4)] + ([(4, 3)] + ([(5, 3)] + ([(6, 3)] + ([(6, 4)] + ([(6, 5)] + ([(6, 6)] + [])))))))))))))))))))))));
    assert Last([(0, 0)] + ([(0, 1)] + ([(1, 1)] + ([(2, 1)] + ([(2, 2)] + ([(2, 3)] + ([(1, 3)] + ([(1, 4)] + ([(0, 4)] + ([(0, 5)] + ([(0, 6)] + ([(1, 6)] + ([(2, 6)] + ([(2, 5)] + ([(3, 5)] + ([(3, 4)] + ([(4, 4)] + ([(4, 3)] + ([(5, 3)] + ([(6, 3)] + ([(6, 4)] + ([(6, 5)] + ([(6, 6)] + []))))))))))))))))))))))) == (6, 6);
  }

  lemma ReachableTwentyPart1(space: MemorySpace)
    requires space.goal == (6, 6) && BlockedTwenty(space)
    ensures Path(space, 20, [(3, 5)] + ([(3, 4)] + ([(4, 4)] + ([(4, 3)] + ([(5, 3)] + ([(6, 3)] + ([(6, 4)] + ([(6, 5)] + ([(6, 6)] + [])))))))))
  {
    hide Path;
    PathSingle(space, 20, (6, 6));
    PathStep(space, 20, (6, 5), (6, 6), []);
    PathStep(space, 20, (6, 4), (6, 5), [(6, 6)] + ([]));
    PathStep(space, 20, (6, 3), (6, 4), [(6, 5)] + ([(6, 6)] + ([])));
    PathStep(space, 20, (5, 3), (6, 3), [(6, 4)] + ([(6, 5)] + ([(6, 6)] + ([]))));
    PathStep(space, 20, (4, 3), (5, 3), [(6, 3)] + ([(6, 4)] + ([(6, 5)] + ([(6, 6)] + ([])))));
    PathStep(space, 20, (4, 4), (4, 3), [(5, 3)] + ([(6, 3)] + ([(6, 4)] + ([(6, 5)] + ([(6, 6)] + ([]))))));
    PathStep(space, 20, (3, 4), (4, 4), [(4, 3)] + ([(5, 3)] + ([(6, 3)] + ([(6, 4)] + ([(6, 5)] + ([(6, 6)] + ([])))))));
    PathStep(space, 20, (3, 5), (3, 4), [(4, 4)] + ([(4, 3)] + ([(5, 3)] + ([(6, 3)] + ([(6, 4)] + ([(6, 5)] + ([(6, 6)] + ([]))))))));
  }

  lemma ReachableTwentyPart2(space: MemorySpace)
    requires space.goal == (6, 6) && BlockedTwenty(space)
    requires Path(space, 20, [(3, 5)] + ([(3, 4)] + ([(4, 4)] + ([(4, 3)] + ([(5, 3)] + ([(6, 3)] + ([(6, 4)] + ([(6, 5)] + ([(6, 6)] + [])))))))))
    ensures Path(space, 20, [(1, 3)] + ([(1, 4)] + ([(0, 4)] + ([(0, 5)] + ([(0, 6)] + ([(1, 6)] + ([(2, 6)] + ([(2, 5)] + ([(3, 5)] + ([(3, 4)] + ([(4, 4)] + ([(4, 3)] + ([(5, 3)] + ([(6, 3)] + ([(6, 4)] + ([(6, 5)] + ([(6, 6)] + [])))))))))))))))))
  {
    hide Path;
    PathStep(space, 20, (2, 5), (3, 5), [(3, 4)] + ([(4, 4)] + ([(4, 3)] + ([(5, 3)] + ([(6, 3)] + ([(6, 4)] + ([(6, 5)] + ([(6, 6)] + ([])))))))));
    PathStep(space, 20, (2, 6), (2, 5), [(3, 5)] + ([(3, 4)] + ([(4, 4)] + ([(4, 3)] + ([(5, 3)] + ([(6, 3)] + ([(6, 4)] + ([(6, 5)] + ([(6, 6)] + ([]))))))))));
    PathStep(space, 20, (1, 6), (2, 6), [(2, 5)] + ([(3, 5)] + ([(3, 4)] + ([(4, 4)] + ([(4, 3)] + ([(5, 3)] + ([(6, 3)] + ([(6, 4)] + ([(6, 5)] + ([(6, 6)] + ([])))))))))));
    PathStep(space, 20, (0, 6), (1, 6), [(2, 6)] + ([(2, 5)] + ([(3, 5)] + ([(3, 4)] + ([(4, 4)] + ([(4, 3)] + ([(5, 3)] + ([(6, 3)] + ([(6, 4)] + ([(6, 5)] + ([(6, 6)] + ([]))))))))))));
    PathStep(space, 20, (0, 5), (0, 6), [(1, 6)] + ([(2, 6)] + ([(2, 5)] + ([(3, 5)] + ([(3, 4)] + ([(4, 4)] + ([(4, 3)] + ([(5, 3)] + ([(6, 3)] + ([(6, 4)] + ([(6, 5)] + ([(6, 6)] + ([])))))))))))));
    PathStep(space, 20, (0, 4), (0, 5), [(0, 6)] + ([(1, 6)] + ([(2, 6)] + ([(2, 5)] + ([(3, 5)] + ([(3, 4)] + ([(4, 4)] + ([(4, 3)] + ([(5, 3)] + ([(6, 3)] + ([(6, 4)] + ([(6, 5)] + ([(6, 6)] + ([]))))))))))))));
    PathStep(space, 20, (1, 4), (0, 4), [(0, 5)] + ([(0, 6)] + ([(1, 6)] + ([(2, 6)] + ([(2, 5)] + ([(3, 5)] + ([(3, 4)] + ([(4, 4)] + ([(4, 3)] + ([(5, 3)] + ([(6, 3)] + ([(6, 4)] + ([(6, 5)] + ([(6, 6)] + ([])))))))))))))));
    PathStep(space, 20, (1, 3), (1, 4), [(0, 4)] + ([(0, 5)] + ([(0, 6)] + ([(1, 6)] + ([(2, 6)] + ([(2, 5)] + ([(3, 5)] + ([(3, 4)] + ([(4, 4)] + ([(4, 3)] + ([(5, 3)] + ([(6, 3)] + ([(6, 4)] + ([(6, 5)] + ([(6, 6)] + ([]))))))))))))))));
  }

  lemma ReachableTwentyPart3(space: MemorySpace)
    requires space.goal == (6, 6) && BlockedTwenty(space)
    requires Path(space, 20, [(1, 3)] + ([(1, 4)] + ([(0, 4)] + ([(0, 5)] + ([(0, 6)] + ([(1, 6)] + ([(2, 6)] + ([(2, 5)] + ([(3, 5)] + ([(3, 4)] + ([(4, 4)] + ([(4, 3)] + ([(5, 3)] + ([(6, 3)] + ([(6, 4)] + ([(6, 5)] + ([(6, 6)] + [])))))))))))))))))
    ensures Path(space, 20, [(0, 0)] + ([(1, 0)] + ([(2, 0)] + ([(3, 0)] + ([(3, 1)] + ([(3, 2)] + ([(2, 2)] + ([(2, 3)] + ([(1, 3)] + ([(1, 4)] + ([(0, 4)] + ([(0, 5)] + ([(0, 6)] + ([(1, 6)] + ([(2, 6)] + ([(2, 5)] + ([(3, 5)] + ([(3, 4)] + ([(4, 4)] + ([(4, 3)] + ([(5, 3)] + ([(6, 3)] + ([(6, 4)] + ([(6, 5)] + ([(6, 6)] + [])))))))))))))))))))))))))
  {
    hide Path;
    PathStep(space, 20, (2, 3), (1, 3), [(1, 4)] + ([(0, 4)] + ([(0, 5)] + ([(0, 6)] + ([(1, 6)] + ([(2, 6)] + ([(2, 5)] + ([(3, 5)] + ([(3, 4)] + ([(4, 4)] + ([(4, 3)] + ([(5, 3)] + ([(6, 3)] + ([(6, 4)] + ([(6, 5)] + ([(6, 6)] + ([])))))))))))))))));
    PathStep(space, 20, (2, 2), (2, 3), [(1, 3)] + ([(1, 4)] + ([(0, 4)] + ([(0, 5)] + ([(0, 6)] + ([(1, 6)] + ([(2, 6)] + ([(2, 5)] + ([(3, 5)] + ([(3, 4)] + ([(4, 4)] + ([(4, 3)] + ([(5, 3)] + ([(6, 3)] + ([(6, 4)] + ([(6, 5)] + ([(6, 6)] + ([]))))))))))))))))));
    PathStep(space, 20, (3, 2), (2, 2), [(2, 3)] + ([(1, 3)] + ([(1, 4)] + ([(0, 4)] + ([(0, 5)] + ([(0, 6)] + ([(1, 6)] + ([(2, 6)] + ([(2, 5)] + ([(3, 5)] + ([(3, 4)] + ([(4, 4)] + ([(4, 3)] + ([(5, 3)] + ([(6, 3)] + ([(6, 4)] + ([(6, 5)] + ([(6, 6)] + ([])))))))))))))))))));
    PathStep(space, 20, (3, 1), (3, 2), [(2, 2)] + ([(2, 3)] + ([(1, 3)] + ([(1, 4)] + ([(0, 4)] + ([(0, 5)] + ([(0, 6)] + ([(1, 6)] + ([(2, 6)] + ([(2, 5)] + ([(3, 5)] + ([(3, 4)] + ([(4, 4)] + ([(4, 3)] + ([(5, 3)] + ([(6, 3)] + ([(6, 4)] + ([(6, 5)] + ([(6, 6)] + ([]))))))))))))))))))));
    PathStep(space, 20, (3, 0), (3, 1), [(3, 2)] + ([(2, 2)] + ([(2, 3)] + ([(1, 3)] + ([(1, 4)] + ([(0, 4)] + ([(0, 5)] + ([(0, 6)] + ([(1, 6)] + ([(2, 6)] + ([(2, 5)] + ([(3, 5)] + ([(3, 4)] + ([(4, 4)] + ([(4, 3)] + ([(5, 3)] + ([(6, 3)] + ([(6, 4)] + ([(6, 5)] + ([(6, 6)] + ([])))))))))))))))))))));
    PathStep(space, 20, (2, 0), (3, 0), [(3, 1)] + ([(3, 2)] + ([(2, 2)] + ([(2, 3)] + ([(1, 3)] + ([(1, 4)] + ([(0, 4)] + ([(0, 5)] + ([(0, 6)] + ([(1, 6)] + ([(2, 6)] + ([(2, 5)] + ([(3, 5)] + ([(3, 4)] + ([(4, 4)] + ([(4, 3)] + ([(5, 3)] + ([(6, 3)] + ([(6, 4)] + ([(6, 5)] + ([(6, 6)] + ([]))))))))))))))))))))));
    PathStep(space, 20, (1, 0), (2, 0), [(3, 0)] + ([(3, 1)] + ([(3, 2)] + ([(2, 2)] + ([(2, 3)] + ([(1, 3)] + ([(1, 4)] + ([(0, 4)] + ([(0, 5)] + ([(0, 6)] + ([(1, 6)] + ([(2, 6)] + ([(2, 5)] + ([(3, 5)] + ([(3, 4)] + ([(4, 4)] + ([(4, 3)] + ([(5, 3)] + ([(6, 3)] + ([(6, 4)] + ([(6, 5)] + ([(6, 6)] + ([])))))))))))))))))))))));
    PathStep(space, 20, (0, 0), (1, 0), [(2, 0)] + ([(3, 0)] + ([(3, 1)] + ([(3, 2)] + ([(2, 2)] + ([(2, 3)] + ([(1, 3)] + ([(1, 4)] + ([(0, 4)] + ([(0, 5)] + ([(0, 6)] + ([(1, 6)] + ([(2, 6)] + ([(2, 5)] + ([(3, 5)] + ([(3, 4)] + ([(4, 4)] + ([(4, 3)] + ([(5, 3)] + ([(6, 3)] + ([(6, 4)] + ([(6, 5)] + ([(6, 6)] + ([]))))))))))))))))))))))));
  }

  /** A walk from the start to the goal, 24 steps, with 20 bytes fallen. */
  lemma ReachableTwenty(space: MemorySpace)
    requires space.goal == (6, 6) && BlockedTwenty(space)
    ensures Reachable(space, 20, (6, 6))
  {
    hide Path;
    ReachableTwentyPart1(space);
    ReachableTwentyPart2(space);
    ReachableTwentyPart3(space);
    assert Walk(space, 20, [(0, 0)] + ([(1, 0)] + ([(2, 0)] + ([(3, 0)] + ([(3, 1)] + ([(3, 2)] + ([(2, 2)] + ([(2, 3)] + ([(1, 3)] + ([(1, 4)] + ([(0, 4)] + ([(0, 5)] + ([(0, 6)] + ([(1, 6)] + ([(2, 6)] + ([(2, 5)] + ([(3, 5)] + ([(3, 4)] + ([(4, 4)] + ([(4, 3)] + ([(5, 3)] + ([(6, 3)] + ([(6, 4)] + ([(6, 5)] + ([(6, 6)] + [])))))))))))))))))))))))));
    assert Last([(0, 0)] + ([(1, 0)] + ([(2, 0)] + ([(3, 0)] + ([(3, 1)] + ([(3, 2)] + ([(2, 2)] + ([(2, 3)] + ([(1, 3)] + ([(1, 4)] + ([(0, 4)] + ([(0, 5)] + ([(0, 6)] + ([(1, 6)] + ([(2, 6)] + ([(2, 5)] + ([(3, 5)] + ([(3, 4)] + ([(4, 4)] + ([(4, 3)] + ([(5, 3)] + ([(6, 3)] + ([(6, 4)] + ([(6, 5)] + ([(6, 6)] + []))))))))))))))))))))))))) == (6, 6);
  }

  /** The cells reachable once 21 bytes have fallen. */
  const CutOffArea: set<Coordinates> := {
    (0, 0), (0, 1), (0, 2), (0, 4), (0, 5), (0, 6), (1, 0), (1, 3),
    (1, 4), (2, 0), (2, 2), (2, 3), (3, 0), (3, 1), (3, 2)
  }

  /** No open step leads out of the cut-off cells, which hold the start
      but not the goal: 21 bytes cut the goal off. */
  lemma CutOffTwentyOne(space: MemorySpace)
    requires space.goal == (6, 6) && BlockedTwentyOne(space)
    ensures !Reachable(space, 21, (6, 6))
  {
    forall e, n | e in CutOffArea && StepOk(space, 21, e, n)
      ensures n in CutOffArea
    {
      AdjacentCases(e, n);
    }
    assert Start in CutOffArea && (6, 6) !in CutOffArea;
    ClosedCutsOff(space, 21, CutOffArea, (6, 6));
  }

  /** The goal can be reached with 12 and with 20 bytes fallen, and not
      with 21. */
  lemma ExampleReachability(space: MemorySpace)
    requires space == Example
    ensures Reachable(space, 12, (6, 6))
    ensures Reachable(space, 20, (6, 6))
    ensures !Reachable(space, 21, (6, 6))
  {
    ExamplePrefixes(space);
    BlockedPrefix(space, 12);
    BlockedPrefix(space, 20);
    BlockedPrefix(space, 21);
    hide *;
    BlockedTwelveCells(space);
    BlockedTwentyCells(space);
    BlockedTwentyOneCells(space);
    ReachableTwelve(space);
    ReachableTwenty(space);
    CutOffTwentyOne(space);
  }

  // ---- Parsing ----

  /** The puzzle input of the example, line by line: "x,y", column first. */
  const ExampleInput: string :=
    "5,4\n" + ("4,2\n" + ("4,5\n" + ("3,0\n" + ("2,1\n" + (
    "6,3\n" + ("2,4\n" + ("1,5\n" + ("0,6\n" + ("3,3\n" + (
    "2,6\n" + ("5,1\n" + ("1,2\n" + ("5,5\n" + ("2,5\n" + (
    "6,5\n" + ("1,4\n" + ("0,4\n" + ("6,4\n" + ("1,1\n" + (
    "6,1\n" + ("1,0\n" + ("0,5\n" + ("1,6\n" + ("2,0\n" + ("")))))))))))))))))))))))))

  lemma ShowInputEmpty()
    ensures ShowInput([]) == ""
  {
  }

  /** One more line in front of the written input. */
  lemma ShowInputStep(c: Coordinates, line: string, cs: seq<Coordinates>, text: string)
    requires c.0 < 10 && c.1 < 10 && line == [DecimalDigit(c.1), ',', DecimalDigit(c.0), '\n']
    requires ShowInput(cs) == text
    ensures ShowInput([c] + cs) == line + text
  {
    assert ShowLines([c] + cs)[1..] == ShowLines(cs);
  }

  /** The example bytes written out give the example input. */
  lemma ShowExampleLines()
    ensures ShowInput(ExampleBytes) == ExampleInput
  {
    ExampleBytesNested();
    ShowInputEmpty();
    hide ShowInput, ShowLines, JoinLines, ShowCoordinates, Show;
    var cs: seq<Coordinates>, text: string := [], "";
    ShowInputStep((0, 2), "2,0\n", cs, text);
    cs, text := [(0, 2)] + cs, "2,0\n" + text;
    ShowInputStep((6, 1), "1,6\n", cs, text);
    cs, text := [(6, 1)] + cs, "1,6\n" + text;
    ShowInputStep((5, 0), "0,5\n", cs, text);
    cs, text := [(5, 0)] + cs, "0,5\n" + text;
    ShowInputStep((0, 1), "1,0\n", cs, text);
    cs, text := [(0, 1)] + cs, "1,0\n" + text;
    ShowInputStep((1, 6), "6,1\n", cs, text);
    cs, text := [(1, 6)] + cs, "6,1\n" + text;
    ShowInputStep((1, 1), "1,1\n", cs, text);
    cs, text := [(1, 1)] + cs, "1,1\n" + text;
    ShowInputStep((4, 6), "6,4\n", cs, text);
    cs, text := [(4, 6)] + cs, "6,4\n" + text;
    ShowInputStep((4, 0), "0,4\n", cs, text);
    cs, text := [(4, 0)] + cs, "0,4\n" + text;
    ShowInputStep((4, 1), "1,4\n", cs, text);
    cs, text := [(4, 1)] + cs, "1,4\n" + text;
    ShowInputStep((5, 6), "6,5\n", cs, text);
    cs, text := [(5, 6)] + cs, "6,5\n" + text;
    ShowInputStep((5, 2), "2,5\n", cs, text);
    cs, text := [(5, 2)] + cs, "2,5\n" + text;
    ShowInputStep((5, 5), "5,5\n", cs, text);
    cs, text := [(5, 5)] + cs, "5,5\n" + text;
    ShowInputStep((2, 1), "1,2\n", cs, text);
    cs, text := [(2, 1)] + cs, "1,2\n" + text;
    ShowInputStep((1, 5), "5,1\n", cs, text);
    cs, text := [(1, 5)] + cs, "5,1\n" + text;
    ShowInputStep((6, 2), "2,6\n", cs, text);
    cs, text := [(6, 2)] + cs, "2,6\n" + text;
    ShowInputStep((3, 3), "3,3\n", cs, text);
    cs, text := [(3, 3)] + cs, "3,3\n" + text;
    ShowInputStep((6, 0), "0,6\n", cs, text);
    cs, text := [(6, 0)] + cs, "0,6\n" + text;
    ShowInputStep((5, 1), "1,5\n", cs, text);
    cs, text := [(5, 1)] + cs, "1,5\n" + text;
    ShowInputStep((4, 2), "2,4\n", cs, text);
    cs, text := [(4, 2)] + cs, "2,4\n" + text;
    ShowInputStep((3, 6), "6,3\n", cs, text);
    cs, text := [(3, 6)] + cs, "6,3\n" + text;
    ShowInputStep((1, 2), "2,1\n", cs, text);
    cs, text := [(1, 2)] + cs, "2,1\n" + text;
    ShowInputStep((0, 3), "3,0\n", cs, text);
    cs, text := [(0, 3)] + cs, "3,0\n" + text;
    ShowInputStep((5, 4), "4,5\n", cs, text);
    cs, text := [(5, 4)] + cs, "4,5\n" + text;
    ShowInputStep((2, 4), "4,2\n", cs, text);
    cs, text := [(2, 4)] + cs, "4,2\n" + text;
    ShowInputStep((4, 5), "5,4\n", cs, text);
    cs, text := [(4, 5)] + cs, "5,4\n" + text;
  }

  /** The example bytes, one at a time. */
  lemma ExampleBytesNested()
    ensures ExampleBytes == [(4, 5)] + ([(2, 4)] + ([(5, 4)] + ([(0, 3)] + ([(1, 2)] + ([(3, 6)] + ([(4, 2)] + ([(5, 1)] + ([(6, 0)] + ([(3, 3)] + ([(6, 2)] + ([(1, 5)] + ([(2, 1)] + ([(5, 5)] + ([(5, 2)] + ([(5, 6)] + ([(4, 1)] + ([(4, 0)] + ([(4, 6)] + ([(1, 1)] + ([(1, 6)] + ([(0, 1)] + ([(5, 0)] + ([(6, 1)] + ([(0, 2)] + ([])))))))))))))))))))))))))
  {
  }

  lemma ExampleBytesInArea()
    ensures forall c :: c in ExampleBytes ==> c.0 <= 6 && c.1 <= 6
  {
  }

  /** `parse_input` reads the example input, with size 6, as the example
      memory space. */
  lemma ExampleParse()
    ensures ParseInput(ExampleInput, 6) == Example
  {
    ShowExampleLines();
    ExampleBytesInArea();
    hide ParseInput, ShowInput, ParseLines, Lines, ShowLines, JoinLines;
    var cs := ExampleBytes;
    forall k | 0 <= k < |cs|
      ensures cs[k].0 < U8Limit && cs[k].1 < U8Limit
    {
      assert cs[k] in cs;
    }
    ParseShownInput(cs, 6);
  }

  /** No byte of the example falls on the start. */
  lemma ExampleMissesStart(space: MemorySpace)
    requires space == Example
    ensures Start !in space.corrupted
  {
  }

  // ---- Both parts on the example ----

  /** With 12 bytes fallen the search finds a route to the goal, at
      least 12 steps long. */
  method ExampleSteps() returns (travelled: nat)
    ensures travelled >= 12
  {
    ExampleReachability(Example);
    var found := StepsToGoal(Example, 12);
    RouteLength(Example, 12, found.value);
    travelled := found.value.travelled;
  }

  /** Starting from the route found with 12 bytes fallen and searching
      from the first byte, the first byte to cut the goal off is the 21st,
      at x = 6, y = 1. */
  method ExampleBlocker() returns (c: Coordinates)
    ensures c == (1, 6)
  {
    ExampleReachability(Example);
    ExamplePrefixes(Example);
    ExampleMissesStart(Example);
    var found := StepsToGoal(Example, 12);
    RouteFewer(Example, 0, 12, found.value);
    var r := RouteBlockedAt(Example, found.value, 0);
    ReachableFewer(Example, 21, 25, (6, 6));
    CutOffUnique(Example, 20, (6, 6));
    c := r.coordinates;
  }
}
