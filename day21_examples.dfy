/** Worked values of the day 21 cost model on the puzzle's example codes. */
module Day21Examples {
  import opened Common
  import opened Day21

  lemma ArrangementsOfRuns(v: DirectionButton, h: DirectionButton, n: nat)
    requires v != h
    ensures Arrangements(v, n, h, 0) == [Rep(v, n)]
    ensures Arrangements(v, 0, h, n) == [Rep(h, n)]
  {
  }

  lemma PrependSmall(x: DirectionButton, a: seq<DirectionButton>, b: seq<DirectionButton>, c: seq<DirectionButton>)
    ensures Prepend(x, [a]) == [[x] + a]
    ensures Prepend(x, [a, b]) == [[x] + a, [x] + b]
    ensures Prepend(x, [a, b, c]) == [[x] + a, [x] + b, [x] + c]
  {
    assert Prepend(x, [a])[0] == [x] + a;
  }

  lemma ArrangementsOneOne(v: DirectionButton, h: DirectionButton)
    requires v != h
    ensures Arrangements(v, 1, h, 1) == [[v, h], [h, v]]
  {
    assert Rep(v, 1) == [v] && Rep(h, 1) == [h];
    PrependSmall(v, [h], [], []);
    PrependSmall(h, [v], [], []);
    assert Arrangements(v, 1, h, 1) == Prepend(v, [[h]]) + Prepend(h, [[v]]);
    assert [v] + [h] == [v, h] && [h] + [v] == [h, v];
  }

  lemma ArrangementsTwoOne(v: DirectionButton, h: DirectionButton)
    requires v != h
    ensures Arrangements(v, 2, h, 1) == [[v, v, h], [v, h, v], [h, v, v]]
  {
    ArrangementsOneOne(v, h);
    assert Rep(v, 2) == [v, v];
    PrependSmall(v, [v, h], [h, v], []);
    PrependSmall(h, [v, v], [], []);
    assert Arrangements(v, 2, h, 1) == Prepend(v, [[v, h], [h, v]]) + Prepend(h, [[v, v]]);
    assert [v] + [v, h] == [v, v, h] && [v] + [h, v] == [v, h, v] && [h] + [v, v] == [h, v, v];
  }

  lemma ArrangementsOneTwo(v: DirectionButton, h: DirectionButton)
    requires v != h
    ensures Arrangements(v, 1, h, 2) == [[v, h, h], [h, v, h], [h, h, v]]
  {
    ArrangementsOneOne(v, h);
    assert Rep(h, 2) == [h, h];
    PrependSmall(v, [h, h], [], []);
    PrependSmall(h, [v, h], [h, v], []);
    assert Arrangements(v, 1, h, 2) == Prepend(v, [[h, h]]) + Prepend(h, [[v, h], [h, v]]);
    assert [v] + [h, h] == [v, h, h] && [h] + [v, h] == [h, v, h] && [h] + [h, v] == [h, h, v];
  }

  lemma ArrangementsTwoTwo(v: DirectionButton, h: DirectionButton)
    requires v != h
    ensures Arrangements(v, 2, h, 2) == [[v, v, h, h], [v, h, v, h], [v, h, h, v], [h, v, v, h], [h, v, h, v], [h, h, v, v]]
  {
    assert Arrangements(v, 2, h, 2) == Prepend(v, Arrangements(v, 1, h, 2)) + Prepend(h, Arrangements(v, 2, h, 1));
    ArrangementsOneTwo(v, h);
    ArrangementsTwoOne(v, h);
    PrependSmall(v, [v, h, h], [h, v, h], [h, h, v]);
    PrependSmall(h, [v, v, h], [v, h, v], [h, v, v]);
    ConsThree(v, v, h, h);
    ConsThree(v, h, v, h);
    ConsThree(v, h, h, v);
    ConsThree(h, v, v, h);
    ConsThree(h, v, h, v);
    ConsThree(h, h, v, v);
    JoinThrees([v, v, h, h], [v, h, v, h], [v, h, h, v], [h, v, v, h], [h, v, h, v], [h, h, v, v]);
  }

  lemma ConsThree(x: DirectionButton, a: DirectionButton, b: DirectionButton, c: DirectionButton)
    ensures [x] + [a, b, c] == [x, a, b, c]
  {
  }

  lemma JoinThrees<T>(a: T, b: T, c: T, d: T, e: T, f: T)
    ensures [a, b, c] + [d, e, f] == [a, b, c, d, e, f]
  {
  }

  // ---- One level of directional keypads above a human ----

  /** The arrow key for the k-th move, with Enter before the first one. */
  function KeyBefore(c: seq<DirectionButton>, k: nat): KeyPadButton
    requires k <= |c|
  {
    if k == 0 then Enter else Arrow(c[k - 1])
  }

  /** Distance a human's finger travels on the directional keypad to press
      the first n moves of c, starting from Enter. */
  function MoveTravel(c: seq<DirectionButton>, n: nat): nat
    requires n <= |c|
  {
    if n == 0 then 0
    else MoveTravel(c, n - 1) + Manhattan(Coordinate(Directional, KeyBefore(c, n - 1)), Coordinate(Directional, Arrow(c[n - 1])))
  }

  /** Cost of typing a candidate on a directional keypad a human types on. */
  function LevelOneCost(c: seq<DirectionButton>): nat
  {
    |c| + 1 + MoveTravel(c, |c|) + Manhattan(Coordinate(Directional, KeyBefore(c, |c|)), Coordinate(Directional, Enter))
  }

  /** Distance between two directional-keypad buttons. */
  function Hop(k: KeyPadButton, l: KeyPadButton): nat
    requires OnPad(Directional, k) && OnPad(Directional, l)
  {
    Manhattan(Coordinate(Directional, k), Coordinate(Directional, l))
  }

  /** The cost of short candidates, unfolded into hops. */
  lemma LevelOneCostOfZero()
    ensures LevelOneCost([]) == 1
  {
  }

  lemma LevelOneCostOfOne(x: DirectionButton)
    ensures LevelOneCost([x]) == 2 + Hop(Enter, Arrow(x)) + Hop(Arrow(x), Enter)
  {
    assert MoveTravel([x], 1) == Hop(Enter, Arrow(x));
  }

  lemma LevelOneCostOfTwo(x: DirectionButton, y: DirectionButton)
    ensures LevelOneCost([x, y]) == 3 + Hop(Enter, Arrow(x)) + Hop(Arrow(x), Arrow(y)) + Hop(Arrow(y), Enter)
  {
    var c := [x, y];
    assert MoveTravel(c, 1) == Hop(Enter, Arrow(x));
    assert MoveTravel(c, 2) == MoveTravel(c, 1) + Hop(Arrow(x), Arrow(y));
  }

  /** The cost of a three-move candidate, unfolded. */
  lemma LevelOneCostOfThree(x: DirectionButton, y: DirectionButton, z: DirectionButton)
    ensures LevelOneCost([x, y, z])
      == 4 + Hop(Enter, Arrow(x)) + Hop(Arrow(x), Arrow(y)) + Hop(Arrow(y), Arrow(z)) + Hop(Arrow(z), Enter)
  {
    var c := [x, y, z];
    assert MoveTravel(c, 1) == Hop(Enter, Arrow(x));
    assert MoveTravel(c, 2) == MoveTravel(c, 1) + Hop(Arrow(x), Arrow(y));
    assert MoveTravel(c, 3) == MoveTravel(c, 2) + Hop(Arrow(y), Arrow(z));
  }

  lemma {:induction false} MoveTravelIsTravel(c: seq<DirectionButton>, n: nat)
    requires n <= |c|
    ensures Travel(Directional, Bracket(Arrows(c)), n + 1) == MoveTravel(c, n)
  {
    if n > 0 {
      MoveTravelIsTravel(c, n - 1);
      var keys := Bracket(Arrows(c));
      var x, y := keys[n - 1], keys[n];
      assert x == KeyBefore(c, n - 1) && y == Arrow(c[n - 1]);
      TravelStep(Directional, keys, n + 1, x, y);
    }
  }

  lemma LevelOneCostIsIterate(c: seq<DirectionButton>)
    ensures IterateCost(1, c) == LevelOneCost(c)
  {
    DirectPresses(Directional, Arrows(c));
    MoveTravelIsTravel(c, |c|);
  }

  // ---- Two levels of directional keypads above a human ----

  /** Sum of the one-level table over the adjacent pairs among the first n
      of `keys`. */
  function TableSum(keys: seq<KeyPadButton>, n: nat): nat
    requires n <= |keys|
  {
    if n < 2 then 0
    else TableSum(keys, n - 1) + DirectionalTable(keys[n - 2], keys[n - 1])
  }

  lemma {:induction false} TableSumOfPrefix(keys: seq<KeyPadButton>, m: nat, n: nat)
    requires n <= m <= |keys|
    ensures TableSum(keys[..m], n) == TableSum(keys, n)
  {
    if n >= 2 {
      TableSumOfPrefix(keys, m, n - 1);
    }
  }

  lemma LevelOnePairsStep(keys: seq<KeyPadButton>, a: KeyPadButton, b: KeyPadButton)
    requires AllOnPad(Directional, keys) && |keys| >= 2 && a == keys[|keys| - 2] && b == keys[|keys| - 1]
    requires OnPad(Directional, a) && OnPad(Directional, b)
    ensures PairsCost(Directional, 1, keys) == PairsCost(Directional, 1, keys[..|keys| - 1]) + DirectionalTable(a, b)
    ensures TableSum(keys, |keys|) == TableSum(keys, |keys| - 1) + DirectionalTable(a, b)
    decreases 1, 6, 0
  {
    LevelOneTable(a, b);
    PairsCostStep(Directional, 1, keys);
  }

  lemma {:induction false} LevelOnePairsCost(keys: seq<KeyPadButton>)
    requires AllOnPad(Directional, keys)
    ensures PairsCost(Directional, 1, keys) == TableSum(keys, |keys|)
    decreases 1, 7, |keys|
  {
    var n := |keys|;
    if n >= 2 {
      var init := keys[..n - 1];
      assert PairsCost(Directional, 1, init) == TableSum(keys, n - 1) by {
        LevelOnePairsCost(init);
        TableSumOfPrefix(keys, n - 1, n - 1);
      }
      LevelOnePairsStep(keys, keys[n - 2], keys[n - 1]);
    }
  }

  /** Table cost of pressing the first n moves of c, starting from Enter. */
  function MoveTable(c: seq<DirectionButton>, n: nat): nat
    requires n <= |c|
  {
    if n == 0 then 0
    else MoveTable(c, n - 1) + DirectionalTable(KeyBefore(c, n - 1), Arrow(c[n - 1]))
  }

  /** Cost of a candidate typed through two directional keypads. */
  function LevelTwoCost(c: seq<DirectionButton>): nat
  {
    MoveTable(c, |c|) + DirectionalTable(KeyBefore(c, |c|), Enter)
  }

  lemma {:induction false} MoveTableIsTableSum(c: seq<DirectionButton>, n: nat)
    requires n <= |c|
    ensures TableSum(Bracket(Arrows(c)), n + 1) == MoveTable(c, n)
  {
    if n > 0 {
      MoveTableIsTableSum(c, n - 1);
    }
  }

  lemma LevelTwoCostIsIterate(c: seq<DirectionButton>)
    ensures IterateCost(2, c) == LevelTwoCost(c)
    decreases 1, 8, 0
  {
    var keys, n := Bracket(Arrows(c)), |c|;
    assert IterateCost(2, c) == TableSum(keys, n + 2) by {
      LevelOnePairsCost(keys);
    }
    assert keys[n] == KeyBefore(c, n) && keys[n + 1] == Enter;
    assert TableSum(keys, n + 1) == MoveTable(c, n) by {
      MoveTableIsTableSum(c, n);
    }
  }

  // ---- The cheapest safe candidate ----

  /** Cost of a candidate one or two levels down, by the mirrors above. */
  function MirrorCost(level: nat, c: seq<DirectionButton>): nat
  {
    if level == 1 then LevelOneCost(c) else LevelTwoCost(c)
  }

  /** Least mirrored cost among the safe candidates in the first n of `cs`. */
  function Best(pad: Pad, level: nat, start: Coordinates, cs: seq<seq<DirectionButton>>, n: nat): Option<nat>
    requires n <= |cs|
  {
    if n == 0 then None
    else
      var best := Best(pad, level, start, cs, n - 1);
      if !SafeWalk(pad, cs[n - 1], start) then best
      else
        var c := MirrorCost(level, cs[n - 1]);
        Some(if best.None? || c < best.value then c else best.value)
  }

  /** An unsafe candidate leaves the best cost as it was. */
  lemma UnsafeCandidateSkipped(pad: Pad, level: nat, start: Coordinates, cs: seq<seq<DirectionButton>>, n: nat)
    requires 0 < n <= |cs| && !SafeWalk(pad, cs[n - 1], start)
    ensures Best(pad, level, start, cs, n) == Best(pad, level, start, cs, n - 1)
  {
  }

  /** A safe candidate replaces the best cost when it is cheaper. */
  lemma BestOfSafe(pad: Pad, level: nat, start: Coordinates, cs: seq<seq<DirectionButton>>, n: nat, prev: Option<nat>, cost: nat)
    requires 0 < n <= |cs| && Best(pad, level, start, cs, n - 1) == prev
    requires SafeWalk(pad, cs[n - 1], start) && MirrorCost(level, cs[n - 1]) == cost
    ensures Best(pad, level, start, cs, n) == Some(if prev.None? || cost < prev.value then cost else prev.value)
  {
  }

  lemma {:induction false} BestIsMin(pad: Pad, level: nat, start: Coordinates, cs: seq<seq<DirectionButton>>, n: nat)
    requires 1 <= level <= 2 && n <= |cs|
    ensures MinOpt(CandidateCosts(pad, level, start, cs[..n])) == Best(pad, level, start, cs, n)
    decreases level, 3, n
  {
    if n > 0 {
      BestIsMin(pad, level, start, cs, n - 1);
      BestStep(pad, level, start, cs, n);
    }
  }

  /** The mirrored cost of a candidate is its `iterate` cost. */
  lemma MirrorIsIterate(level: nat, c: seq<DirectionButton>)
    requires 1 <= level <= 2
    ensures IterateCost(level, c) == MirrorCost(level, c)
    decreases level, 2, 0
  {
    if level == 1 {
      MirrorOneIsIterate(level, c);
    } else {
      MirrorTwoIsIterate(level, c);
    }
  }

  lemma MirrorOneIsIterate(level: nat, c: seq<DirectionButton>)
    requires level == 1
    ensures IterateCost(level, c) == MirrorCost(level, c)
  {
    LevelOneCostIsIterate(c);
  }

  lemma MirrorTwoIsIterate(level: nat, c: seq<DirectionButton>)
    requires level == 2
    ensures IterateCost(level, c) == MirrorCost(level, c)
    decreases 1, 9, 0
  {
    LevelTwoCostIsIterate(c);
  }

  lemma BestStep(pad: Pad, level: nat, start: Coordinates, cs: seq<seq<DirectionButton>>, n: nat)
    requires 1 <= level <= 2 && 0 < n <= |cs|
    requires MinOpt(CandidateCosts(pad, level, start, cs[..n - 1])) == Best(pad, level, start, cs, n - 1)
    ensures MinOpt(CandidateCosts(pad, level, start, cs[..n])) == Best(pad, level, start, cs, n)
    decreases level, 2, 1
  {
    var c := cs[n - 1];
    CandidateCostsSnoc(pad, level, start, cs, n - 1);
    if SafeWalk(pad, c, start) {
      MirrorIsIterate(level, c);
    }
    BestStepOf(pad, level, start, cs, n, c);
  }

  lemma BestStepOf(pad: Pad, level: nat, start: Coordinates, cs: seq<seq<DirectionButton>>, n: nat, c: seq<DirectionButton>)
    requires 1 <= level <= 2 && 0 < n <= |cs| && c == cs[n - 1]
    requires MinOpt(CandidateCosts(pad, level, start, cs[..n - 1])) == Best(pad, level, start, cs, n - 1)
    requires CandidateCosts(pad, level, start, cs[..n])
      == CandidateCosts(pad, level, start, cs[..n - 1]) + (if SafeWalk(pad, c, start) then [IterateCost(level, c)] else [])
    requires SafeWalk(pad, c, start) ==> IterateCost(level, c) == MirrorCost(level, c)
    ensures MinOpt(CandidateCosts(pad, level, start, cs[..n])) == Best(pad, level, start, cs, n)
  {
    var before := CandidateCosts(pad, level, start, cs[..n - 1]);
    if SafeWalk(pad, c, start) {
      MinOptAppend(before, MirrorCost(level, c));
    } else {
      assert before + [] == before;
    }
  }

  /** The cost of a transition one or two levels down is the least mirrored
      cost of its safe candidates. */
  lemma ExpandByBest(pad: Pad, level: nat, a: KeyPadButton, b: KeyPadButton)
    requires 1 <= level <= 2 && OnPad(pad, a) && OnPad(pad, b)
    ensures var cs := Candidates(pad, a, b);
      Best(pad, level, Coordinate(pad, a), cs, |cs|) == Some(ExpandCost(pad, level, a, b))
    decreases level, 4, 0
  {
    var start, cs := Coordinate(pad, a), Candidates(pad, a, b);
    assert Best(pad, level, start, cs, |cs|) == MinOpt(CandidateCosts(pad, level, start, cs)) by {
      BestIsMin(pad, level, start, cs, |cs|);
      assert cs[..|cs|] == cs;
    }
    assert CandidateCosts(pad, level, start, cs) != [] by {
      SafeCandidateExists(pad, a, b);
      CandidateCostsNonEmpty(pad, level, start, cs);
    }
  }

  /** Presses a human needs, through one directional keypad, to make that
      keypad's arm go from the first button to the second and press it. */
  function DirectionalTable(a: KeyPadButton, b: KeyPadButton): nat
  {
    match (a, b)
    case (Arrow(Up), Arrow(Up)) => 1
    case (Arrow(Up), Arrow(Right)) => 7
    case (Arrow(Up), Arrow(Down)) => 6
    case (Arrow(Up), Arrow(Left)) => 9
    case (Arrow(Up), Enter) => 4
    case (Arrow(Right), Arrow(Up)) => 9
    case (Arrow(Right), Arrow(Right)) => 1
    case (Arrow(Right), Arrow(Down)) => 8
    case (Arrow(Right), Arrow(Left)) => 9
    case (Arrow(Right), Enter) => 4
    case (Arrow(Down), Arrow(Up)) => 4
    case (Arrow(Down), Arrow(Right)) => 4
    case (Arrow(Down), Arrow(Down)) => 1
    case (Arrow(Down), Arrow(Left)) => 8
    case (Arrow(Down), Enter) => 7
    case (Arrow(Left), Arrow(Up)) => 7
    case (Arrow(Left), Arrow(Right)) => 5
    case (Arrow(Left), Arrow(Down)) => 4
    case (Arrow(Left), Arrow(Left)) => 1
    case (Arrow(Left), Enter) => 8
    case (Enter, Arrow(Up)) => 8
    case (Enter, Arrow(Right)) => 6
    case (Enter, Arrow(Down)) => 9
    case (Enter, Arrow(Left)) => 10
    case (Enter, Enter) => 1
    case _ => 0
  }

  lemma UpUpLevelOneCandidate1(c: seq<DirectionButton>)
    requires c == []
    ensures SafeWalk(Directional, c, (0, 1)) && MirrorCost(1, c) == 1
  {
    LevelOneCostOfZero();
  }

  lemma UpUpLevelOneCandidates(cs: seq<seq<DirectionButton>>)
    requires cs == [[]]
    ensures Best(Directional, 1, (0, 1), cs, 1) == Some(1)
  {
    UpUpLevelOneCandidate1(cs[0]);
    BestOfSafe(Directional, 1, (0, 1), cs, 1, None, 1);
  }

  lemma UpUpLevelOneExpand(a: KeyPadButton, b: KeyPadButton)
    requires a == Arrow(Up) && b == Arrow(Up)
    ensures OnPad(Directional, a) && OnPad(Directional, b) && ExpandCost(Directional, 1, a, b) == 1
    decreases 1, 5, 0
  {
    var cs := Candidates(Directional, a, b);
    assert Coordinate(Directional, a) == (0, 1) && cs == [[]] by {
      assert Coordinate(Directional, a) == (0, 1) && Coordinate(Directional, b) == (0, 1);
      ArrangementsOfRuns(Up, Left, 0);
      assert Rep(Left, 0) == [];
    }
    UpUpLevelOneCandidates(cs);
    ExpandByBest(Directional, 1, a, b);
  }

  lemma UpRightLevelOneCandidate1(c: seq<DirectionButton>)
    requires c == [Down, Right]
    ensures SafeWalk(Directional, c, (0, 1)) && MirrorCost(1, c) == 7
  {
    assert SafeWalk(Directional, c, (0, 1)) by {
      assert [Down, Right][1..] == [Right];
    }
    LevelOneCostOfTwo(Down, Right);
  }

  lemma UpRightLevelOneCandidate2(c: seq<DirectionButton>)
    requires c == [Right, Down]
    ensures SafeWalk(Directional, c, (0, 1)) && MirrorCost(1, c) == 7
  {
    assert SafeWalk(Directional, c, (0, 1)) by {
      assert [Right, Down][1..] == [Down];
    }
    LevelOneCostOfTwo(Right, Down);
  }

  lemma UpRightLevelOneCandidates(cs: seq<seq<DirectionButton>>)
    requires cs == [[Down, Right], [Right, Down]]
    ensures Best(Directional, 1, (0, 1), cs, 2) == Some(7)
  {
    UpRightLevelOneCandidate1(cs[0]);
    BestOfSafe(Directional, 1, (0, 1), cs, 1, None, 7);
    UpRightLevelOneCandidate2(cs[1]);
    BestOfSafe(Directional, 1, (0, 1), cs, 2, Some(7), 7);
  }

  lemma UpRightLevelOneExpand(a: KeyPadButton, b: KeyPadButton)
    requires a == Arrow(Up) && b == Arrow(Right)
    ensures OnPad(Directional, a) && OnPad(Directional, b) && ExpandCost(Directional, 1, a, b) == 7
    decreases 1, 5, 0
  {
    var cs := Candidates(Directional, a, b);
    assert Coordinate(Directional, a) == (0, 1) && cs == [[Down, Right], [Right, Down]] by {
      assert Coordinate(Directional, a) == (0, 1) && Coordinate(Directional, b) == (1, 2);
      ArrangementsOneOne(Down, Right);
    }
    UpRightLevelOneCandidates(cs);
    ExpandByBest(Directional, 1, a, b);
  }

  lemma UpDownLevelOneCandidate1(c: seq<DirectionButton>)
    requires c == [Down]
    ensures SafeWalk(Directional, c, (0, 1)) && MirrorCost(1, c) == 6
  {
    LevelOneCostOfOne(Down);
  }

  lemma UpDownLevelOneCandidates(cs: seq<seq<DirectionButton>>)
    requires cs == [[Down]]
    ensures Best(Directional, 1, (0, 1), cs, 1) == Some(6)
  {
    UpDownLevelOneCandidate1(cs[0]);
    BestOfSafe(Directional, 1, (0, 1), cs, 1, None, 6);
  }

  lemma UpDownLevelOneExpand(a: KeyPadButton, b: KeyPadButton)
    requires a == Arrow(Up) && b == Arrow(Down)
    ensures OnPad(Directional, a) && OnPad(Directional, b) && ExpandCost(Directional, 1, a, b) == 6
    decreases 1, 5, 0
  {
    var cs := Candidates(Directional, a, b);
    assert Coordinate(Directional, a) == (0, 1) && cs == [[Down]] by {
      assert Coordinate(Directional, a) == (0, 1) && Coordinate(Directional, b) == (1, 1);
      ArrangementsOfRuns(Down, Left, 1);
      assert Rep(Down, 1) == [Down];
    }
    UpDownLevelOneCandidates(cs);
    ExpandByBest(Directional, 1, a, b);
  }

  lemma UpLeftLevelOneCandidate1(c: seq<DirectionButton>)
    requires c == [Down, Left]
    ensures SafeWalk(Directional, c, (0, 1)) && MirrorCost(1, c) == 9
  {
    assert SafeWalk(Directional, c, (0, 1)) by {
      assert [Down, Left][1..] == [Left];
    }
    LevelOneCostOfTwo(Down, Left);
  }

  lemma UpLeftLevelOneCandidate2(c: seq<DirectionButton>)
    requires c == [Left, Down]
    ensures !SafeWalk(Directional, c, (0, 1))
  {
    assert [Left, Down][1..] == [Down];
    assert !Contains(Directional, (0, 0));
  }

  lemma UpLeftLevelOneCandidates(cs: seq<seq<DirectionButton>>)
    requires cs == [[Down, Left], [Left, Down]]
    ensures Best(Directional, 1, (0, 1), cs, 2) == Some(9)
  {
    UpLeftLevelOneCandidate1(cs[0]);
    BestOfSafe(Directional, 1, (0, 1), cs, 1, None, 9);
    UpLeftLevelOneCandidate2(cs[1]);
    UnsafeCandidateSkipped(Directional, 1, (0, 1), cs, 2);
  }

  lemma UpLeftLevelOneExpand(a: KeyPadButton, b: KeyPadButton)
    requires a == Arrow(Up) && b == Arrow(Left)
    ensures OnPad(Directional, a) && OnPad(Directional, b) && ExpandCost(Directional, 1, a, b) == 9
    decreases 1, 5, 0
  {
    var cs := Candidates(Directional, a, b);
    assert Coordinate(Directional, a) == (0, 1) && cs == [[Down, Left], [Left, Down]] by {
      assert Coordinate(Directional, a) == (0, 1) && Coordinate(Directional, b) == (1, 0);
      ArrangementsOneOne(Down, Left);
    }
    UpLeftLevelOneCandidates(cs);
    ExpandByBest(Directional, 1, a, b);
  }

  lemma UpEnterLevelOneCandidate1(c: seq<DirectionButton>)
    requires c == [Right]
    ensures SafeWalk(Directional, c, (0, 1)) && MirrorCost(1, c) == 4
  {
    LevelOneCostOfOne(Right);
  }

  lemma UpEnterLevelOneCandidates(cs: seq<seq<DirectionButton>>)
    requires cs == [[Right]]
    ensures Best(Directional, 1, (0, 1), cs, 1) == Some(4)
  {
    UpEnterLevelOneCandidate1(cs[0]);
    BestOfSafe(Directional, 1, (0, 1), cs, 1, None, 4);
  }

  lemma UpEnterLevelOneExpand(a: KeyPadButton, b: KeyPadButton)
    requires a == Arrow(Up) && b == Enter
    ensures OnPad(Directional, a) && OnPad(Directional, b) && ExpandCost(Directional, 1, a, b) == 4
    decreases 1, 5, 0
  {
    var cs := Candidates(Directional, a, b);
    assert Coordinate(Directional, a) == (0, 1) && cs == [[Right]] by {
      assert Coordinate(Directional, a) == (0, 1) && Coordinate(Directional, b) == (0, 2);
      ArrangementsOfRuns(Up, Right, 1);
      assert Rep(Right, 1) == [Right];
    }
    UpEnterLevelOneCandidates(cs);
    ExpandByBest(Directional, 1, a, b);
  }

  lemma RightUpLevelOneCandidate1(c: seq<DirectionButton>)
    requires c == [Up, Left]
    ensures SafeWalk(Directional, c, (1, 2)) && MirrorCost(1, c) == 9
  {
    assert SafeWalk(Directional, c, (1, 2)) by {
      assert [Up, Left][1..] == [Left];
    }
    LevelOneCostOfTwo(Up, Left);
  }

  lemma RightUpLevelOneCandidate2(c: seq<DirectionButton>)
    requires c == [Left, Up]
    ensures SafeWalk(Directional, c, (1, 2)) && MirrorCost(1, c) == 9
  {
    assert SafeWalk(Directional, c, (1, 2)) by {
      assert [Left, Up][1..] == [Up];
    }
    LevelOneCostOfTwo(Left, Up);
  }

  lemma RightUpLevelOneCandidates(cs: seq<seq<DirectionButton>>)
    requires cs == [[Up, Left], [Left, Up]]
    ensures Best(Directional, 1, (1, 2), cs, 2) == Some(9)
  {
    RightUpLevelOneCandidate1(cs[0]);
    BestOfSafe(Directional, 1, (1, 2), cs, 1, None, 9);
    RightUpLevelOneCandidate2(cs[1]);
    BestOfSafe(Directional, 1, (1, 2), cs, 2, Some(9), 9);
  }

  lemma RightUpLevelOneExpand(a: KeyPadButton, b: KeyPadButton)
    requires a == Arrow(Right) && b == Arrow(Up)
    ensures OnPad(Directional, a) && OnPad(Directional, b) && ExpandCost(Directional, 1, a, b) == 9
    decreases 1, 5, 0
  {
    var cs := Candidates(Directional, a, b);
    assert Coordinate(Directional, a) == (1, 2) && cs == [[Up, Left], [Left, Up]] by {
      assert Coordinate(Directional, a) == (1, 2) && Coordinate(Directional, b) == (0, 1);
      ArrangementsOneOne(Up, Left);
    }
    RightUpLevelOneCandidates(cs);
    ExpandByBest(Directional, 1, a, b);
  }

  lemma RightRightLevelOneCandidate1(c: seq<DirectionButton>)
    requires c == []
    ensures SafeWalk(Directional, c, (1, 2)) && MirrorCost(1, c) == 1
  {
    LevelOneCostOfZero();
  }

  lemma RightRightLevelOneCandidates(cs: seq<seq<DirectionButton>>)
    requires cs == [[]]
    ensures Best(Directional, 1, (1, 2), cs, 1) == Some(1)
  {
    RightRightLevelOneCandidate1(cs[0]);
    BestOfSafe(Directional, 1, (1, 2), cs, 1, None, 1);
  }

  lemma RightRightLevelOneExpand(a: KeyPadButton, b: KeyPadButton)
    requires a == Arrow(Right) && b == Arrow(Right)
    ensures OnPad(Directional, a) && OnPad(Directional, b) && ExpandCost(Directional, 1, a, b) == 1
    decreases 1, 5, 0
  {
    var cs := Candidates(Directional, a, b);
    assert Coordinate(Directional, a) == (1, 2) && cs == [[]] by {
      assert Coordinate(Directional, a) == (1, 2) && Coordinate(Directional, b) == (1, 2);
      ArrangementsOfRuns(Up, Left, 0);
      assert Rep(Left, 0) == [];
    }
    RightRightLevelOneCandidates(cs);
    ExpandByBest(Directional, 1, a, b);
  }

  lemma RightDownLevelOneCandidate1(c: seq<DirectionButton>)
    requires c == [Left]
    ensures SafeWalk(Directional, c, (1, 2)) && MirrorCost(1, c) == 8
  {
    LevelOneCostOfOne(Left);
  }

  lemma RightDownLevelOneCandidates(cs: seq<seq<DirectionButton>>)
    requires cs == [[Left]]
    ensures Best(Directional, 1, (1, 2), cs, 1) == Some(8)
  {
    RightDownLevelOneCandidate1(cs[0]);
    BestOfSafe(Directional, 1, (1, 2), cs, 1, None, 8);
  }

  lemma RightDownLevelOneExpand(a: KeyPadButton, b: KeyPadButton)
    requires a == Arrow(Right) && b == Arrow(Down)
    ensures OnPad(Directional, a) && OnPad(Directional, b) && ExpandCost(Directional, 1, a, b) == 8
    decreases 1, 5, 0
  {
    var cs := Candidates(Directional, a, b);
    assert Coordinate(Directional, a) == (1, 2) && cs == [[Left]] by {
      assert Coordinate(Directional, a) == (1, 2) && Coordinate(Directional, b) == (1, 1);
      ArrangementsOfRuns(Up, Left, 1);
      assert Rep(Left, 1) == [Left];
    }
    RightDownLevelOneCandidates(cs);
    ExpandByBest(Directional, 1, a, b);
  }

  lemma RightLeftLevelOneCandidate1(c: seq<DirectionButton>)
    requires c == [Left, Left]
    ensures SafeWalk(Directional, c, (1, 2)) && MirrorCost(1, c) == 9
  {
    assert SafeWalk(Directional, c, (1, 2)) by {
      assert [Left, Left][1..] == [Left];
    }
    LevelOneCostOfTwo(Left, Left);
  }

  lemma RightLeftLevelOneCandidates(cs: seq<seq<DirectionButton>>)
    requires cs == [[Left, Left]]
    ensures Best(Directional, 1, (1, 2), cs, 1) == Some(9)
  {
    RightLeftLevelOneCandidate1(cs[0]);
    BestOfSafe(Directional, 1, (1, 2), cs, 1, None, 9);
  }

  lemma RightLeftLevelOneExpand(a: KeyPadButton, b: KeyPadButton)
    requires a == Arrow(Right) && b == Arrow(Left)
    ensures OnPad(Directional, a) && OnPad(Directional, b) && ExpandCost(Directional, 1, a, b) == 9
    decreases 1, 5, 0
  {
    var cs := Candidates(Directional, a, b);
    assert Coordinate(Directional, a) == (1, 2) && cs == [[Left, Left]] by {
      assert Coordinate(Directional, a) == (1, 2) && Coordinate(Directional, b) == (1, 0);
      ArrangementsOfRuns(Up, Left, 2);
      assert Rep(Left, 2) == [Left, Left];
    }
    RightLeftLevelOneCandidates(cs);
    ExpandByBest(Directional, 1, a, b);
  }

  lemma RightEnterLevelOneCandidate1(c: seq<DirectionButton>)
    requires c == [Up]
    ensures SafeWalk(Directional, c, (1, 2)) && MirrorCost(1, c) == 4
  {
    LevelOneCostOfOne(Up);
  }

  lemma RightEnterLevelOneCandidates(cs: seq<seq<DirectionButton>>)
    requires cs == [[Up]]
    ensures Best(Directional, 1, (1, 2), cs, 1) == Some(4)
  {
    RightEnterLevelOneCandidate1(cs[0]);
    BestOfSafe(Directional, 1, (1, 2), cs, 1, None, 4);
  }

  lemma RightEnterLevelOneExpand(a: KeyPadButton, b: KeyPadButton)
    requires a == Arrow(Right) && b == Enter
    ensures OnPad(Directional, a) && OnPad(Directional, b) && ExpandCost(Directional, 1, a, b) == 4
    decreases 1, 5, 0
  {
    var cs := Candidates(Directional, a, b);
    assert Coordinate(Directional, a) == (1, 2) && cs == [[Up]] by {
      assert Coordinate(Directional, a) == (1, 2) && Coordinate(Directional, b) == (0, 2);
      ArrangementsOfRuns(Up, Left, 1);
      assert Rep(Up, 1) == [Up];
    }
    RightEnterLevelOneCandidates(cs);
    ExpandByBest(Directional, 1, a, b);
  }

  lemma DownUpLevelOneCandidate1(c: seq<DirectionButton>)
    requires c == [Up]
    ensures SafeWalk(Directional, c, (1, 1)) && MirrorCost(1, c) == 4
  {
    LevelOneCostOfOne(Up);
  }

  lemma DownUpLevelOneCandidates(cs: seq<seq<DirectionButton>>)
    requires cs == [[Up]]
    ensures Best(Directional, 1, (1, 1), cs, 1) == Some(4)
  {
    DownUpLevelOneCandidate1(cs[0]);
    BestOfSafe(Directional, 1, (1, 1), cs, 1, None, 4);
  }

  lemma DownUpLevelOneExpand(a: KeyPadButton, b: KeyPadButton)
    requires a == Arrow(Down) && b == Arrow(Up)
    ensures OnPad(Directional, a) && OnPad(Directional, b) && ExpandCost(Directional, 1, a, b) == 4
    decreases 1, 5, 0
  {
    var cs := Candidates(Directional, a, b);
    assert Coordinate(Directional, a) == (1, 1) && cs == [[Up]] by {
      assert Coordinate(Directional, a) == (1, 1) && Coordinate(Directional, b) == (0, 1);
      ArrangementsOfRuns(Up, Left, 1);
      assert Rep(Up, 1) == [Up];
    }
    DownUpLevelOneCandidates(cs);
    ExpandByBest(Directional, 1, a, b);
  }

  lemma DownRightLevelOneCandidate1(c: seq<DirectionButton>)
    requires c == [Right]
    ensures SafeWalk(Directional, c, (1, 1)) && MirrorCost(1, c) == 4
  {
    LevelOneCostOfOne(Right);
  }

  lemma DownRightLevelOneCandidates(cs: seq<seq<DirectionButton>>)
    requires cs == [[Right]]
    ensures Best(Directional, 1, (1, 1), cs, 1) == Some(4)
  {
    DownRightLevelOneCandidate1(cs[0]);
    BestOfSafe(Directional, 1, (1, 1), cs, 1, None, 4);
  }

  lemma DownRightLevelOneExpand(a: KeyPadButton, b: KeyPadButton)
    requires a == Arrow(Down) && b == Arrow(Right)
    ensures OnPad(Directional, a) && OnPad(Directional, b) && ExpandCost(Directional, 1, a, b) == 4
    decreases 1, 5, 0
  {
    var cs := Candidates(Directional, a, b);
    assert Coordinate(Directional, a) == (1, 1) && cs == [[Right]] by {
      assert Coordinate(Directional, a) == (1, 1) && Coordinate(Directional, b) == (1, 2);
      ArrangementsOfRuns(Up, Right, 1);
      assert Rep(Right, 1) == [Right];
    }
    DownRightLevelOneCandidates(cs);
    ExpandByBest(Directional, 1, a, b);
  }

  lemma DownDownLevelOneCandidate1(c: seq<DirectionButton>)
    requires c == []
    ensures SafeWalk(Directional, c, (1, 1)) && MirrorCost(1, c) == 1
  {
    LevelOneCostOfZero();
  }

  lemma DownDownLevelOneCandidates(cs: seq<seq<DirectionButton>>)
    requires cs == [[]]
    ensures Best(Directional, 1, (1, 1), cs, 1) == Some(1)
  {
    DownDownLevelOneCandidate1(cs[0]);
    BestOfSafe(Directional, 1, (1, 1), cs, 1, None, 1);
  }

  lemma DownDownLevelOneExpand(a: KeyPadButton, b: KeyPadButton)
    requires a == Arrow(Down) && b == Arrow(Down)
    ensures OnPad(Directional, a) && OnPad(Directional, b) && ExpandCost(Directional, 1, a, b) == 1
    decreases 1, 5, 0
  {
    var cs := Candidates(Directional, a, b);
    assert Coordinate(Directional, a) == (1, 1) && cs == [[]] by {
      assert Coordinate(Directional, a) == (1, 1) && Coordinate(Directional, b) == (1, 1);
      ArrangementsOfRuns(Up, Left, 0);
      assert Rep(Left, 0) == [];
    }
    DownDownLevelOneCandidates(cs);
    ExpandByBest(Directional, 1, a, b);
  }

  lemma DownLeftLevelOneCandidate1(c: seq<DirectionButton>)
    requires c == [Left]
    ensures SafeWalk(Directional, c, (1, 1)) && MirrorCost(1, c) == 8
  {
    LevelOneCostOfOne(Left);
  }

  lemma DownLeftLevelOneCandidates(cs: seq<seq<DirectionButton>>)
    requires cs == [[Left]]
    ensures Best(Directional, 1, (1, 1), cs, 1) == Some(8)
  {
    DownLeftLevelOneCandidate1(cs[0]);
    BestOfSafe(Directional, 1, (1, 1), cs, 1, None, 8);
  }

  lemma DownLeftLevelOneExpand(a: KeyPadButton, b: KeyPadButton)
    requires a == Arrow(Down) && b == Arrow(Left)
    ensures OnPad(Directional, a) && OnPad(Directional, b) && ExpandCost(Directional, 1, a, b) == 8
    decreases 1, 5, 0
  {
    var cs := Candidates(Directional, a, b);
    assert Coordinate(Directional, a) == (1, 1) && cs == [[Left]] by {
      assert Coordinate(Directional, a) == (1, 1) && Coordinate(Directional, b) == (1, 0);
      ArrangementsOfRuns(Up, Left, 1);
      assert Rep(Left, 1) == [Left];
    }
    DownLeftLevelOneCandidates(cs);
    ExpandByBest(Directional, 1, a, b);
  }

  lemma DownEnterLevelOneCandidate1(c: seq<DirectionButton>)
    requires c == [Up, Right]
    ensures SafeWalk(Directional, c, (1, 1)) && MirrorCost(1, c) == 7
  {
    assert SafeWalk(Directional, c, (1, 1)) by {
      assert [Up, Right][1..] == [Right];
    }
    LevelOneCostOfTwo(Up, Right);
  }

  lemma DownEnterLevelOneCandidate2(c: seq<DirectionButton>)
    requires c == [Right, Up]
    ensures SafeWalk(Directional, c, (1, 1)) && MirrorCost(1, c) == 7
  {
    assert SafeWalk(Directional, c, (1, 1)) by {
      assert [Right, Up][1..] == [Up];
    }
    LevelOneCostOfTwo(Right, Up);
  }

  lemma DownEnterLevelOneCandidates(cs: seq<seq<DirectionButton>>)
    requires cs == [[Up, Right], [Right, Up]]
    ensures Best(Directional, 1, (1, 1), cs, 2) == Some(7)
  {
    DownEnterLevelOneCandidate1(cs[0]);
    BestOfSafe(Directional, 1, (1, 1), cs, 1, None, 7);
    DownEnterLevelOneCandidate2(cs[1]);
    BestOfSafe(Directional, 1, (1, 1), cs, 2, Some(7), 7);
  }

  lemma DownEnterLevelOneExpand(a: KeyPadButton, b: KeyPadButton)
    requires a == Arrow(Down) && b == Enter
    ensures OnPad(Directional, a) && OnPad(Directional, b) && ExpandCost(Directional, 1, a, b) == 7
    decreases 1, 5, 0
  {
    var cs := Candidates(Directional, a, b);
    assert Coordinate(Directional, a) == (1, 1) && cs == [[Up, Right], [Right, Up]] by {
      assert Coordinate(Directional, a) == (1, 1) && Coordinate(Directional, b) == (0, 2);
      ArrangementsOneOne(Up, Right);
    }
    DownEnterLevelOneCandidates(cs);
    ExpandByBest(Directional, 1, a, b);
  }

  lemma LeftUpLevelOneCandidate1(c: seq<DirectionButton>)
    requires c == [Up, Right]
    ensures !SafeWalk(Directional, c, (1, 0))
  {
    assert [Up, Right][1..] == [Right];
    assert !Contains(Directional, (0, 0));
  }

  lemma LeftUpLevelOneCandidate2(c: seq<DirectionButton>)
    requires c == [Right, Up]
    ensures SafeWalk(Directional, c, (1, 0)) && MirrorCost(1, c) == 7
  {
    assert SafeWalk(Directional, c, (1, 0)) by {
      assert [Right, Up][1..] == [Up];
    }
    LevelOneCostOfTwo(Right, Up);
  }

  lemma LeftUpLevelOneCandidates(cs: seq<seq<DirectionButton>>)
    requires cs == [[Up, Right], [Right, Up]]
    ensures Best(Directional, 1, (1, 0), cs, 2) == Some(7)
  {
    LeftUpLevelOneCandidate1(cs[0]);
    UnsafeCandidateSkipped(Directional, 1, (1, 0), cs, 1);
    LeftUpLevelOneCandidate2(cs[1]);
    BestOfSafe(Directional, 1, (1, 0), cs, 2, None, 7);
  }

  lemma LeftUpLevelOneExpand(a: KeyPadButton, b: KeyPadButton)
    requires a == Arrow(Left) && b == Arrow(Up)
    ensures OnPad(Directional, a) && OnPad(Directional, b) && ExpandCost(Directional, 1, a, b) == 7
    decreases 1, 5, 0
  {
    var cs := Candidates(Directional, a, b);
    assert Coordinate(Directional, a) == (1, 0) && cs == [[Up, Right], [Right, Up]] by {
      assert Coordinate(Directional, a) == (1, 0) && Coordinate(Directional, b) == (0, 1);
      ArrangementsOneOne(Up, Right);
    }
    LeftUpLevelOneCandidates(cs);
    ExpandByBest(Directional, 1, a, b);
  }

  lemma LeftRightLevelOneCandidate1(c: seq<DirectionButton>)
    requires c == [Right, Right]
    ensures SafeWalk(Directional, c, (1, 0)) && MirrorCost(1, c) == 5
  {
    assert SafeWalk(Directional, c, (1, 0)) by {
      assert [Right, Right][1..] == [Right];
    }
    LevelOneCostOfTwo(Right, Right);
  }

  lemma LeftRightLevelOneCandidates(cs: seq<seq<DirectionButton>>)
    requires cs == [[Right, Right]]
    ensures Best(Directional, 1, (1, 0), cs, 1) == Some(5)
  {
    LeftRightLevelOneCandidate1(cs[0]);
    BestOfSafe(Directional, 1, (1, 0), cs, 1, None, 5);
  }

  lemma LeftRightLevelOneExpand(a: KeyPadButton, b: KeyPadButton)
    requires a == Arrow(Left) && b == Arrow(Right)
    ensures OnPad(Directional, a) && OnPad(Directional, b) && ExpandCost(Directional, 1, a, b) == 5
    decreases 1, 5, 0
  {
    var cs := Candidates(Directional, a, b);
    assert Coordinate(Directional, a) == (1, 0) && cs == [[Right, Right]] by {
      assert Coordinate(Directional, a) == (1, 0) && Coordinate(Directional, b) == (1, 2);
      ArrangementsOfRuns(Up, Right, 2);
      assert Rep(Right, 2) == [Right, Right];
    }
    LeftRightLevelOneCandidates(cs);
    ExpandByBest(Directional, 1, a, b);
  }

  lemma LeftDownLevelOneCandidate1(c: seq<DirectionButton>)
    requires c == [Right]
    ensures SafeWalk(Directional, c, (1, 0)) && MirrorCost(1, c) == 4
  {
    LevelOneCostOfOne(Right);
  }

  lemma LeftDownLevelOneCandidates(cs: seq<seq<DirectionButton>>)
    requires cs == [[Right]]
    ensures Best(Directional, 1, (1, 0), cs, 1) == Some(4)
  {
    LeftDownLevelOneCandidate1(cs[0]);
    BestOfSafe(Directional, 1, (1, 0), cs, 1, None, 4);
  }

  lemma LeftDownLevelOneExpand(a: KeyPadButton, b: KeyPadButton)
    requires a == Arrow(Left) && b == Arrow(Down)
    ensures OnPad(Directional, a) && OnPad(Directional, b) && ExpandCost(Directional, 1, a, b) == 4
    decreases 1, 5, 0
  {
    var cs := Candidates(Directional, a, b);
    assert Coordinate(Directional, a) == (1, 0) && cs == [[Right]] by {
      assert Coordinate(Directional, a) == (1, 0) && Coordinate(Directional, b) == (1, 1);
      ArrangementsOfRuns(Up, Right, 1);
      assert Rep(Right, 1) == [Right];
    }
    LeftDownLevelOneCandidates(cs);
    ExpandByBest(Directional, 1, a, b);
  }

  lemma LeftLeftLevelOneCandidate1(c: seq<DirectionButton>)
    requires c == []
    ensures SafeWalk(Directional, c, (1, 0)) && MirrorCost(1, c) == 1
  {
    LevelOneCostOfZero();
  }

  lemma LeftLeftLevelOneCandidates(cs: seq<seq<DirectionButton>>)
    requires cs == [[]]
    ensures Best(Directional, 1, (1, 0), cs, 1) == Some(1)
  {
    LeftLeftLevelOneCandidate1(cs[0]);
    BestOfSafe(Directional, 1, (1, 0), cs, 1, None, 1);
  }

  lemma LeftLeftLevelOneExpand(a: KeyPadButton, b: KeyPadButton)
    requires a == Arrow(Left) && b == Arrow(Left)
    ensures OnPad(Directional, a) && OnPad(Directional, b) && ExpandCost(Directional, 1, a, b) == 1
    decreases 1, 5, 0
  {
    var cs := Candidates(Directional, a, b);
    assert Coordinate(Directional, a) == (1, 0) && cs == [[]] by {
      assert Coordinate(Directional, a) == (1, 0) && Coordinate(Directional, b) == (1, 0);
      ArrangementsOfRuns(Up, Left, 0);
      assert Rep(Left, 0) == [];
    }
    LeftLeftLevelOneCandidates(cs);
    ExpandByBest(Directional, 1, a, b);
  }

  lemma LeftEnterLevelOneCandidate1(c: seq<DirectionButton>)
    requires c == [Up, Right, Right]
    ensures !SafeWalk(Directional, c, (1, 0))
  {
    assert [Up, Right, Right][1..] == [Right, Right] && [Right, Right][1..] == [Right];
    assert !Contains(Directional, (0, 0));
  }

  lemma LeftEnterLevelOneCandidate2(c: seq<DirectionButton>)
    requires c == [Right, Up, Right]
    ensures SafeWalk(Directional, c, (1, 0)) && MirrorCost(1, c) == 10
  {
    assert SafeWalk(Directional, c, (1, 0)) by {
      assert [Right, Up, Right][1..] == [Up, Right] && [Up, Right][1..] == [Right];
    }
    LevelOneCostOfThree(Right, Up, Right);
  }

  lemma LeftEnterLevelOneCandidate3(c: seq<DirectionButton>)
    requires c == [Right, Right, Up]
    ensures SafeWalk(Directional, c, (1, 0)) && MirrorCost(1, c) == 8
  {
    assert SafeWalk(Directional, c, (1, 0)) by {
      assert [Right, Right, Up][1..] == [Right, Up] && [Right, Up][1..] == [Up];
    }
    LevelOneCostOfThree(Right, Right, Up);
  }

  lemma LeftEnterLevelOneCandidates(cs: seq<seq<DirectionButton>>)
    requires cs == [[Up, Right, Right], [Right, Up, Right], [Right, Right, Up]]
    ensures Best(Directional, 1, (1, 0), cs, 3) == Some(8)
  {
    LeftEnterLevelOneCandidate1(cs[0]);
    UnsafeCandidateSkipped(Directional, 1, (1, 0), cs, 1);
    LeftEnterLevelOneCandidate2(cs[1]);
    BestOfSafe(Directional, 1, (1, 0), cs, 2, None, 10);
    LeftEnterLevelOneCandidate3(cs[2]);
    BestOfSafe(Directional, 1, (1, 0), cs, 3, Some(10), 8);
  }

  lemma LeftEnterLevelOneExpand(a: KeyPadButton, b: KeyPadButton)
    requires a == Arrow(Left) && b == Enter
    ensures OnPad(Directional, a) && OnPad(Directional, b) && ExpandCost(Directional, 1, a, b) == 8
    decreases 1, 5, 0
  {
    var cs := Candidates(Directional, a, b);
    assert Coordinate(Directional, a) == (1, 0) && cs == [[Up, Right, Right], [Right, Up, Right], [Right, Right, Up]] by {
      assert Coordinate(Directional, a) == (1, 0) && Coordinate(Directional, b) == (0, 2);
      ArrangementsOneTwo(Up, Right);
    }
    LeftEnterLevelOneCandidates(cs);
    ExpandByBest(Directional, 1, a, b);
  }

  lemma EnterUpLevelOneCandidate1(c: seq<DirectionButton>)
    requires c == [Left]
    ensures SafeWalk(Directional, c, (0, 2)) && MirrorCost(1, c) == 8
  {
    LevelOneCostOfOne(Left);
  }

  lemma EnterUpLevelOneCandidates(cs: seq<seq<DirectionButton>>)
    requires cs == [[Left]]
    ensures Best(Directional, 1, (0, 2), cs, 1) == Some(8)
  {
    EnterUpLevelOneCandidate1(cs[0]);
    BestOfSafe(Directional, 1, (0, 2), cs, 1, None, 8);
  }

  lemma EnterUpLevelOneExpand(a: KeyPadButton, b: KeyPadButton)
    requires a == Enter && b == Arrow(Up)
    ensures OnPad(Directional, a) && OnPad(Directional, b) && ExpandCost(Directional, 1, a, b) == 8
    decreases 1, 5, 0
  {
    var cs := Candidates(Directional, a, b);
    assert Coordinate(Directional, a) == (0, 2) && cs == [[Left]] by {
      assert Coordinate(Directional, a) == (0, 2) && Coordinate(Directional, b) == (0, 1);
      ArrangementsOfRuns(Up, Left, 1);
      assert Rep(Left, 1) == [Left];
    }
    EnterUpLevelOneCandidates(cs);
    ExpandByBest(Directional, 1, a, b);
  }

  lemma EnterRightLevelOneCandidate1(c: seq<DirectionButton>)
    requires c == [Down]
    ensures SafeWalk(Directional, c, (0, 2)) && MirrorCost(1, c) == 6
  {
    LevelOneCostOfOne(Down);
  }

  lemma EnterRightLevelOneCandidates(cs: seq<seq<DirectionButton>>)
    requires cs == [[Down]]
    ensures Best(Directional, 1, (0, 2), cs, 1) == Some(6)
  {
    EnterRightLevelOneCandidate1(cs[0]);
    BestOfSafe(Directional, 1, (0, 2), cs, 1, None, 6);
  }

  lemma EnterRightLevelOneExpand(a: KeyPadButton, b: KeyPadButton)
    requires a == Enter && b == Arrow(Right)
    ensures OnPad(Directional, a) && OnPad(Directional, b) && ExpandCost(Directional, 1, a, b) == 6
    decreases 1, 5, 0
  {
    var cs := Candidates(Directional, a, b);
    assert Coordinate(Directional, a) == (0, 2) && cs == [[Down]] by {
      assert Coordinate(Directional, a) == (0, 2) && Coordinate(Directional, b) == (1, 2);
      ArrangementsOfRuns(Down, Left, 1);
      assert Rep(Down, 1) == [Down];
    }
    EnterRightLevelOneCandidates(cs);
    ExpandByBest(Directional, 1, a, b);
  }

  lemma EnterDownLevelOneCandidate1(c: seq<DirectionButton>)
    requires c == [Down, Left]
    ensures SafeWalk(Directional, c, (0, 2)) && MirrorCost(1, c) == 9
  {
    assert SafeWalk(Directional, c, (0, 2)) by {
      assert [Down, Left][1..] == [Left];
    }
    LevelOneCostOfTwo(Down, Left);
  }

  lemma EnterDownLevelOneCandidate2(c: seq<DirectionButton>)
    requires c == [Left, Down]
    ensures SafeWalk(Directional, c, (0, 2)) && MirrorCost(1, c) == 9
  {
    assert SafeWalk(Directional, c, (0, 2)) by {
      assert [Left, Down][1..] == [Down];
    }
    LevelOneCostOfTwo(Left, Down);
  }

  lemma EnterDownLevelOneCandidates(cs: seq<seq<DirectionButton>>)
    requires cs == [[Down, Left], [Left, Down]]
    ensures Best(Directional, 1, (0, 2), cs, 2) == Some(9)
  {
    EnterDownLevelOneCandidate1(cs[0]);
    BestOfSafe(Directional, 1, (0, 2), cs, 1, None, 9);
    EnterDownLevelOneCandidate2(cs[1]);
    BestOfSafe(Directional, 1, (0, 2), cs, 2, Some(9), 9);
  }

  lemma EnterDownLevelOneExpand(a: KeyPadButton, b: KeyPadButton)
    requires a == Enter && b == Arrow(Down)
    ensures OnPad(Directional, a) && OnPad(Directional, b) && ExpandCost(Directional, 1, a, b) == 9
    decreases 1, 5, 0
  {
    var cs := Candidates(Directional, a, b);
    assert Coordinate(Directional, a) == (0, 2) && cs == [[Down, Left], [Left, Down]] by {
      assert Coordinate(Directional, a) == (0, 2) && Coordinate(Directional, b) == (1, 1);
      ArrangementsOneOne(Down, Left);
    }
    EnterDownLevelOneCandidates(cs);
    ExpandByBest(Directional, 1, a, b);
  }

  lemma EnterLeftLevelOneCandidate1(c: seq<DirectionButton>)
    requires c == [Down, Left, Left]
    ensures SafeWalk(Directional, c, (0, 2)) && MirrorCost(1, c) == 10
  {
    assert SafeWalk(Directional, c, (0, 2)) by {
      assert [Down, Left, Left][1..] == [Left, Left] && [Left, Left][1..] == [Left];
    }
    LevelOneCostOfThree(Down, Left, Left);
  }

  lemma EnterLeftLevelOneCandidate2(c: seq<DirectionButton>)
    requires c == [Left, Down, Left]
    ensures SafeWalk(Directional, c, (0, 2)) && MirrorCost(1, c) == 12
  {
    assert SafeWalk(Directional, c, (0, 2)) by {
      assert [Left, Down, Left][1..] == [Down, Left] && [Down, Left][1..] == [Left];
    }
    LevelOneCostOfThree(Left, Down, Left);
  }

  lemma EnterLeftLevelOneCandidate3(c: seq<DirectionButton>)
    requires c == [Left, Left, Down]
    ensures !SafeWalk(Directional, c, (0, 2))
  {
    assert [Left, Left, Down][1..] == [Left, Down] && [Left, Down][1..] == [Down];
    assert !Contains(Directional, (0, 0));
  }

  lemma EnterLeftLevelOneCandidates(cs: seq<seq<DirectionButton>>)
    requires cs == [[Down, Left, Left], [Left, Down, Left], [Left, Left, Down]]
    ensures Best(Directional, 1, (0, 2), cs, 3) == Some(10)
  {
    EnterLeftLevelOneCandidate1(cs[0]);
    BestOfSafe(Directional, 1, (0, 2), cs, 1, None, 10);
    EnterLeftLevelOneCandidate2(cs[1]);
    BestOfSafe(Directional, 1, (0, 2), cs, 2, Some(10), 12);
    EnterLeftLevelOneCandidate3(cs[2]);
    UnsafeCandidateSkipped(Directional, 1, (0, 2), cs, 3);
  }

  lemma EnterLeftLevelOneExpand(a: KeyPadButton, b: KeyPadButton)
    requires a == Enter && b == Arrow(Left)
    ensures OnPad(Directional, a) && OnPad(Directional, b) && ExpandCost(Directional, 1, a, b) == 10
    decreases 1, 5, 0
  {
    var cs := Candidates(Directional, a, b);
    assert Coordinate(Directional, a) == (0, 2) && cs == [[Down, Left, Left], [Left, Down, Left], [Left, Left, Down]] by {
      assert Coordinate(Directional, a) == (0, 2) && Coordinate(Directional, b) == (1, 0);
      ArrangementsOneTwo(Down, Left);
    }
    EnterLeftLevelOneCandidates(cs);
    ExpandByBest(Directional, 1, a, b);
  }

  lemma EnterEnterLevelOneCandidate1(c: seq<DirectionButton>)
    requires c == []
    ensures SafeWalk(Directional, c, (0, 2)) && MirrorCost(1, c) == 1
  {
    LevelOneCostOfZero();
  }

  lemma EnterEnterLevelOneCandidates(cs: seq<seq<DirectionButton>>)
    requires cs == [[]]
    ensures Best(Directional, 1, (0, 2), cs, 1) == Some(1)
  {
    EnterEnterLevelOneCandidate1(cs[0]);
    BestOfSafe(Directional, 1, (0, 2), cs, 1, None, 1);
  }

  lemma EnterEnterLevelOneExpand(a: KeyPadButton, b: KeyPadButton)
    requires a == Enter && b == Enter
    ensures OnPad(Directional, a) && OnPad(Directional, b) && ExpandCost(Directional, 1, a, b) == 1
    decreases 1, 5, 0
  {
    var cs := Candidates(Directional, a, b);
    assert Coordinate(Directional, a) == (0, 2) && cs == [[]] by {
      assert Coordinate(Directional, a) == (0, 2) && Coordinate(Directional, b) == (0, 2);
      ArrangementsOfRuns(Up, Left, 0);
      assert Rep(Left, 0) == [];
    }
    EnterEnterLevelOneCandidates(cs);
    ExpandByBest(Directional, 1, a, b);
  }

  /** Every transition on a directional keypad with one directional keypad
      above it costs what the table says. */
  lemma LevelOneTable(a: KeyPadButton, b: KeyPadButton)
    requires OnPad(Directional, a) && OnPad(Directional, b)
    ensures ExpandCost(Directional, 1, a, b) == DirectionalTable(a, b)
    decreases 1, 5, 1
  {
    match (a, b)
    case (Arrow(Up), Arrow(Up)) => UpUpLevelOneExpand(a, b);
    case (Arrow(Up), Arrow(Right)) => UpRightLevelOneExpand(a, b);
    case (Arrow(Up), Arrow(Down)) => UpDownLevelOneExpand(a, b);
    case (Arrow(Up), Arrow(Left)) => UpLeftLevelOneExpand(a, b);
    case (Arrow(Up), Enter) => UpEnterLevelOneExpand(a, b);
    case (Arrow(Right), Arrow(Up)) => RightUpLevelOneExpand(a, b);
    case (Arrow(Right), Arrow(Right)) => RightRightLevelOneExpand(a, b);
    case (Arrow(Right), Arrow(Down)) => RightDownLevelOneExpand(a, b);
    case (Arrow(Right), Arrow(Left)) => RightLeftLevelOneExpand(a, b);
    case (Arrow(Right), Enter) => RightEnterLevelOneExpand(a, b);
    case (Arrow(Down), Arrow(Up)) => DownUpLevelOneExpand(a, b);
    case (Arrow(Down), Arrow(Right)) => DownRightLevelOneExpand(a, b);
    case (Arrow(Down), Arrow(Down)) => DownDownLevelOneExpand(a, b);
    case (Arrow(Down), Arrow(Left)) => DownLeftLevelOneExpand(a, b);
    case (Arrow(Down), Enter) => DownEnterLevelOneExpand(a, b);
    case (Arrow(Left), Arrow(Up)) => LeftUpLevelOneExpand(a, b);
    case (Arrow(Left), Arrow(Right)) => LeftRightLevelOneExpand(a, b);
    case (Arrow(Left), Arrow(Down)) => LeftDownLevelOneExpand(a, b);
    case (Arrow(Left), Arrow(Left)) => LeftLeftLevelOneExpand(a, b);
    case (Arrow(Left), Enter) => LeftEnterLevelOneExpand(a, b);
    case (Enter, Arrow(Up)) => EnterUpLevelOneExpand(a, b);
    case (Enter, Arrow(Right)) => EnterRightLevelOneExpand(a, b);
    case (Enter, Arrow(Down)) => EnterDownLevelOneExpand(a, b);
    case (Enter, Arrow(Left)) => EnterLeftLevelOneExpand(a, b);
    case (Enter, Enter) => EnterEnterLevelOneExpand(a, b);
  }

  /** The two-level cost of short candidates, unfolded into table entries. */
  lemma LevelTwoCostOfOne(x: DirectionButton)
    ensures LevelTwoCost([x]) == DirectionalTable(Enter, Arrow(x)) + DirectionalTable(Arrow(x), Enter)
  {
    assert MoveTable([x], 1) == DirectionalTable(Enter, Arrow(x));
  }

  lemma LevelTwoCostOfTwo(x: DirectionButton, y: DirectionButton)
    ensures LevelTwoCost([x, y]) == DirectionalTable(Enter, Arrow(x)) + DirectionalTable(Arrow(x), Arrow(y))
      + DirectionalTable(Arrow(y), Enter)
  {
    var c := [x, y];
    assert MoveTable(c, 1) == DirectionalTable(Enter, Arrow(x));
  }

  lemma LevelTwoCostOfThree(x: DirectionButton, y: DirectionButton, z: DirectionButton)
    ensures LevelTwoCost([x, y, z]) == DirectionalTable(Enter, Arrow(x)) + DirectionalTable(Arrow(x), Arrow(y))
      + DirectionalTable(Arrow(y), Arrow(z)) + DirectionalTable(Arrow(z), Enter)
  {
    var c := [x, y, z];
    assert MoveTable(c, 1) == DirectionalTable(Enter, Arrow(x));
    assert MoveTable(c, 2) == MoveTable(c, 1) + DirectionalTable(Arrow(x), Arrow(y));
  }

  lemma LevelTwoCostOfFour(w: DirectionButton, x: DirectionButton, y: DirectionButton, z: DirectionButton)
    ensures LevelTwoCost([w, x, y, z]) == DirectionalTable(Enter, Arrow(w)) + DirectionalTable(Arrow(w), Arrow(x))
      + DirectionalTable(Arrow(x), Arrow(y)) + DirectionalTable(Arrow(y), Arrow(z)) + DirectionalTable(Arrow(z), Enter)
  {
    var c := [w, x, y, z];
    assert MoveTable(c, 1) == DirectionalTable(Enter, Arrow(w));
    assert MoveTable(c, 2) == MoveTable(c, 1) + DirectionalTable(Arrow(w), Arrow(x));
    assert MoveTable(c, 3) == MoveTable(c, 2) + DirectionalTable(Arrow(x), Arrow(y));
  }

  // ---- The numeric-keypad transitions of the example codes ----

  lemma EnterD0Candidate1(c: seq<DirectionButton>)
    requires c == [Left]
    ensures SafeWalk(Numeric, c, (3, 2)) && MirrorCost(2, c) == 18
  {
    LevelTwoCostOfOne(Left);
  }

  lemma EnterD0Candidates(cs: seq<seq<DirectionButton>>)
    requires cs == [[Left]]
    ensures Best(Numeric, 2, (3, 2), cs, 1) == Some(18)
  {
    EnterD0Candidate1(cs[0]);
    BestOfSafe(Numeric, 2, (3, 2), cs, 1, None, 18);
  }

  lemma EnterD0Expand(a: KeyPadButton, b: KeyPadButton)
    requires a == Enter && b == Digit(0)
    ensures OnPad(Numeric, a) && OnPad(Numeric, b) && ExpandCost(Numeric, 2, a, b) == 18
  {
    var cs := Candidates(Numeric, a, b);
    assert Coordinate(Numeric, a) == (3, 2) && cs == [[Left]] by {
      assert Coordinate(Numeric, a) == (3, 2) && Coordinate(Numeric, b) == (3, 1);
      ArrangementsOfRuns(Up, Left, 1);
      assert Rep(Left, 1) == [Left];
    }
    EnterD0Candidates(cs);
    ExpandByBest(Numeric, 2, a, b);
  }

  lemma D0D2Candidate1(c: seq<DirectionButton>)
    requires c == [Up]
    ensures SafeWalk(Numeric, c, (3, 1)) && MirrorCost(2, c) == 12
  {
    LevelTwoCostOfOne(Up);
  }

  lemma D0D2Candidates(cs: seq<seq<DirectionButton>>)
    requires cs == [[Up]]
    ensures Best(Numeric, 2, (3, 1), cs, 1) == Some(12)
  {
    D0D2Candidate1(cs[0]);
    BestOfSafe(Numeric, 2, (3, 1), cs, 1, None, 12);
  }

  lemma D0D2Expand(a: KeyPadButton, b: KeyPadButton)
    requires a == Digit(0) && b == Digit(2)
    ensures OnPad(Numeric, a) && OnPad(Numeric, b) && ExpandCost(Numeric, 2, a, b) == 12
  {
    var cs := Candidates(Numeric, a, b);
    assert Coordinate(Numeric, a) == (3, 1) && cs == [[Up]] by {
      assert Coordinate(Numeric, a) == (3, 1) && Coordinate(Numeric, b) == (2, 1);
      ArrangementsOfRuns(Up, Left, 1);
      assert Rep(Up, 1) == [Up];
    }
    D0D2Candidates(cs);
    ExpandByBest(Numeric, 2, a, b);
  }

  lemma D2D9Candidate1(c: seq<DirectionButton>)
    requires c == [Up, Up, Right]
    ensures SafeWalk(Numeric, c, (2, 1)) && MirrorCost(2, c) == 20
  {
    assert SafeWalk(Numeric, c, (2, 1)) by {
      assert [Up, Up, Right][1..] == [Up, Right] && [Up, Right][1..] == [Right];
    }
    LevelTwoCostOfThree(Up, Up, Right);
  }

  lemma D2D9Candidate2(c: seq<DirectionButton>)
    requires c == [Up, Right, Up]
    ensures SafeWalk(Numeric, c, (2, 1)) && MirrorCost(2, c) == 28
  {
    assert SafeWalk(Numeric, c, (2, 1)) by {
      assert [Up, Right, Up][1..] == [Right, Up] && [Right, Up][1..] == [Up];
    }
    LevelTwoCostOfThree(Up, Right, Up);
  }

  lemma D2D9Candidate3(c: seq<DirectionButton>)
    requires c == [Right, Up, Up]
    ensures SafeWalk(Numeric, c, (2, 1)) && MirrorCost(2, c) == 20
  {
    assert SafeWalk(Numeric, c, (2, 1)) by {
      assert [Right, Up, Up][1..] == [Up, Up] && [Up, Up][1..] == [Up];
    }
    LevelTwoCostOfThree(Right, Up, Up);
  }

  lemma D2D9Candidates(cs: seq<seq<DirectionButton>>)
    requires cs == [[Up, Up, Right], [Up, Right, Up], [Right, Up, Up]]
    ensures Best(Numeric, 2, (2, 1), cs, 3) == Some(20)
  {
    D2D9Candidate1(cs[0]);
    BestOfSafe(Numeric, 2, (2, 1), cs, 1, None, 20);
    D2D9Candidate2(cs[1]);
    BestOfSafe(Numeric, 2, (2, 1), cs, 2, Some(20), 28);
    D2D9Candidate3(cs[2]);
    BestOfSafe(Numeric, 2, (2, 1), cs, 3, Some(20), 20);
  }

  lemma D2D9Expand(a: KeyPadButton, b: KeyPadButton)
    requires a == Digit(2) && b == Digit(9)
    ensures OnPad(Numeric, a) && OnPad(Numeric, b) && ExpandCost(Numeric, 2, a, b) == 20
  {
    var cs := Candidates(Numeric, a, b);
    assert Coordinate(Numeric, a) == (2, 1) && cs == [[Up, Up, Right], [Up, Right, Up], [Right, Up, Up]] by {
      assert Coordinate(Numeric, a) == (2, 1) && Coordinate(Numeric, b) == (0, 2);
      ArrangementsTwoOne(Up, Right);
    }
    D2D9Candidates(cs);
    ExpandByBest(Numeric, 2, a, b);
  }

  lemma D9EnterCandidate1(c: seq<DirectionButton>)
    requires c == [Down, Down, Down]
    ensures SafeWalk(Numeric, c, (0, 2)) && MirrorCost(2, c) == 18
  {
    assert SafeWalk(Numeric, c, (0, 2)) by {
      assert [Down, Down, Down][1..] == [Down, Down] && [Down, Down][1..] == [Down];
    }
    LevelTwoCostOfThree(Down, Down, Down);
  }

  lemma D9EnterCandidates(cs: seq<seq<DirectionButton>>)
    requires cs == [[Down, Down, Down]]
    ensures Best(Numeric, 2, (0, 2), cs, 1) == Some(18)
  {
    D9EnterCandidate1(cs[0]);
    BestOfSafe(Numeric, 2, (0, 2), cs, 1, None, 18);
  }

  lemma D9EnterExpand(a: KeyPadButton, b: KeyPadButton)
    requires a == Digit(9) && b == Enter
    ensures OnPad(Numeric, a) && OnPad(Numeric, b) && ExpandCost(Numeric, 2, a, b) == 18
  {
    var cs := Candidates(Numeric, a, b);
    assert Coordinate(Numeric, a) == (0, 2) && cs == [[Down, Down, Down]] by {
      assert Coordinate(Numeric, a) == (0, 2) && Coordinate(Numeric, b) == (3, 2);
      ArrangementsOfRuns(Down, Left, 3);
      assert Rep(Down, 3) == [Down, Down, Down];
    }
    D9EnterCandidates(cs);
    ExpandByBest(Numeric, 2, a, b);
  }

  lemma EnterD9Candidate1(c: seq<DirectionButton>)
    requires c == [Up, Up, Up]
    ensures SafeWalk(Numeric, c, (3, 2)) && MirrorCost(2, c) == 14
  {
    assert SafeWalk(Numeric, c, (3, 2)) by {
      assert [Up, Up, Up][1..] == [Up, Up] && [Up, Up][1..] == [Up];
    }
    LevelTwoCostOfThree(Up, Up, Up);
  }

  lemma EnterD9Candidates(cs: seq<seq<DirectionButton>>)
    requires cs == [[Up, Up, Up]]
    ensures Best(Numeric, 2, (3, 2), cs, 1) == Some(14)
  {
    EnterD9Candidate1(cs[0]);
    BestOfSafe(Numeric, 2, (3, 2), cs, 1, None, 14);
  }

  lemma EnterD9Expand(a: KeyPadButton, b: KeyPadButton)
    requires a == Enter && b == Digit(9)
    ensures OnPad(Numeric, a) && OnPad(Numeric, b) && ExpandCost(Numeric, 2, a, b) == 14
  {
    var cs := Candidates(Numeric, a, b);
    assert Coordinate(Numeric, a) == (3, 2) && cs == [[Up, Up, Up]] by {
      assert Coordinate(Numeric, a) == (3, 2) && Coordinate(Numeric, b) == (0, 2);
      ArrangementsOfRuns(Up, Left, 3);
      assert Rep(Up, 3) == [Up, Up, Up];
    }
    EnterD9Candidates(cs);
    ExpandByBest(Numeric, 2, a, b);
  }

  lemma D9D8Candidate1(c: seq<DirectionButton>)
    requires c == [Left]
    ensures SafeWalk(Numeric, c, (0, 2)) && MirrorCost(2, c) == 18
  {
    LevelTwoCostOfOne(Left);
  }

  lemma D9D8Candidates(cs: seq<seq<DirectionButton>>)
    requires cs == [[Left]]
    ensures Best(Numeric, 2, (0, 2), cs, 1) == Some(18)
  {
    D9D8Candidate1(cs[0]);
    BestOfSafe(Numeric, 2, (0, 2), cs, 1, None, 18);
  }

  lemma D9D8Expand(a: KeyPadButton, b: KeyPadButton)
    requires a == Digit(9) && b == Digit(8)
    ensures OnPad(Numeric, a) && OnPad(Numeric, b) && ExpandCost(Numeric, 2, a, b) == 18
  {
    var cs := Candidates(Numeric, a, b);
    assert Coordinate(Numeric, a) == (0, 2) && cs == [[Left]] by {
      assert Coordinate(Numeric, a) == (0, 2) && Coordinate(Numeric, b) == (0, 1);
      ArrangementsOfRuns(Up, Left, 1);
      assert Rep(Left, 1) == [Left];
    }
    D9D8Candidates(cs);
    ExpandByBest(Numeric, 2, a, b);
  }

  lemma D8D0Candidate1(c: seq<DirectionButton>)
    requires c == [Down, Down, Down]
    ensures SafeWalk(Numeric, c, (0, 1)) && MirrorCost(2, c) == 18
  {
    assert SafeWalk(Numeric, c, (0, 1)) by {
      assert [Down, Down, Down][1..] == [Down, Down] && [Down, Down][1..] == [Down];
    }
    LevelTwoCostOfThree(Down, Down, Down);
  }

  lemma D8D0Candidates(cs: seq<seq<DirectionButton>>)
    requires cs == [[Down, Down, Down]]
    ensures Best(Numeric, 2, (0, 1), cs, 1) == Some(18)
  {
    D8D0Candidate1(cs[0]);
    BestOfSafe(Numeric, 2, (0, 1), cs, 1, None, 18);
  }

  lemma D8D0Expand(a: KeyPadButton, b: KeyPadButton)
    requires a == Digit(8) && b == Digit(0)
    ensures OnPad(Numeric, a) && OnPad(Numeric, b) && ExpandCost(Numeric, 2, a, b) == 18
  {
    var cs := Candidates(Numeric, a, b);
    assert Coordinate(Numeric, a) == (0, 1) && cs == [[Down, Down, Down]] by {
      assert Coordinate(Numeric, a) == (0, 1) && Coordinate(Numeric, b) == (3, 1);
      ArrangementsOfRuns(Down, Left, 3);
      assert Rep(Down, 3) == [Down, Down, Down];
    }
    D8D0Candidates(cs);
    ExpandByBest(Numeric, 2, a, b);
  }

  lemma D0EnterCandidate1(c: seq<DirectionButton>)
    requires c == [Right]
    ensures SafeWalk(Numeric, c, (3, 1)) && MirrorCost(2, c) == 10
  {
    LevelTwoCostOfOne(Right);
  }

  lemma D0EnterCandidates(cs: seq<seq<DirectionButton>>)
    requires cs == [[Right]]
    ensures Best(Numeric, 2, (3, 1), cs, 1) == Some(10)
  {
    D0EnterCandidate1(cs[0]);
    BestOfSafe(Numeric, 2, (3, 1), cs, 1, None, 10);
  }

  lemma D0EnterExpand(a: KeyPadButton, b: KeyPadButton)
    requires a == Digit(0) && b == Enter
    ensures OnPad(Numeric, a) && OnPad(Numeric, b) && ExpandCost(Numeric, 2, a, b) == 10
  {
    var cs := Candidates(Numeric, a, b);
    assert Coordinate(Numeric, a) == (3, 1) && cs == [[Right]] by {
      assert Coordinate(Numeric, a) == (3, 1) && Coordinate(Numeric, b) == (3, 2);
      ArrangementsOfRuns(Up, Right, 1);
      assert Rep(Right, 1) == [Right];
    }
    D0EnterCandidates(cs);
    ExpandByBest(Numeric, 2, a, b);
  }

  lemma EnterD1Candidate1(c: seq<DirectionButton>)
    requires c == [Up, Left, Left]
    ensures SafeWalk(Numeric, c, (3, 2)) && MirrorCost(2, c) == 26
  {
    assert SafeWalk(Numeric, c, (3, 2)) by {
      assert [Up, Left, Left][1..] == [Left, Left] && [Left, Left][1..] == [Left];
    }
    LevelTwoCostOfThree(Up, Left, Left);
  }

  lemma EnterD1Candidate2(c: seq<DirectionButton>)
    requires c == [Left, Up, Left]
    ensures SafeWalk(Numeric, c, (3, 2)) && MirrorCost(2, c) == 34
  {
    assert SafeWalk(Numeric, c, (3, 2)) by {
      assert [Left, Up, Left][1..] == [Up, Left] && [Up, Left][1..] == [Left];
    }
    LevelTwoCostOfThree(Left, Up, Left);
  }

  lemma EnterD1Candidate3(c: seq<DirectionButton>)
    requires c == [Left, Left, Up]
    ensures !SafeWalk(Numeric, c, (3, 2))
  {
    assert [Left, Left, Up][1..] == [Left, Up] && [Left, Up][1..] == [Up];
    assert !Contains(Numeric, (3, 0));
  }

  lemma EnterD1Candidates(cs: seq<seq<DirectionButton>>)
    requires cs == [[Up, Left, Left], [Left, Up, Left], [Left, Left, Up]]
    ensures Best(Numeric, 2, (3, 2), cs, 3) == Some(26)
  {
    EnterD1Candidate1(cs[0]);
    BestOfSafe(Numeric, 2, (3, 2), cs, 1, None, 26);
    EnterD1Candidate2(cs[1]);
    BestOfSafe(Numeric, 2, (3, 2), cs, 2, Some(26), 34);
    EnterD1Candidate3(cs[2]);
    UnsafeCandidateSkipped(Numeric, 2, (3, 2), cs, 3);
  }

  lemma EnterD1Expand(a: KeyPadButton, b: KeyPadButton)
    requires a == Enter && b == Digit(1)
    ensures OnPad(Numeric, a) && OnPad(Numeric, b) && ExpandCost(Numeric, 2, a, b) == 26
  {
    var cs := Candidates(Numeric, a, b);
    assert Coordinate(Numeric, a) == (3, 2) && cs == [[Up, Left, Left], [Left, Up, Left], [Left, Left, Up]] by {
      assert Coordinate(Numeric, a) == (3, 2) && Coordinate(Numeric, b) == (2, 0);
      ArrangementsOneTwo(Up, Left);
    }
    EnterD1Candidates(cs);
    ExpandByBest(Numeric, 2, a, b);
  }

  lemma D1D7Candidate1(c: seq<DirectionButton>)
    requires c == [Up, Up]
    ensures SafeWalk(Numeric, c, (2, 0)) && MirrorCost(2, c) == 13
  {
    assert SafeWalk(Numeric, c, (2, 0)) by {
      assert [Up, Up][1..] == [Up];
    }
    LevelTwoCostOfTwo(Up, Up);
  }

  lemma D1D7Candidates(cs: seq<seq<DirectionButton>>)
    requires cs == [[Up, Up]]
    ensures Best(Numeric, 2, (2, 0), cs, 1) == Some(13)
  {
    D1D7Candidate1(cs[0]);
    BestOfSafe(Numeric, 2, (2, 0), cs, 1, None, 13);
  }

  lemma D1D7Expand(a: KeyPadButton, b: KeyPadButton)
    requires a == Digit(1) && b == Digit(7)
    ensures OnPad(Numeric, a) && OnPad(Numeric, b) && ExpandCost(Numeric, 2, a, b) == 13
  {
    var cs := Candidates(Numeric, a, b);
    assert Coordinate(Numeric, a) == (2, 0) && cs == [[Up, Up]] by {
      assert Coordinate(Numeric, a) == (2, 0) && Coordinate(Numeric, b) == (0, 0);
      ArrangementsOfRuns(Up, Left, 2);
      assert Rep(Up, 2) == [Up, Up];
    }
    D1D7Candidates(cs);
    ExpandByBest(Numeric, 2, a, b);
  }

  lemma D7D9Candidate1(c: seq<DirectionButton>)
    requires c == [Right, Right]
    ensures SafeWalk(Numeric, c, (0, 0)) && MirrorCost(2, c) == 11
  {
    assert SafeWalk(Numeric, c, (0, 0)) by {
      assert [Right, Right][1..] == [Right];
    }
    LevelTwoCostOfTwo(Right, Right);
  }

  lemma D7D9Candidates(cs: seq<seq<DirectionButton>>)
    requires cs == [[Right, Right]]
    ensures Best(Numeric, 2, (0, 0), cs, 1) == Some(11)
  {
    D7D9Candidate1(cs[0]);
    BestOfSafe(Numeric, 2, (0, 0), cs, 1, None, 11);
  }

  lemma D7D9Expand(a: KeyPadButton, b: KeyPadButton)
    requires a == Digit(7) && b == Digit(9)
    ensures OnPad(Numeric, a) && OnPad(Numeric, b) && ExpandCost(Numeric, 2, a, b) == 11
  {
    var cs := Candidates(Numeric, a, b);
    assert Coordinate(Numeric, a) == (0, 0) && cs == [[Right, Right]] by {
      assert Coordinate(Numeric, a) == (0, 0) && Coordinate(Numeric, b) == (0, 2);
      ArrangementsOfRuns(Up, Right, 2);
      assert Rep(Right, 2) == [Right, Right];
    }
    D7D9Candidates(cs);
    ExpandByBest(Numeric, 2, a, b);
  }

  lemma EnterD4Candidate1(c: seq<DirectionButton>)
    requires c == [Up, Up, Left, Left]
    ensures SafeWalk(Numeric, c, (3, 2)) && MirrorCost(2, c) == 27
  {
    assert SafeWalk(Numeric, c, (3, 2)) by {
      assert [Up, Up, Left, Left][1..] == [Up, Left, Left] && [Up, Left, Left][1..] == [Left, Left] && [Left, Left][1..] == [Left];
    }
    LevelTwoCostOfFour(Up, Up, Left, Left);
  }

  lemma EnterD4Candidate2(c: seq<DirectionButton>)
    requires c == [Up, Left, Up, Left]
    ensures SafeWalk(Numeric, c, (3, 2)) && MirrorCost(2, c) == 41
  {
    assert SafeWalk(Numeric, c, (3, 2)) by {
      assert [Up, Left, Up, Left][1..] == [Left, Up, Left] && [Left, Up, Left][1..] == [Up, Left] && [Up, Left][1..] == [Left];
    }
    LevelTwoCostOfFour(Up, Left, Up, Left);
  }

  lemma EnterD4Candidate3(c: seq<DirectionButton>)
    requires c == [Up, Left, Left, Up]
    ensures SafeWalk(Numeric, c, (3, 2)) && MirrorCost(2, c) == 29
  {
    assert SafeWalk(Numeric, c, (3, 2)) by {
      assert [Up, Left, Left, Up][1..] == [Left, Left, Up] && [Left, Left, Up][1..] == [Left, Up] && [Left, Up][1..] == [Up];
    }
    LevelTwoCostOfFour(Up, Left, Left, Up);
  }

  lemma EnterD4Candidate4(c: seq<DirectionButton>)
    requires c == [Left, Up, Up, Left]
    ensures SafeWalk(Numeric, c, (3, 2)) && MirrorCost(2, c) == 35
  {
    assert SafeWalk(Numeric, c, (3, 2)) by {
      assert [Left, Up, Up, Left][1..] == [Up, Up, Left] && [Up, Up, Left][1..] == [Up, Left] && [Up, Left][1..] == [Left];
    }
    LevelTwoCostOfFour(Left, Up, Up, Left);
  }

  lemma EnterD4Candidate5(c: seq<DirectionButton>)
    requires c == [Left, Up, Left, Up]
    ensures SafeWalk(Numeric, c, (3, 2)) && MirrorCost(2, c) == 37
  {
    assert SafeWalk(Numeric, c, (3, 2)) by {
      assert [Left, Up, Left, Up][1..] == [Up, Left, Up] && [Up, Left, Up][1..] == [Left, Up] && [Left, Up][1..] == [Up];
    }
    LevelTwoCostOfFour(Left, Up, Left, Up);
  }

  lemma EnterD4Candidate6(c: seq<DirectionButton>)
    requires c == [Left, Left, Up, Up]
    ensures !SafeWalk(Numeric, c, (3, 2))
  {
    assert [Left, Left, Up, Up][1..] == [Left, Up, Up] && [Left, Up, Up][1..] == [Up, Up] && [Up, Up][1..] == [Up];
    assert !Contains(Numeric, (3, 0));
  }

  lemma EnterD4CandidatesHead(cs: seq<seq<DirectionButton>>)
    requires cs == [[Up, Up, Left, Left], [Up, Left, Up, Left], [Up, Left, Left, Up], [Left, Up, Up, Left], [Left, Up, Left, Up], [Left, Left, Up, Up]]
    ensures Best(Numeric, 2, (3, 2), cs, 3) == Some(27)
  {
    EnterD4Candidate1(cs[0]);
    BestOfSafe(Numeric, 2, (3, 2), cs, 1, None, 27);
    EnterD4Candidate2(cs[1]);
    BestOfSafe(Numeric, 2, (3, 2), cs, 2, Some(27), 41);
    EnterD4Candidate3(cs[2]);
    BestOfSafe(Numeric, 2, (3, 2), cs, 3, Some(27), 29);
  }

  lemma EnterD4Candidates(cs: seq<seq<DirectionButton>>)
    requires cs == [[Up, Up, Left, Left], [Up, Left, Up, Left], [Up, Left, Left, Up], [Left, Up, Up, Left], [Left, Up, Left, Up], [Left, Left, Up, Up]]
    ensures Best(Numeric, 2, (3, 2), cs, 6) == Some(27)
  {
    EnterD4CandidatesHead(cs);
    EnterD4Candidate4(cs[3]);
    BestOfSafe(Numeric, 2, (3, 2), cs, 4, Some(27), 35);
    EnterD4Candidate5(cs[4]);
    BestOfSafe(Numeric, 2, (3, 2), cs, 5, Some(27), 37);
    EnterD4Candidate6(cs[5]);
    UnsafeCandidateSkipped(Numeric, 2, (3, 2), cs, 6);
  }

  lemma EnterD4Expand(a: KeyPadButton, b: KeyPadButton)
    requires a == Enter && b == Digit(4)
    ensures OnPad(Numeric, a) && OnPad(Numeric, b) && ExpandCost(Numeric, 2, a, b) == 27
  {
    var cs := Candidates(Numeric, a, b);
    assert Coordinate(Numeric, a) == (3, 2) && cs == [[Up, Up, Left, Left], [Up, Left, Up, Left], [Up, Left, Left, Up], [Left, Up, Up, Left], [Left, Up, Left, Up], [Left, Left, Up, Up]] by {
      assert Coordinate(Numeric, a) == (3, 2) && Coordinate(Numeric, b) == (1, 0);
      ArrangementsTwoTwo(Up, Left);
    }
    EnterD4Candidates(cs);
    ExpandByBest(Numeric, 2, a, b);
  }

  lemma D4D5Candidate1(c: seq<DirectionButton>)
    requires c == [Right]
    ensures SafeWalk(Numeric, c, (1, 0)) && MirrorCost(2, c) == 10
  {
    LevelTwoCostOfOne(Right);
  }

  lemma D4D5Candidates(cs: seq<seq<DirectionButton>>)
    requires cs == [[Right]]
    ensures Best(Numeric, 2, (1, 0), cs, 1) == Some(10)
  {
    D4D5Candidate1(cs[0]);
    BestOfSafe(Numeric, 2, (1, 0), cs, 1, None, 10);
  }

  lemma D4D5Expand(a: KeyPadButton, b: KeyPadButton)
    requires a == Digit(4) && b == Digit(5)
    ensures OnPad(Numeric, a) && OnPad(Numeric, b) && ExpandCost(Numeric, 2, a, b) == 10
  {
    var cs := Candidates(Numeric, a, b);
    assert Coordinate(Numeric, a) == (1, 0) && cs == [[Right]] by {
      assert Coordinate(Numeric, a) == (1, 0) && Coordinate(Numeric, b) == (1, 1);
      ArrangementsOfRuns(Up, Right, 1);
      assert Rep(Right, 1) == [Right];
    }
    D4D5Candidates(cs);
    ExpandByBest(Numeric, 2, a, b);
  }

  lemma D5D6Candidate1(c: seq<DirectionButton>)
    requires c == [Right]
    ensures SafeWalk(Numeric, c, (1, 1)) && MirrorCost(2, c) == 10
  {
    LevelTwoCostOfOne(Right);
  }

  lemma D5D6Candidates(cs: seq<seq<DirectionButton>>)
    requires cs == [[Right]]
    ensures Best(Numeric, 2, (1, 1), cs, 1) == Some(10)
  {
    D5D6Candidate1(cs[0]);
    BestOfSafe(Numeric, 2, (1, 1), cs, 1, None, 10);
  }

  lemma D5D6Expand(a: KeyPadButton, b: KeyPadButton)
    requires a == Digit(5) && b == Digit(6)
    ensures OnPad(Numeric, a) && OnPad(Numeric, b) && ExpandCost(Numeric, 2, a, b) == 10
  {
    var cs := Candidates(Numeric, a, b);
    assert Coordinate(Numeric, a) == (1, 1) && cs == [[Right]] by {
      assert Coordinate(Numeric, a) == (1, 1) && Coordinate(Numeric, b) == (1, 2);
      ArrangementsOfRuns(Up, Right, 1);
      assert Rep(Right, 1) == [Right];
    }
    D5D6Candidates(cs);
    ExpandByBest(Numeric, 2, a, b);
  }

  lemma D6EnterCandidate1(c: seq<DirectionButton>)
    requires c == [Down, Down]
    ensures SafeWalk(Numeric, c, (1, 2)) && MirrorCost(2, c) == 17
  {
    assert SafeWalk(Numeric, c, (1, 2)) by {
      assert [Down, Down][1..] == [Down];
    }
    LevelTwoCostOfTwo(Down, Down);
  }

  lemma D6EnterCandidates(cs: seq<seq<DirectionButton>>)
    requires cs == [[Down, Down]]
    ensures Best(Numeric, 2, (1, 2), cs, 1) == Some(17)
  {
    D6EnterCandidate1(cs[0]);
    BestOfSafe(Numeric, 2, (1, 2), cs, 1, None, 17);
  }

  lemma D6EnterExpand(a: KeyPadButton, b: KeyPadButton)
    requires a == Digit(6) && b == Enter
    ensures OnPad(Numeric, a) && OnPad(Numeric, b) && ExpandCost(Numeric, 2, a, b) == 17
  {
    var cs := Candidates(Numeric, a, b);
    assert Coordinate(Numeric, a) == (1, 2) && cs == [[Down, Down]] by {
      assert Coordinate(Numeric, a) == (1, 2) && Coordinate(Numeric, b) == (3, 2);
      ArrangementsOfRuns(Down, Left, 2);
      assert Rep(Down, 2) == [Down, Down];
    }
    D6EnterCandidates(cs);
    ExpandByBest(Numeric, 2, a, b);
  }

  lemma EnterD3Candidate1(c: seq<DirectionButton>)
    requires c == [Up]
    ensures SafeWalk(Numeric, c, (3, 2)) && MirrorCost(2, c) == 12
  {
    LevelTwoCostOfOne(Up);
  }

  lemma EnterD3Candidates(cs: seq<seq<DirectionButton>>)
    requires cs == [[Up]]
    ensures Best(Numeric, 2, (3, 2), cs, 1) == Some(12)
  {
    EnterD3Candidate1(cs[0]);
    BestOfSafe(Numeric, 2, (3, 2), cs, 1, None, 12);
  }

  lemma EnterD3Expand(a: KeyPadButton, b: KeyPadButton)
    requires a == Enter && b == Digit(3)
    ensures OnPad(Numeric, a) && OnPad(Numeric, b) && ExpandCost(Numeric, 2, a, b) == 12
  {
    var cs := Candidates(Numeric, a, b);
    assert Coordinate(Numeric, a) == (3, 2) && cs == [[Up]] by {
      assert Coordinate(Numeric, a) == (3, 2) && Coordinate(Numeric, b) == (2, 2);
      ArrangementsOfRuns(Up, Left, 1);
      assert Rep(Up, 1) == [Up];
    }
    EnterD3Candidates(cs);
    ExpandByBest(Numeric, 2, a, b);
  }

  lemma D3D7Candidate1(c: seq<DirectionButton>)
    requires c == [Up, Up, Left, Left]
    ensures SafeWalk(Numeric, c, (2, 2)) && MirrorCost(2, c) == 27
  {
    assert SafeWalk(Numeric, c, (2, 2)) by {
      assert [Up, Up, Left, Left][1..] == [Up, Left, Left] && [Up, Left, Left][1..] == [Left, Left] && [Left, Left][1..] == [Left];
    }
    LevelTwoCostOfFour(Up, Up, Left, Left);
  }

  lemma D3D7Candidate2(c: seq<DirectionButton>)
    requires c == [Up, Left, Up, Left]
    ensures SafeWalk(Numeric, c, (2, 2)) && MirrorCost(2, c) == 41
  {
    assert SafeWalk(Numeric, c, (2, 2)) by {
      assert [Up, Left, Up, Left][1..] == [Left, Up, Left] && [Left, Up, Left][1..] == [Up, Left] && [Up, Left][1..] == [Left];
    }
    LevelTwoCostOfFour(Up, Left, Up, Left);
  }

  lemma D3D7Candidate3(c: seq<DirectionButton>)
    requires c == [Up, Left, Left, Up]
    ensures SafeWalk(Numeric, c, (2, 2)) && MirrorCost(2, c) == 29
  {
    assert SafeWalk(Numeric, c, (2, 2)) by {
      assert [Up, Left, Left, Up][1..] == [Left, Left, Up] && [Left, Left, Up][1..] == [Left, Up] && [Left, Up][1..] == [Up];
    }
    LevelTwoCostOfFour(Up, Left, Left, Up);
  }

  lemma D3D7Candidate4(c: seq<DirectionButton>)
    requires c == [Left, Up, Up, Left]
    ensures SafeWalk(Numeric, c, (2, 2)) && MirrorCost(2, c) == 35
  {
    assert SafeWalk(Numeric, c, (2, 2)) by {
      assert [Left, Up, Up, Left][1..] == [Up, Up, Left] && [Up, Up, Left][1..] == [Up, Left] && [Up, Left][1..] == [Left];
    }
    LevelTwoCostOfFour(Left, Up, Up, Left);
  }

  lemma D3D7Candidate5(c: seq<DirectionButton>)
    requires c == [Left, Up, Left, Up]
    ensures SafeWalk(Numeric, c, (2, 2)) && MirrorCost(2, c) == 37
  {
    assert SafeWalk(Numeric, c, (2, 2)) by {
      assert [Left, Up, Left, Up][1..] == [Up, Left, Up] && [Up, Left, Up][1..] == [Left, Up] && [Left, Up][1..] == [Up];
    }
    LevelTwoCostOfFour(Left, Up, Left, Up);
  }

  lemma D3D7Candidate6(c: seq<DirectionButton>)
    requires c == [Left, Left, Up, Up]
    ensures SafeWalk(Numeric, c, (2, 2)) && MirrorCost(2, c) == 23
  {
    assert SafeWalk(Numeric, c, (2, 2)) by {
      assert [Left, Left, Up, Up][1..] == [Left, Up, Up] && [Left, Up, Up][1..] == [Up, Up] && [Up, Up][1..] == [Up];
    }
    LevelTwoCostOfFour(Left, Left, Up, Up);
  }

  lemma D3D7CandidatesHead(cs: seq<seq<DirectionButton>>)
    requires cs == [[Up, Up, Left, Left], [Up, Left, Up, Left], [Up, Left, Left, Up], [Left, Up, Up, Left], [Left, Up, Left, Up], [Left, Left, Up, Up]]
    ensures Best(Numeric, 2, (2, 2), cs, 3) == Some(27)
  {
    D3D7Candidate1(cs[0]);
    BestOfSafe(Numeric, 2, (2, 2), cs, 1, None, 27);
    D3D7Candidate2(cs[1]);
    BestOfSafe(Numeric, 2, (2, 2), cs, 2, Some(27), 41);
    D3D7Candidate3(cs[2]);
    BestOfSafe(Numeric, 2, (2, 2), cs, 3, Some(27), 29);
  }

  lemma D3D7Candidates(cs: seq<seq<DirectionButton>>)
    requires cs == [[Up, Up, Left, Left], [Up, Left, Up, Left], [Up, Left, Left, Up], [Left, Up, Up, Left], [Left, Up, Left, Up], [Left, Left, Up, Up]]
    ensures Best(Numeric, 2, (2, 2), cs, 6) == Some(23)
  {
    D3D7CandidatesHead(cs);
    D3D7Candidate4(cs[3]);
    BestOfSafe(Numeric, 2, (2, 2), cs, 4, Some(27), 35);
    D3D7Candidate5(cs[4]);
    BestOfSafe(Numeric, 2, (2, 2), cs, 5, Some(27), 37);
    D3D7Candidate6(cs[5]);
    BestOfSafe(Numeric, 2, (2, 2), cs, 6, Some(27), 23);
  }

  lemma D3D7Expand(a: KeyPadButton, b: KeyPadButton)
    requires a == Digit(3) && b == Digit(7)
    ensures OnPad(Numeric, a) && OnPad(Numeric, b) && ExpandCost(Numeric, 2, a, b) == 23
  {
    var cs := Candidates(Numeric, a, b);
    assert Coordinate(Numeric, a) == (2, 2) && cs == [[Up, Up, Left, Left], [Up, Left, Up, Left], [Up, Left, Left, Up], [Left, Up, Up, Left], [Left, Up, Left, Up], [Left, Left, Up, Up]] by {
      assert Coordinate(Numeric, a) == (2, 2) && Coordinate(Numeric, b) == (0, 0);
      ArrangementsTwoTwo(Up, Left);
    }
    D3D7Candidates(cs);
    ExpandByBest(Numeric, 2, a, b);
  }

  // ---- The example codes ----

  /** Five keys cost the sum of their four transitions. */
  lemma PairsCostOfFive(pad: Pad, level: nat, keys: seq<KeyPadButton>, k0: KeyPadButton, k1: KeyPadButton, k2: KeyPadButton, k3: KeyPadButton, k4: KeyPadButton)
    requires keys == [k0, k1, k2, k3, k4] && AllOnPad(pad, keys)
    ensures OnPad(pad, k0) && OnPad(pad, k1) && OnPad(pad, k2) && OnPad(pad, k3) && OnPad(pad, k4)
    ensures PairsCost(pad, level, keys) == ExpandCost(pad, level, k0, k1) + ExpandCost(pad, level, k1, k2)
      + ExpandCost(pad, level, k2, k3) + ExpandCost(pad, level, k3, k4)
  {
    assert keys[0] == k0 && keys[1] == k1 && keys[2] == k2 && keys[3] == k3 && keys[4] == k4;
    PairsCostLast(pad, level, [k0, k1], [k0], k0, k1);
    PairsCostLast(pad, level, [k0, k1, k2], [k0, k1], k1, k2);
    PairsCostLast(pad, level, [k0, k1, k2, k3], [k0, k1, k2], k2, k3);
    PairsCostLast(pad, level, keys, [k0, k1, k2, k3], k3, k4);
  }

  /** A three-digit code costs its four transitions, from Enter and back. */
  lemma ThreeDigitPresses(level: nat, buttons: seq<NumberButton>)
    requires |buttons| == 3
    ensures var d := DigitKeys(buttons);
      MinPresses(Numeric, level, d) == ExpandCost(Numeric, level, Enter, d[0]) + ExpandCost(Numeric, level, d[0], d[1])
        + ExpandCost(Numeric, level, d[1], d[2]) + ExpandCost(Numeric, level, d[2], Enter)
  {
    var d := DigitKeys(buttons);
    var keys := Bracket(d);
    assert keys == [Enter, d[0], d[1], d[2], Enter];
    PairsCostOfFive(Numeric, level, keys, Enter, d[0], d[1], d[2], Enter);
  }

  lemma Code029(buttons: seq<NumberButton>)
    requires buttons == [0, 2, 9]
    ensures MinPresses(Numeric, 2, DigitKeys(buttons)) == 68
  {
    ThreeDigitPresses(2, buttons);
    EnterD0Expand(Enter, Digit(0));
    D0D2Expand(Digit(0), Digit(2));
    D2D9Expand(Digit(2), Digit(9));
    D9EnterExpand(Digit(9), Enter);
  }

  lemma Code980(buttons: seq<NumberButton>)
    requires buttons == [9, 8, 0]
    ensures MinPresses(Numeric, 2, DigitKeys(buttons)) == 60
  {
    ThreeDigitPresses(2, buttons);
    EnterD9Expand(Enter, Digit(9));
    D9D8Expand(Digit(9), Digit(8));
    D8D0Expand(Digit(8), Digit(0));
    D0EnterExpand(Digit(0), Enter);
  }

  lemma Code179(buttons: seq<NumberButton>)
    requires buttons == [1, 7, 9]
    ensures MinPresses(Numeric, 2, DigitKeys(buttons)) == 68
  {
    ThreeDigitPresses(2, buttons);
    EnterD1Expand(Enter, Digit(1));
    D1D7Expand(Digit(1), Digit(7));
    D7D9Expand(Digit(7), Digit(9));
    D9EnterExpand(Digit(9), Enter);
  }

  lemma Code456(buttons: seq<NumberButton>)
    requires buttons == [4, 5, 6]
    ensures MinPresses(Numeric, 2, DigitKeys(buttons)) == 64
  {
    ThreeDigitPresses(2, buttons);
    EnterD4Expand(Enter, Digit(4));
    D4D5Expand(Digit(4), Digit(5));
    D5D6Expand(Digit(5), Digit(6));
    D6EnterExpand(Digit(6), Enter);
  }

  lemma Code379(buttons: seq<NumberButton>)
    requires buttons == [3, 7, 9]
    ensures MinPresses(Numeric, 2, DigitKeys(buttons)) == 64
  {
    ThreeDigitPresses(2, buttons);
    EnterD3Expand(Enter, Digit(3));
    D3D7Expand(Digit(3), Digit(7));
    D7D9Expand(Digit(7), Digit(9));
    D9EnterExpand(Digit(9), Enter);
  }

  /** The five example codes as the puzzle lists them. */
  function ExampleCodes(): seq<Code>
  {
    [Code([0, 2, 9], 29), Code([9, 8, 0], 980), Code([1, 7, 9], 179), Code([4, 5, 6], 456), Code([3, 7, 9], 379)]
  }

  /** The puzzle's worked example: with two directional keypads between the
      human and the door, the complexities sum to 126384. */
  lemma ExampleComplexity()
    ensures Complexity(ExampleCodes(), 2) == 126384
  {
    ComplexityOfCodes(ExampleCodes());
  }

  lemma ComplexityOfCodes(codes: seq<Code>)
    requires codes == ExampleCodes()
    ensures Complexity(codes, 2) == 126384
  {
    assert Complexity(codes[..1], 2) == 68 * 29 by {
      assert codes[..1][..0] == [];
      Code029(codes[0].buttons);
    }
    assert Complexity(codes[..2], 2) == 68 * 29 + 60 * 980 by {
      assert codes[..2][..1] == codes[..1];
      Code980(codes[1].buttons);
    }
    assert Complexity(codes[..3], 2) == 68 * 29 + 60 * 980 + 68 * 179 by {
      assert codes[..3][..2] == codes[..2];
      Code179(codes[2].buttons);
    }
    assert Complexity(codes[..4], 2) == 68 * 29 + 60 * 980 + 68 * 179 + 64 * 456 by {
      assert codes[..4][..3] == codes[..3];
      Code456(codes[3].buttons);
    }
    assert codes[..5] == codes && codes[..5][..4] == codes[..4];
    Code379(codes[4].buttons);
  }

  /** Typed straight onto the door keypad, 029A takes 12 presses: one per
      key, and 8 steps of travel. */
  lemma DirectCode029(buttons: seq<NumberButton>)
    requires buttons == [0, 2, 9]
    ensures MinPresses(Numeric, 0, DigitKeys(buttons)) == 12
  {
    var keys := Bracket(DigitKeys(buttons));
    assert Travel(Numeric, keys, 5) == 8 by {
      assert keys[0] == Enter && keys[1] == Digit(0) && keys[2] == Digit(2) && keys[3] == Digit(9) && keys[4] == Enter;
      assert Travel(Numeric, keys, 2) == 1;
      assert Travel(Numeric, keys, 3) == 2;
      assert Travel(Numeric, keys, 4) == 5;
    }
    DirectPresses(Numeric, DigitKeys(buttons));
  }
}
