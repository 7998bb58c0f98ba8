/** The worked examples of Day 12. */
module Day12Examples {
  import opened Common
  import opened Day12

  /** The four-by-four example garden. */
  const Example: Garden := Garden(["AAAA", "BBCD", "BBCC", "EEEC"])

  /** The four sides of a lone plot. */
  function AllFour(p: Plot): set<(Plot, Side)>
  {
    {(p, Top), (p, Right), (p, Bottom), (p, Left)}
  }

  lemma AllFourSize(p: Plot)
    ensures |AllFour(p)| == 4
  {
  }

  lemma SingleBoundary(plots: set<Plot>, p: Plot)
    requires plots == {p}
    ensures Boundary(plots) == AllFour(p)
  {
    forall s: Side
      ensures (p, s) in Boundary(plots)
    {
      OnBoundary(plots, p, s);
    }
  }

  lemma SingleTurns(plots: set<Plot>, p: Plot)
    requires plots == {p}
    ensures Turns(plots) == AllFour(p)
  {
    SingleBoundary(plots, p);
    forall s: Side
      ensures TurnsAt(plots, p, s)
    {
    }
  }

  /** A lone plot is fenced on all four sides, and each is a side of its own. */
  lemma SinglePlot(plots: set<Plot>, p: Plot)
    requires plots == {p}
    ensures |Boundary(plots)| == 4 && |Turns(plots)| == 4
  {
    hide Boundary, Turns;
    SingleBoundary(plots, p);
    SingleTurns(plots, p);
    AllFourSize(p);
  }

  /** The fence around four plots in a row along the top edge. */
  const TopRowFence: set<(Plot, Side)> :=
    {((0, 0), Top), ((0, 1), Top), ((0, 2), Top), ((0, 3), Top),
     ((0, 0), Bottom), ((0, 1), Bottom), ((0, 2), Bottom), ((0, 3), Bottom),
     ((0, 0), Left), ((0, 3), Right)}

  /** ... and the segments where it turns: one at each corner. */
  const TopRowCorners: set<(Plot, Side)> := {((0, 3), Top), ((0, 3), Right), ((0, 0), Bottom), ((0, 0), Left)}

  lemma TopRowSizes()
    ensures |TopRowFence| == 10 && |TopRowCorners| == 4
  {
  }

  lemma TopRowBoundary(plots: set<Plot>)
    requires plots == {(0, 0), (0, 1), (0, 2), (0, 3)}
    ensures Boundary(plots) == TopRowFence
  {
    forall x | x in Boundary(plots)
      ensures x in TopRowFence
    {
    }
    forall x | x in TopRowFence
      ensures x in Boundary(plots)
    {
      OnBoundary(plots, x.0, x.1);
    }
  }

  lemma TopRowTurnAt(plots: set<Plot>, x: (Plot, Side))
    requires plots == {(0, 0), (0, 1), (0, 2), (0, 3)}
    requires x in TopRowFence
    ensures TurnsAt(plots, x.0, x.1) <==> x in TopRowCorners
  {
    var (p, s) := x;
    match s
    case Top => TopSideTurn(plots, p.1);
    case Right =>
      assert p == (0, 3);
      assert ApplyTo(FollowClockwiseDelta(s), p) == Some((1, 3));
    case Bottom => BottomSideTurn(plots, p.1);
    case Left =>
      assert p == (0, 0);
      assert ApplyTo(FollowClockwiseDelta(s), p) == None;
  }

  /** Along the top the fence turns only past the last plot ... */
  lemma TopSideTurn(plots: set<Plot>, c: nat)
    requires plots == {(0, 0), (0, 1), (0, 2), (0, 3)} && c < 4
    ensures TurnsAt(plots, (0, c), Top) <==> c == 3
  {
    assert ApplyTo(ConcaveDelta(Top), (0, c)) == None;
    assert ApplyTo(FollowClockwiseDelta(Top), (0, c)) == Some((0, c + 1));
  }

  /** ... and along the bottom only past the first. */
  lemma BottomSideTurn(plots: set<Plot>, c: nat)
    requires plots == {(0, 0), (0, 1), (0, 2), (0, 3)} && c < 4
    ensures TurnsAt(plots, (0, c), Bottom) <==> c == 0
  {
    if c == 0 {
      assert ApplyTo(FollowClockwiseDelta(Bottom), (0, c)) == None;
    } else {
      assert ApplyTo(ConcaveDelta(Bottom), (0, c)) == Some((1, c - 1));
      assert ApplyTo(FollowClockwiseDelta(Bottom), (0, c)) == Some((0, c - 1));
    }
  }

  lemma TopRowTurns(plots: set<Plot>)
    requires plots == {(0, 0), (0, 1), (0, 2), (0, 3)}
    ensures Turns(plots) == TopRowCorners
  {
    TopRowBoundary(plots);
    forall x | x in Turns(plots)
      ensures x in TopRowCorners
    {
      TopRowTurnAt(plots, x);
    }
    forall x | x in TopRowCorners
      ensures x in Turns(plots)
    {
      TopRowTurnAt(plots, x);
    }
  }

  /** Region A, four plots in a row: ten fence segments, four sides. */
  lemma RowOfFour(plots: set<Plot>)
    requires plots == {(0, 0), (0, 1), (0, 2), (0, 3)}
    ensures |Boundary(plots)| == 10 && |Turns(plots)| == 4
  {
    hide Boundary, Turns;
    TopRowBoundary(plots);
    TopRowTurns(plots);
    TopRowSizes();
  }

  /** Only one plot of the example grows D ... */
  lemma OnlyD(g: Garden, q: Plot)
    requires g == Example && Get(g, q) == Some('D')
    ensures q == (1, 3)
  {
  }

  /** ... and A grows only on the top row. */
  lemma OnlyAOnTop(g: Garden, q: Plot)
    requires g == Example && Get(g, q) == Some('A')
    ensures q.0 == 0
  {
  }

  /** Region D of the example is the single plot at (1, 3): its neighbours
      grow other crops. */
  lemma RegionD(g: Garden)
    requires g == Example
    ensures Component(g, (1, 3)) == {(1, 3)}
    ensures |Boundary(Component(g, (1, 3)))| == 4
  {
    var plots := {(1, 3)};
    ComponentHasStart(g, (1, 3));
    forall q | Get(g, q) == Some('D')
      ensures q == (1, 3)
    {
      OnlyD(g, q);
    }
    assert ClosedOn(g, 'D', plots, plots);
    ComponentInside(g, plots, (1, 3));
    SinglePlot(plots, (1, 3));
  }

  /** Region A of the example is the top row ... */
  lemma RegionAPlots(g: Garden)
    requires g == Example
    ensures Component(g, (0, 0)) == {(0, 0), (0, 1), (0, 2), (0, 3)}
  {
    hide Boundary, Turns;
    var plots := {(0, 0), (0, 1), (0, 2), (0, 3)};
    forall q | Get(g, q) == Some('A')
      ensures q.0 == 0
    {
      OnlyAOnTop(g, q);
    }
    assert ClosedOn(g, 'A', plots, plots);
    ComponentHasStart(g, (0, 0));
    ComponentInside(g, plots, (0, 0));
    ConnectedStep(g, (0, 0), (0, 0), (0, 1));
    ConnectedStep(g, (0, 0), (0, 1), (0, 2));
    ConnectedStep(g, (0, 0), (0, 2), (0, 3));
    CellsOnGrid(g, (0, 1));
    CellsOnGrid(g, (0, 2));
    CellsOnGrid(g, (0, 3));
  }

  /** ... fenced ten times, with four sides. */
  lemma RegionA(g: Garden)
    requires g == Example
    ensures |Boundary(Component(g, (0, 0)))| == 10 && |Turns(Component(g, (0, 0)))| == 4
  {
    hide Component, Boundary, Turns;
    RegionAPlots(g);
    RowOfFour(Component(g, (0, 0)));
  }
}
