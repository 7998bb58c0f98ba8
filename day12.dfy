/** Day 12: a garden of plots, each growing one crop. A region is a connected
    patch of one crop; its fence costs its area times its perimeter, or, with
    the bulk discount, its area times its number of straight sides. */
module Day12 {
  import opened Common

  /** A plot's (row, column). */
  type Plot = (nat, nat)

  // ---- Offsets and sides ----

  /** A signed (row, column) offset. */
  datatype Delta = Delta(dr: int, dc: int)

  const Up := Delta(-1, 0)
  const RightDelta := Delta(0, 1)
  const Down := Delta(1, 0)
  const LeftDelta := Delta(0, -1)

  function Add(a: Delta, b: Delta): (r: Delta)
    ensures r.dr == a.dr + b.dr && r.dc == a.dc + b.dc
  {
    Delta(a.dr + b.dr, a.dc + b.dc)
  }

  /** `Delta::apply_to`: the plot the offset leads to, or None where a
      coordinate would drop below zero. */
  function ApplyTo(d: Delta, p: Plot): (r: Option<Plot>)
    ensures r.Some? <==> p.0 + d.dr >= 0 && p.1 + d.dc >= 0
    ensures r.Some? ==> r.value.0 == p.0 + d.dr && r.value.1 == p.1 + d.dc
  {
    if p.0 + d.dr >= 0 && p.1 + d.dc >= 0 then Some(((p.0 + d.dr) as nat, (p.1 + d.dc) as nat))
    else None
  }

  /** Which side of a plot a fence segment lies on. */
  datatype Side = Top | Right | Bottom | Left

  const AllSides: set<Side> := {Top, Right, Bottom, Left}

  /** Straight out of the plot through that side. */
  function CrossOutwardsDelta(s: Side): Delta
  {
    match s
    case Top => Up
    case Right => RightDelta
    case Bottom => Down
    case Left => LeftDelta
  }

  function TurnClockwise(s: Side): Side
  {
    match s
    case Top => Right
    case Right => Bottom
    case Bottom => Left
    case Left => Top
  }

  function TurnCounterClockwise(s: Side): Side
  {
    match s
    case Top => Left
    case Right => Top
    case Bottom => Right
    case Left => Bottom
  }

  /** Along the fence, keeping the region on the right-hand side. */
  function FollowClockwiseDelta(s: Side): Delta
  {
    CrossOutwardsDelta(TurnClockwise(s))
  }

  /** The diagonal plot reached by going out through the side and then along
      the fence. */
  function ConcaveDelta(s: Side): (d: Delta)
    ensures d == Add(CrossOutwardsDelta(s), FollowClockwiseDelta(s))
  {
    match s
    case Top => Add(Up, RightDelta)
    case Right => Add(RightDelta, Down)
    case Bottom => Add(Down, LeftDelta)
    case Left => Add(LeftDelta, Up)
  }

  /** The two turns undo each other. */
  lemma TurnsAreInverse(s: Side)
    ensures TurnCounterClockwise(TurnClockwise(s)) == s
    ensures TurnClockwise(TurnCounterClockwise(s)) == s
  {
  }

  /** Four turns the same way come back to the start. */
  lemma FourTurns(s: Side)
    ensures TurnClockwise(TurnClockwise(TurnClockwise(TurnClockwise(s)))) == s
    ensures TurnCounterClockwise(TurnCounterClockwise(TurnCounterClockwise(TurnCounterClockwise(s)))) == s
  {
  }

  /** Turning clockwise turns the outward offset a quarter turn clockwise, and
      no offset is shared by two sides. */
  lemma OutwardsRotate(s: Side)
    ensures CrossOutwardsDelta(TurnClockwise(s)) == Delta(CrossOutwardsDelta(s).dc, -CrossOutwardsDelta(s).dr)
    ensures forall t :: CrossOutwardsDelta(t) == CrossOutwardsDelta(s) ==> t == s
  {
  }

  // ---- Regions as sets of plots ----

  /** `Region::contains`: the optional plot is one of the plots. */
  predicate Contains(plots: set<Plot>, o: Option<Plot>)
  {
    o.Some? && o.value in plots
  }

  /** The plot on the far side of a side. */
  function Beyond(p: Plot, s: Side): Option<Plot>
  {
    ApplyTo(CrossOutwardsDelta(s), p)
  }

  /** The fence segments of a set of plots: every (plot, side) whose far side
      is not one of the plots. Their number is the perimeter. */
  function Boundary(plots: set<Plot>): set<(Plot, Side)>
  {
    set p, s | p in plots && s in AllSides && !Contains(plots, Beyond(p, s)) :: (p, s)
  }

  /** A fence segment where the fence turns when it is followed clockwise:
      either the diagonal plot is in the region (an inside corner) or the
      next plot along is not (an outside corner). */
  predicate TurnsAt(plots: set<Plot>, p: Plot, s: Side)
  {
    Contains(plots, ApplyTo(ConcaveDelta(s), p)) || !Contains(plots, ApplyTo(FollowClockwiseDelta(s), p))
  }

  /** The segments that end a straight side. Every side ends in exactly one
      such segment, so their number is the number of sides. */
  function Turns(plots: set<Plot>): (r: set<(Plot, Side)>)
    ensures r <= Boundary(plots)
  {
    set p, s | p in plots && s in AllSides && !Contains(plots, Beyond(p, s)) && TurnsAt(plots, p, s) :: (p, s)
  }

  /** A region never has more sides than fence segments. */
  lemma SidesAtMostPerimeter(plots: set<Plot>)
    ensures |Turns(plots)| <= |Boundary(plots)|
  {
    SubsetCard(Turns(plots), Boundary(plots));
  }


  /** A segment is on the fence exactly when its plot is in the region and
      the plot beyond it is not. */
  lemma InBoundary(plots: set<Plot>, p: Plot, s: Side)
    ensures (p, s) in Boundary(plots) <==> p in plots && !Contains(plots, Beyond(p, s))
  {
    assert s in AllSides;
  }

  /** Out through the counter-clockwise side is back against the direction
      the fence is followed. */
  lemma CounterClockwiseOutwards(s: Side)
    ensures CrossOutwardsDelta(TurnCounterClockwise(s)) == Delta(-FollowClockwiseDelta(s).dr, -FollowClockwiseDelta(s).dc)
  {
    match s
    case Top =>
    case Right =>
    case Bottom =>
    case Left =>
  }

  /** Around an inside corner: the diagonal plot's side facing back is a
      fence segment. */
  lemma NextAroundInside(plots: set<Plot>, p: Plot, s: Side)
    requires (p, s) in Boundary(plots)
    requires Contains(plots, ApplyTo(ConcaveDelta(s), p))
    ensures (ApplyTo(ConcaveDelta(s), p).value, TurnCounterClockwise(s)) in Boundary(plots)
  {
    hide Boundary;
    var q := ApplyTo(ConcaveDelta(s), p).value;
    InBoundary(plots, p, s);
    InBoundary(plots, q, TurnCounterClockwise(s));
    CounterClockwiseOutwards(s);
    assert Beyond(q, TurnCounterClockwise(s)) == Beyond(p, s);
  }

  /** Straight on: the next plot along has a fence on the same side. */
  lemma NextStraight(plots: set<Plot>, p: Plot, s: Side)
    requires (p, s) in Boundary(plots)
    requires !Contains(plots, ApplyTo(ConcaveDelta(s), p)) && Contains(plots, ApplyTo(FollowClockwiseDelta(s), p))
    ensures (ApplyTo(FollowClockwiseDelta(s), p).value, s) in Boundary(plots)
  {
    hide Boundary;
    var q := ApplyTo(FollowClockwiseDelta(s), p).value;
    InBoundary(plots, q, s);
    assert Beyond(q, s) == ApplyTo(ConcaveDelta(s), p);
  }

  /** Around an outside corner: the same plot has a fence on the next side
      clockwise. */
  lemma NextAroundOutside(plots: set<Plot>, p: Plot, s: Side)
    requires (p, s) in Boundary(plots)
    requires !Contains(plots, ApplyTo(FollowClockwiseDelta(s), p))
    ensures (p, TurnClockwise(s)) in Boundary(plots)
  {
    hide Boundary;
    InBoundary(plots, p, s);
    InBoundary(plots, p, TurnClockwise(s));
    assert Beyond(p, TurnClockwise(s)) == ApplyTo(FollowClockwiseDelta(s), p);
  }

  /** Adding one new segment to the visited ones adds one to the turns among
      them exactly when it is a turn. */
  lemma TurnsVisited(plots: set<Plot>, visited: set<(Plot, Side)>, p: Plot, s: Side)
    requires (p, s) !in visited
    ensures |Turns(plots) * (visited + {(p, s)})| ==
      |Turns(plots) * visited| + (if (p, s) in Turns(plots) then 1 else 0)
  {
    var t := Turns(plots);
    if (p, s) in t {
      assert t * (visited + {(p, s)}) == (t * visited) + {(p, s)};
    } else {
      assert t * (visited + {(p, s)}) == t * visited;
    }
  }

  /** One step of the walk: marking an unvisited fence segment leaves fewer
      segments to visit, and adds one turn exactly where the fence turns. */
  lemma MarkSegment(plots: set<Plot>, visited: set<(Plot, Side)>, p: Plot, s: Side)
    requires (p, s) in Boundary(plots) && (p, s) !in visited && visited <= Boundary(plots)
    ensures visited + {(p, s)} <= Boundary(plots)
    ensures |Boundary(plots) - (visited + {(p, s)})| < |Boundary(plots) - visited|
    ensures |Turns(plots) * (visited + {(p, s)})| ==
      |Turns(plots) * visited| + (if TurnsAt(plots, p, s) then 1 else 0)
  {
    var b := Boundary(plots);
    SubsetCardStrict(b - (visited + {(p, s)}), b - visited, (p, s));
    TurnsVisited(plots, visited, p, s);
    assert (p, s) in Turns(plots) <==> TurnsAt(plots, p, s) by {
      assert s in AllSides;
    }
  }

  /** A region: its crop, its plots, and the perimeter counted while it was
      walked. */
  class Region {
    var crop: char
    var plots: set<Plot>
    var perimeter: nat

    /** `Region::new`: no plots yet, no fence yet. */
    constructor (crop: char)
      ensures this.crop == crop && plots == {} && perimeter == 0
    {
      this.crop := crop;
      plots := {};
      perimeter := 0;
    }

    /** `Region::walk_perimeter`: follow the fence clockwise from a segment,
        marking segments as visited, until it reaches a visited one. The count
        grows by one at every segment where the fence turns. */
    method WalkPerimeter(plot: Plot, side: Side, visited: set<(Plot, Side)>, edgeCount: nat)
      returns (visitedOut: set<(Plot, Side)>, count: nat)
      requires (plot, side) in Boundary(plots)
      requires visited <= Boundary(plots)
      ensures visited <= visitedOut <= Boundary(plots)
      ensures (plot, side) in visitedOut
      ensures count + |Turns(plots) * visited| == edgeCount + |Turns(plots) * visitedOut|
      decreases |Boundary(plots) - visited|
    {
      if (plot, side) in visited {
        return visited, edgeCount;
      }
      hide Boundary, Turns;
      var marked := visited + {(plot, side)};
      MarkSegment(plots, visited, plot, side);
      var nextConcave := ApplyTo(ConcaveDelta(side), plot);
      var nextStraight := ApplyTo(FollowClockwiseDelta(side), plot);
      if Contains(plots, nextConcave) {
        NextAroundInside(plots, plot, side);
        visitedOut, count := WalkPerimeter(nextConcave.value, TurnCounterClockwise(side), marked, edgeCount + 1);
      } else if Contains(plots, nextStraight) {
        NextStraight(plots, plot, side);
        visitedOut, count := WalkPerimeter(nextStraight.value, side, marked, edgeCount);
      } else {
        NextAroundOutside(plots, plot, side);
        visitedOut, count := WalkPerimeter(plot, TurnClockwise(side), marked, edgeCount + 1);
      }
    }

    /** `Region::count_edges`: start a walk at every fence segment not yet
        visited; the total is the number of sides. */
    method CountEdges() returns (edgeCount: nat)
      ensures edgeCount == |Turns(plots)|
    {
      var visited: set<(Plot, Side)> := {};
      edgeCount := 0;
      var remaining := plots;
      while remaining != {}
        invariant remaining <= plots
        invariant visited <= Boundary(plots)
        invariant VisitedOutside(plots, visited, remaining)
        invariant edgeCount == |Turns(plots) * visited|
        decreases |remaining|
      {
        var plot :| plot in remaining;
        visited, edgeCount := VisitSides(plot, visited, edgeCount);
        remaining := remaining - {plot};
      }
      assert visited == Boundary(plots);
      assert Turns(plots) * visited == Turns(plots);
    }

    /** The inner loop of `Region::count_edges`: walk from each of the four
        sides of one plot that carries a fence and has not been visited. */
    method VisitSides(plot: Plot, visited: set<(Plot, Side)>, edgeCount: nat)
      returns (visitedOut: set<(Plot, Side)>, count: nat)
      requires plot in plots
      requires visited <= Boundary(plots)
      requires edgeCount == |Turns(plots) * visited|
      ensures visited <= visitedOut <= Boundary(plots)
      ensures forall s :: (plot, s) in Boundary(plots) ==> (plot, s) in visitedOut
      ensures count == |Turns(plots) * visitedOut|
    {
      hide Boundary, Turns;
      visitedOut, count := visited, edgeCount;
      var sides := [Top, Right, Bottom, Left];
      var j := 0;
      while j < 4
        invariant 0 <= j <= 4
        invariant visited <= visitedOut <= Boundary(plots)
        invariant forall k :: 0 <= k < j && (plot, sides[k]) in Boundary(plots) ==> (plot, sides[k]) in visitedOut
        invariant count == |Turns(plots) * visitedOut|
      {
        var side := sides[j];
        OnBoundary(plots, plot, side);
        if !Contains(plots, ApplyTo(CrossOutwardsDelta(side), plot)) {
          var v, n := WalkPerimeter(plot, side, visitedOut, 0);
          visitedOut, count := v, count + n;
        }
        j := j + 1;
      }
      forall s | (plot, s) in Boundary(plots)
        ensures (plot, s) in visitedOut
      {
        assert s == sides[0] || s == sides[1] || s == sides[2] || s == sides[3];
      }
    }
  }

  /** A side of a plot carries a fence exactly when its far side is not in the region. */
  lemma OnBoundary(plots: set<Plot>, p: Plot, s: Side)
    requires p in plots
    ensures (p, s) in Boundary(plots) <==> !Contains(plots, Beyond(p, s))
  {
    assert s in AllSides;
  }

  /** Every fence segment of a plot already dealt with has been visited. */
  ghost predicate VisitedOutside(plots: set<Plot>, visited: set<(Plot, Side)>, remaining: set<Plot>)
  {
    forall p, s :: (p, s) in Boundary(plots) && p !in remaining ==> (p, s) in visited
  }

  lemma SubsetCardStrict<T>(a: set<T>, b: set<T>, x: T)
    requires a <= b && x in b && x !in a
    ensures |a| < |b|
  {
    SubsetCard(a, b - {x});
  }

  // ---- The garden ----

  /** The crops, row by row. */
  datatype Garden = Garden(plots: seq<seq<char>>)

  predicate OnGrid(g: Garden, p: Plot)
  {
    p.0 < |g.plots| && p.1 < |g.plots[p.0]|
  }

  /** `Garden::get`: the crop at a plot, or None off the garden. */
  function Get(g: Garden, p: Plot): (r: Option<char>)
    ensures r.Some? <==> OnGrid(g, p)
    ensures r.Some? ==> r.value == g.plots[p.0][p.1]
  {
    if OnGrid(g, p) then Some(g.plots[p.0][p.1]) else None
  }

  /** Every plot of the garden. */
  ghost function Cells(g: Garden): set<Plot>
  {
    set r: nat, c: nat | r < |g.plots| && c < |g.plots[r]| :: (r, c)
  }

  lemma CellsOnGrid(g: Garden, p: Plot)
    ensures p in Cells(g) <==> OnGrid(g, p)
  {
    if OnGrid(g, p) {
      var (r, c) := p;
      assert (r, c) in Cells(g);
    }
  }

  /** The neighbour through one side, with its crop, if it is in the garden. */
  function Neighbour(g: Garden, p: Plot, s: Side): seq<(Plot, char)>
  {
    match Beyond(p, s)
    case Some(q) => if OnGrid(g, q) then [(q, g.plots[q.0][q.1])] else []
    case None => []
  }

  /** Two plots that share a side. */
  predicate AreNeighbours(p: Plot, q: Plot)
  {
    (p.0 == q.0 && (p.1 + 1 == q.1 || q.1 + 1 == p.1)) ||
    (p.1 == q.1 && (p.0 + 1 == q.0 || q.0 + 1 == p.0))
  }

  /** `Garden::adjacent`: the neighbours that are in the garden, with their
      crops, looking up, right, down and left. */
  function Adjacent(g: Garden, p: Plot): (r: seq<(Plot, char)>)
    ensures |r| <= 4
    ensures forall i :: 0 <= i < |r| ==> AreNeighbours(p, r[i].0) && Get(g, r[i].0) == Some(r[i].1)
  {
    Neighbour(g, p, Top) + Neighbour(g, p, Right) + Neighbour(g, p, Bottom) + Neighbour(g, p, Left)
  }

  /** Every neighbour in the garden is listed. */
  lemma AdjacentComplete(g: Garden, p: Plot, q: Plot)
    requires AreNeighbours(p, q) && OnGrid(g, q)
    ensures (q, g.plots[q.0][q.1]) in Adjacent(g, p)
  {
    var x := (q, g.plots[q.0][q.1]);
    if q.0 + 1 == p.0 {
      assert Beyond(p, Top) == Some(q);
      assert x in Neighbour(g, p, Top);
    } else if q.1 == p.1 + 1 {
      assert Beyond(p, Right) == Some(q);
      assert x in Neighbour(g, p, Right);
    } else if q.0 == p.0 + 1 {
      assert Beyond(p, Bottom) == Some(q);
      assert x in Neighbour(g, p, Bottom);
    } else {
      assert Beyond(p, Left) == Some(q);
      assert x in Neighbour(g, p, Left);
    }
  }

  // ---- Fences against other crops ----

  /** The side of a plot needs a fence in a region of this crop: nothing lies
      beyond it in the garden, or a different crop does. */
  predicate Fenced(g: Garden, crop: char, p: Plot, s: Side)
  {
    Neighbour(g, p, s) == [] || Neighbour(g, p, s)[0].1 != crop
  }

  /** The fence segments of some plots, judged by the crops around them. */
  function FencePairs(g: Garden, crop: char, plots: set<Plot>): set<(Plot, Side)>
  {
    set p, s | p in plots && s in AllSides && Fenced(g, crop, p, s) :: (p, s)
  }

  /** How many listed neighbours grow a different crop. */
  function DiffCount(adjacent: seq<(Plot, char)>, crop: char): (r: nat)
    ensures r <= |adjacent|
  {
    if adjacent == [] then 0
    else (if adjacent[0].1 != crop then 1 else 0) + DiffCount(adjacent[1..], crop)
  }

  lemma {:induction false} DiffCountAppend(a: seq<(Plot, char)>, b: seq<(Plot, char)>, crop: char)
    ensures DiffCount(a + b, crop) == DiffCount(a, crop) + DiffCount(b, crop)
  {
    if a == [] {
      assert a + b == b;
    } else {
      assert (a + b)[1..] == a[1..] + b;
      DiffCountAppend(a[1..], b, crop);
    }
  }

  lemma DiffCountSnoc(a: seq<(Plot, char)>, i: nat, crop: char)
    requires i < |a|
    ensures DiffCount(a[..i + 1], crop) == DiffCount(a[..i], crop) + (if a[i].1 != crop then 1 else 0)
  {
    assert a[..i + 1] == a[..i] + [a[i]];
    DiffCountAppend(a[..i], [a[i]], crop);
    assert DiffCount([a[i]], crop) == (if a[i].1 != crop then 1 else 0) by {
      assert [a[i]][1..] == [a[i]][..0];
    }
  }

  /** One side's share: a fence there, or a listed neighbour, and the
      neighbour counts once more when its crop differs. */
  function SideFence(g: Garden, crop: char, p: Plot, s: Side): set<(Plot, Side)>
  {
    if Fenced(g, crop, p, s) then {(p, s)} else {}
  }

  lemma SideShare(g: Garden, crop: char, p: Plot, s: Side)
    ensures |SideFence(g, crop, p, s)| + |Neighbour(g, p, s)| == 1 + DiffCount(Neighbour(g, p, s), crop)
  {
    var n := Neighbour(g, p, s);
    if n != [] {
      assert n[1..] == [];
    }
  }

  /** A plot's fence segments, side by side. */
  lemma FenceBySide(g: Garden, crop: char, p: Plot)
    ensures |FencePairs(g, crop, {p})| ==
      |SideFence(g, crop, p, Top)| + |SideFence(g, crop, p, Right)| + |SideFence(g, crop, p, Bottom)| + |SideFence(g, crop, p, Left)|
  {
    var t, r, b, l := SideFence(g, crop, p, Top), SideFence(g, crop, p, Right), SideFence(g, crop, p, Bottom), SideFence(g, crop, p, Left);
    FenceSplit(g, crop, p);
    assert |t + r| == |t| + |r| by {
      assert t !! r;
    }
    assert |t + r + b| == |t + r| + |b| by {
      assert (t + r) !! b;
    }
    assert |t + r + b + l| == |t + r + b| + |l| by {
      assert (t + r + b) !! l;
    }
  }

  lemma FenceSplit(g: Garden, crop: char, p: Plot)
    ensures FencePairs(g, crop, {p}) ==
      SideFence(g, crop, p, Top) + SideFence(g, crop, p, Right) + SideFence(g, crop, p, Bottom) + SideFence(g, crop, p, Left)
  {
    hide Fenced;
  }

  /** `walk_region_iter` adds `4 - adjacent.len()` for the garden's edge and
      one per neighbour of another crop: together, the plot's fence segments. */
  lemma FenceCount(g: Garden, crop: char, p: Plot)
    ensures |FencePairs(g, crop, {p})| + |Adjacent(g, p)| == 4 + DiffCount(Adjacent(g, p), crop)
  {
    FenceBySide(g, crop, p);
    SideShare(g, crop, p, Top);
    SideShare(g, crop, p, Right);
    SideShare(g, crop, p, Bottom);
    SideShare(g, crop, p, Left);
    var nt, nr, nb, nl := Neighbour(g, p, Top), Neighbour(g, p, Right), Neighbour(g, p, Bottom), Neighbour(g, p, Left);
    DiffCountAppend(nt, nr, crop);
    DiffCountAppend(nt + nr, nb, crop);
    DiffCountAppend(nt + nr + nb, nl, crop);
  }

  /** Fence segments of disjoint sets of plots add up. */
  lemma FencePairsUnion(g: Garden, crop: char, a: set<Plot>, b: set<Plot>)
    requires a !! b
    ensures |FencePairs(g, crop, a + b)| == |FencePairs(g, crop, a)| + |FencePairs(g, crop, b)|
  {
    assert FencePairs(g, crop, a + b) == FencePairs(g, crop, a) + FencePairs(g, crop, b);
    assert FencePairs(g, crop, a) !! FencePairs(g, crop, b);
  }

  // ---- Connected regions ----

  /** A path through plots of one crop, each step to a neighbour. */
  predicate IsWalk(g: Garden, crop: char, path: seq<Plot>)
  {
    |path| >= 1 &&
    (forall i :: 0 <= i < |path| ==> Get(g, path[i]) == Some(crop)) &&
    (forall i :: 0 <= i < |path| - 1 ==> AreNeighbours(path[i], path[i + 1]))
  }

  /** b can be reached from a without leaving a's crop. */
  ghost predicate Connected(g: Garden, a: Plot, b: Plot)
  {
    OnGrid(g, a) &&
    exists path :: IsWalk(g, g.plots[a.0][a.1], path) && path[0] == a && path[|path| - 1] == b
  }

  /** The region of a plot: every plot connected to it. */
  ghost function Component(g: Garden, a: Plot): set<Plot>
  {
    set p | p in Cells(g) && Connected(g, a, p)
  }

  lemma ConnectedSelf(g: Garden, a: Plot)
    requires OnGrid(g, a)
    ensures Connected(g, a, a)
  {
    assert IsWalk(g, g.plots[a.0][a.1], [a]);
  }

  /** A same-crop neighbour of a connected plot is connected too. */
  lemma ConnectedStep(g: Garden, a: Plot, b: Plot, c: Plot)
    requires Connected(g, a, b) && AreNeighbours(b, c) && Get(g, c) == Get(g, a)
    ensures Connected(g, a, c)
  {
    var crop := g.plots[a.0][a.1];
    var path :| IsWalk(g, crop, path) && path[0] == a && path[|path| - 1] == b;
    var longer := path + [c];
    assert IsWalk(g, crop, longer);
  }

  /** A walk read backwards is a walk from its end to its start. */
  lemma WalkBack(g: Garden, crop: char, path: seq<Plot>) returns (back: seq<Plot>)
    requires IsWalk(g, crop, path)
    ensures IsWalk(g, crop, back) && back[0] == path[|path| - 1] && back[|back| - 1] == path[0]
  {
    back := seq(|path|, i requires 0 <= i < |path| => path[|path| - 1 - i]);
    forall i | 0 <= i < |back| - 1
      ensures AreNeighbours(back[i], back[i + 1])
    {
      assert AreNeighbours(path[|path| - 2 - i], path[|path| - 1 - i]);
    }
  }

  /** A walk ending where another starts continues into it. */
  lemma WalkJoin(g: Garden, crop: char, p1: seq<Plot>, p2: seq<Plot>)
    requires IsWalk(g, crop, p1) && IsWalk(g, crop, p2) && p1[|p1| - 1] == p2[0]
    ensures IsWalk(g, crop, p1 + p2[1..])
  {
    var whole := p1 + p2[1..];
    forall i | 0 <= i < |whole| - 1
      ensures AreNeighbours(whole[i], whole[i + 1])
    {
      if i + 1 < |p1| {
        assert whole[i] == p1[i] && whole[i + 1] == p1[i + 1];
      } else {
        assert whole[i] == p2[i + 1 - |p1|] && whole[i + 1] == p2[i + 2 - |p1|];
      }
    }
  }

  /** Two plots connected to a common plot are connected to each other. */
  lemma ConnectedThrough(g: Garden, a: Plot, b: Plot, q: Plot)
    requires Connected(g, a, q) && Connected(g, b, q)
    ensures Connected(g, a, b)
  {
    var crop := g.plots[a.0][a.1];
    var p1 :| IsWalk(g, crop, p1) && p1[0] == a && p1[|p1| - 1] == q;
    var p2 :| IsWalk(g, g.plots[b.0][b.1], p2) && p2[0] == b && p2[|p2| - 1] == q;
    assert Get(g, q) == Some(crop);
    var back := WalkBack(g, crop, p2);
    WalkJoin(g, crop, p1, back);
    var whole := p1 + back[1..];
    assert whole[0] == a && whole[|whole| - 1] == b;
  }

  /** Components of two plots are the same set or do not meet. */
  lemma ComponentsMeet(g: Garden, a: Plot, b: Plot, q: Plot)
    ensures q in Component(g, a) && q in Component(g, b) ==> b in Component(g, a)
  {
    if q in Component(g, a) && q in Component(g, b) {
      ConnectedThrough(g, a, b, q);
      CellsOnGrid(g, b);
    }
  }

  /** Every plot of `cover` has its same-crop neighbours in `plots`. */
  ghost predicate ClosedOn(g: Garden, crop: char, plots: set<Plot>, cover: set<Plot>)
  {
    forall p, q :: p in cover && AreNeighbours(p, q) && Get(g, q) == Some(crop) ==> q in plots
  }

  lemma ClosedOnGrow(g: Garden, crop: char, s1: set<Plot>, s2: set<Plot>, t1: set<Plot>, t2: set<Plot>)
    requires ClosedOn(g, crop, s1, t1) && s1 <= s2 && ClosedOn(g, crop, s2, t2)
    ensures ClosedOn(g, crop, s2, t1 + t2)
  {
  }

  /** A set closed under same-crop neighbours holds every walk that starts in it. */
  lemma {:induction false} WalkStaysInside(g: Garden, crop: char, plots: set<Plot>, path: seq<Plot>)
    requires IsWalk(g, crop, path) && path[0] in plots && ClosedOn(g, crop, plots, plots)
    ensures path[|path| - 1] in plots
    decreases |path|
  {
    if |path| > 1 {
      var front := path[..|path| - 1];
      assert IsWalk(g, crop, front);
      WalkStaysInside(g, crop, plots, front);
    }
  }

  /** ... and so the whole component of any of its plots. */
  lemma ComponentInside(g: Garden, plots: set<Plot>, start: Plot)
    requires OnGrid(g, start) && start in plots
    requires ClosedOn(g, g.plots[start.0][start.1], plots, plots)
    ensures Component(g, start) <= plots
  {
    forall p | p in Component(g, start)
      ensures p in plots
    {
      var path :| IsWalk(g, g.plots[start.0][start.1], path) && path[0] == start && path[|path| - 1] == p;
      WalkStaysInside(g, g.plots[start.0][start.1], plots, path);
    }
  }

  /** What the walk keeps true of a region's plots: on the garden, of the
      region's crop, and connected to the start. */
  ghost predicate RegionOk(g: Garden, crop: char, start: Plot, plots: set<Plot>)
  {
    forall q :: q in plots ==> OnGrid(g, q) && g.plots[q.0][q.1] == crop && Connected(g, start, q)
  }

  lemma RegionOnGarden(g: Garden, crop: char, start: Plot, plots: set<Plot>)
    requires RegionOk(g, crop, start, plots)
    ensures plots <= Cells(g)
  {
    forall q | q in plots
      ensures q in Cells(g)
    {
      CellsOnGrid(g, q);
    }
  }

  /** For a closed set of one crop, the segments fenced against other crops
      are exactly the segments with no plot of the set beyond them. */
  lemma FenceIsBoundary(g: Garden, crop: char, start: Plot, plots: set<Plot>)
    requires RegionOk(g, crop, start, plots) && ClosedOn(g, crop, plots, plots)
    ensures FencePairs(g, crop, plots) == Boundary(plots)
  {
    forall p, s | p in plots && s in AllSides
      ensures Fenced(g, crop, p, s) <==> !Contains(plots, Beyond(p, s))
    {
      match Beyond(p, s)
      case None =>
      case Some(q) =>
        assert AreNeighbours(p, q) by {
          match s
          case Top =>
          case Right =>
          case Bottom =>
          case Left =>
        }
    }
  }

  // ---- Walking a region ----

  /** The first n neighbours listed that grow the crop are among the plots. */
  ghost predicate SameCropListed(adjacent: seq<(Plot, char)>, n: nat, crop: char, plots: set<Plot>)
  {
    forall k :: 0 <= k < n && k < |adjacent| && adjacent[k].1 == crop ==> adjacent[k].0 in plots
  }

  lemma NothingNew(g: Garden, crop: char, plots: set<Plot>)
    ensures |FencePairs(g, crop, {})| == 0 && ClosedOn(g, crop, plots, {})
  {
    assert FencePairs(g, crop, {}) == {};
  }

  lemma ListedGrow(adjacent: seq<(Plot, char)>, i: nat, crop: char, plots: set<Plot>, more: set<Plot>)
    requires i < |adjacent| && SameCropListed(adjacent, i, crop, plots) && plots <= more
    requires adjacent[i].1 == crop ==> adjacent[i].0 in more
    ensures SameCropListed(adjacent, i + 1, crop, more)
  {
  }

  /** `Garden::walk_region_iter`: depth first from a plot. A plot of another
      crop adds one fence segment; a new plot of the region's crop joins the
      region, adds its segments on the garden's edge, and the walk goes on to
      its neighbours. */
  method WalkRegionIter(g: Garden, plot: Plot, region: Region, ghost start: Plot)
    requires OnGrid(g, plot) && Get(g, start) == Some(region.crop)
    requires RegionOk(g, region.crop, start, region.plots)
    requires g.plots[plot.0][plot.1] == region.crop ==> Connected(g, start, plot)
    modifies region
    ensures region.crop == old(region.crop)
    ensures old(region.plots) <= region.plots
    ensures RegionOk(g, region.crop, start, region.plots)
    ensures g.plots[plot.0][plot.1] == region.crop ==> plot in region.plots
    ensures ClosedOn(g, region.crop, region.plots, region.plots - old(region.plots))
    ensures region.perimeter == old(region.perimeter) + (if g.plots[plot.0][plot.1] == region.crop then 0 else 1)
      + |FencePairs(g, region.crop, region.plots - old(region.plots))|
    decreases |Cells(g) - region.plots|, 1
  {
    hide Cells, FencePairs, Component, Boundary, Turns, Connected, Adjacent, Neighbour, DiffCount;
    var crop := g.plots[plot.0][plot.1];
    if crop != region.crop {
      region.perimeter := region.perimeter + 1;
      assert region.plots - old(region.plots) == {};
      NothingNew(g, region.crop, region.plots);
      return;
    }
    if plot in region.plots {
      assert region.plots - old(region.plots) == {};
      NothingNew(g, crop, region.plots);
      return;
    }
    ghost var before := region.plots;
    RegionOnGarden(g, crop, start, before);
    CellsOnGrid(g, plot);
    region.plots := region.plots + {plot};
    ghost var after := region.plots;
    SubsetCardStrict(Cells(g) - after, Cells(g) - before, plot);
    var adjacent := Adjacent(g, plot);
    FenceCount(g, crop, plot);
    region.perimeter := region.perimeter + (4 - |adjacent|);
    assert region.plots - after == {};
    WalkNeighbours(g, plot, adjacent, region, start, |Cells(g) - before|);
    forall q | AreNeighbours(plot, q) && Get(g, q) == Some(crop)
      ensures q in region.plots
    {
      AdjacentComplete(g, plot, q);
      var k :| 0 <= k < |adjacent| && adjacent[k] == (q, crop);
      assert SameCropListed(adjacent, |adjacent|, crop, region.plots);
    }
    assert region.plots - before == {plot} + (region.plots - after);
    FencePairsUnion(g, crop, {plot}, region.plots - after);
  }

  /** The `for_each` over the neighbours of a plot that has just joined the
      region: each is walked in turn. */
  method WalkNeighbours(g: Garden, plot: Plot, adjacent: seq<(Plot, char)>, region: Region, ghost start: Plot, ghost bound: nat)
    requires adjacent == Adjacent(g, plot) && plot in region.plots
    requires OnGrid(g, plot) && g.plots[plot.0][plot.1] == region.crop && Get(g, start) == Some(region.crop)
    requires RegionOk(g, region.crop, start, region.plots)
    requires |Cells(g) - region.plots| < bound
    modifies region
    ensures region.crop == old(region.crop)
    ensures old(region.plots) <= region.plots
    ensures RegionOk(g, region.crop, start, region.plots)
    ensures SameCropListed(adjacent, |adjacent|, region.crop, region.plots)
    ensures ClosedOn(g, region.crop, region.plots, region.plots - old(region.plots))
    ensures region.perimeter == old(region.perimeter) + DiffCount(adjacent, region.crop)
      + |FencePairs(g, region.crop, region.plots - old(region.plots))|
    decreases bound, 0
  {
    hide Cells, FencePairs, Component, Boundary, Turns, Adjacent, ClosedOn, Connected;
    var crop := region.crop;
    ghost var after := region.plots;
    ghost var base := region.perimeter;
    assert region.plots - after == {};
    NothingNew(g, crop, region.plots);
    var i := 0;
    while i < |adjacent|
      invariant 0 <= i <= |adjacent|
      invariant region.crop == crop
      invariant after <= region.plots
      invariant RegionOk(g, crop, start, region.plots)
      invariant SameCropListed(adjacent, i, crop, region.plots)
      invariant ClosedOn(g, crop, region.plots, region.plots - after)
      invariant region.perimeter == base + DiffCount(adjacent[..i], crop) + |FencePairs(g, crop, region.plots - after)|
      invariant |Cells(g) - region.plots| < bound
    {
      var next := adjacent[i].0;
      ghost var prev := region.plots;
      assert Get(g, next) == Some(adjacent[i].1);
      if adjacent[i].1 == crop {
        ConnectedStep(g, start, plot, next);
      }
      WalkRegionIter(g, next, region, start);
      FencePairsUnion(g, crop, prev - after, region.plots - prev);
      assert region.plots - after == (prev - after) + (region.plots - prev);
      ClosedOnGrow(g, crop, prev, region.plots, prev - after, region.plots - prev);
      DiffCountSnoc(adjacent, i, crop);
      RegionOnGarden(g, crop, start, region.plots);
      SubsetCard(Cells(g) - region.plots, Cells(g) - prev);
      ListedGrow(adjacent, i, crop, prev, region.plots);
      i := i + 1;
    }
    assert adjacent[..i] == adjacent;
  }

  /** `Garden::walk_region`: the region of the start plot's crop holding the
      start is exactly its connected component, and the perimeter counted on
      the way is its number of fence segments. */
  method WalkRegion(g: Garden, start: Plot) returns (region: Region)
    requires OnGrid(g, start)
    ensures fresh(region)
    ensures region.crop == g.plots[start.0][start.1]
    ensures region.plots == Component(g, start)
    ensures region.perimeter == |Boundary(region.plots)|
  {
    region := new Region(g.plots[start.0][start.1]);
    ConnectedSelf(g, start);
    WalkRegionIter(g, start, region, start);
    assert region.plots - {} == region.plots;
    ComponentInside(g, region.plots, start);
    forall q | q in Component(g, start)
      ensures q in region.plots
    {
    }
    forall q | q in region.plots
      ensures q in Component(g, start)
    {
      CellsOnGrid(g, q);
    }
    FenceIsBoundary(g, region.crop, start, region.plots);
  }

  // ---- All the regions ----

  /** The plots a walk from plot a reaches are exactly the plots reached
      from any of them. */
  lemma ComponentSame(g: Garden, a: Plot, p: Plot)
    requires p in Component(g, a)
    ensures Component(g, p) == Component(g, a)
  {
    CellsOnGrid(g, p);
    ConnectedSelf(g, p);
    ConnectedThrough(g, p, a, p);
    forall x | x in Component(g, p)
      ensures x in Component(g, a)
    {
      CellsOnGrid(g, x);
      ConnectedSelf(g, x);
      ConnectedThrough(g, x, p, x);
      ConnectedThrough(g, a, x, p);
    }
    forall x | x in Component(g, a)
      ensures x in Component(g, p)
    {
      CellsOnGrid(g, x);
      ConnectedSelf(g, x);
      ConnectedThrough(g, x, a, x);
      ConnectedThrough(g, p, x, a);
    }
  }

  /** The regions of the garden: the component of every plot. */
  ghost function Regions(g: Garden): set<set<Plot>>
  {
    set p | p in Cells(g) :: Component(g, p)
  }

  /** What one region costs: its area times its perimeter, or with the bulk
      discount its area times its number of sides. */
  ghost function Weight(region: set<Plot>, discount: bool): nat
  {
    Cost(|region|, if discount then |Turns(region)| else |Boundary(region)|)
  }

  function Cost(area: nat, fence: nat): nat
  {
    area * fence
  }

  /** The cost of a set of regions, summed in any order. */
  ghost function SumOver(regions: set<set<Plot>>, discount: bool): nat
  {
    if regions == {} then 0
    else
      var r :| r in regions;
      Weight(r, discount) + SumOver(regions - {r}, discount)
  }

  /** The order does not matter: any region can be taken out first. */
  lemma {:induction false} SumOverRemove(regions: set<set<Plot>>, r: set<Plot>, discount: bool)
    requires r in regions
    ensures SumOver(regions, discount) == Weight(r, discount) + SumOver(regions - {r}, discount)
    decreases |regions|
  {
    var x :| x in regions && SumOver(regions, discount) == Weight(x, discount) + SumOver(regions - {x}, discount);
    if x != r {
      SumOverRemove(regions - {x}, r, discount);
      SumOverRemove(regions - {r}, x, discount);
      assert regions - {x} - {r} == regions - {r} - {x};
    }
  }

  /** The fencing cost of the whole garden, with or without the discount. */
  ghost function GardenPrice(g: Garden, discount: bool): nat
  {
    SumOver(Regions(g), discount)
  }

  /** Plots that start distinct regions which together cover the garden. */
  ghost predicate RegionStarts(g: Garden, starts: seq<Plot>)
  {
    (forall i :: 0 <= i < |starts| ==> starts[i] in Cells(g)) &&
    (forall i, j :: 0 <= i < j < |starts| ==> Component(g, starts[i]) !! Component(g, starts[j])) &&
    (forall p :: p in Cells(g) ==> exists i :: 0 <= i < |starts| && p in Component(g, starts[i]))
  }

  /** The cost of the regions of the listed starts, in list order. */
  ghost function PriceOf(g: Garden, starts: seq<Plot>, discount: bool): nat
  {
    if starts == [] then 0
    else PriceOf(g, starts[..|starts| - 1], discount) + Weight(Component(g, starts[|starts| - 1]), discount)
  }

  ghost function ComponentsOf(g: Garden, starts: seq<Plot>): set<set<Plot>>
  {
    set i | 0 <= i < |starts| :: Component(g, starts[i])
  }

  lemma ComponentsOfSnoc(g: Garden, starts: seq<Plot>, s: Plot)
    ensures ComponentsOf(g, starts + [s]) == ComponentsOf(g, starts) + {Component(g, s)}
  {
    hide Component;
    var more := starts + [s];
    forall r | r in ComponentsOf(g, more)
      ensures r in ComponentsOf(g, starts) + {Component(g, s)}
    {
      var i :| 0 <= i < |more| && r == Component(g, more[i]);
      if i < |starts| {
        assert more[i] == starts[i];
      }
    }
    forall r | r in ComponentsOf(g, starts)
      ensures r in ComponentsOf(g, more)
    {
      var i :| 0 <= i < |starts| && r == Component(g, starts[i]);
      assert more[i] == starts[i];
    }
    assert more[|starts|] == s;
  }

  /** Summing the listed regions gives the same as summing the set of them. */
  lemma {:induction false} PriceOfListed(g: Garden, starts: seq<Plot>, discount: bool)
    requires forall i :: 0 <= i < |starts| ==> starts[i] in Cells(g)
    requires forall i, j :: 0 <= i < j < |starts| ==> Component(g, starts[i]) !! Component(g, starts[j])
    ensures PriceOf(g, starts, discount) == SumOver(ComponentsOf(g, starts), discount)
  {
    hide Weight, Boundary, Turns, Cells;
    if starts == [] {
      assert ComponentsOf(g, starts) == {};
    } else {
      var front := starts[..|starts| - 1];
      var last := Component(g, starts[|starts| - 1]);
      PriceOfListed(g, front, discount);
      CellsOnGrid(g, starts[|starts| - 1]);
      ConnectedSelf(g, starts[|starts| - 1]);
      assert starts[|starts| - 1] in last;
      ComponentsOfSnoc(g, front, starts[|starts| - 1]);
      assert front + [starts[|starts| - 1]] == starts;
      assert last !in ComponentsOf(g, front);
      SumOverRemove(ComponentsOf(g, starts), last, discount);
      assert ComponentsOf(g, starts) - {last} == ComponentsOf(g, front);
    }
  }

  /** Any list of starts of the regions prices the garden the same way. */
  lemma PriceOfStarts(g: Garden, starts: seq<Plot>, discount: bool)
    requires RegionStarts(g, starts)
    ensures PriceOf(g, starts, discount) == GardenPrice(g, discount)
  {
    hide Weight, Boundary, Turns, SumOver, PriceOf, Component, Connected, Cells;
    PriceOfListed(g, starts, discount);
    forall r | r in Regions(g)
      ensures r in ComponentsOf(g, starts)
    {
      var p :| p in Cells(g) && r == Component(g, p);
      RegionListed(g, starts, p);
    }
    assert ComponentsOf(g, starts) == Regions(g);
  }

  lemma RegionListed(g: Garden, starts: seq<Plot>, p: Plot)
    requires RegionStarts(g, starts) && p in Cells(g)
    ensures Component(g, p) in ComponentsOf(g, starts)
  {
    hide Component, Connected, Cells;
    var i :| 0 <= i < |starts| && p in Component(g, starts[i]);
    ComponentSame(g, starts[i], p);
  }

  /** The regions found so far: each the component of its start, with the
      perimeter counted by the walk. */
  ghost predicate Found(g: Garden, regions: seq<Region>, starts: seq<Plot>)
    reads regions
  {
    |regions| == |starts| &&
    forall i :: 0 <= i < |regions| ==>
      Get(g, starts[i]) == Some(regions[i].crop) && regions[i].plots == Component(g, starts[i]) &&
      regions[i].perimeter == |Boundary(regions[i].plots)|
  }

  /** The components of the listed starts do not meet. */
  ghost predicate Apart(g: Garden, starts: seq<Plot>)
  {
    forall i, j :: 0 <= i < j < |starts| ==> Component(g, starts[i]) !! Component(g, starts[j])
  }

  /** Every plot before (r, c) in reading order has been visited. */
  ghost predicate Swept(g: Garden, visited: set<Plot>, r: nat, c: nat)
  {
    forall p: Plot :: OnGrid(g, p) && (p.0 < r || (p.0 == r && p.1 < c)) ==> p in visited
  }

  /** A plot outside the regions found so far starts a region apart from them. */
  lemma NewRegionApart(g: Garden, starts: seq<Plot>, s: Plot)
    requires Apart(g, starts) && s !in ComponentsUnion(g, starts)
    ensures Apart(g, starts + [s])
  {
    var more := starts + [s];
    forall i, j | 0 <= i < j < |more|
      ensures Component(g, more[i]) !! Component(g, more[j])
    {
      if j == |starts| {
        forall q | q in Component(g, starts[i])
          ensures q !in Component(g, s)
        {
          ComponentsMeet(g, starts[i], s, q);
        }
      }
    }
  }

  ghost function ComponentsUnion(g: Garden, starts: seq<Plot>): set<Plot>
  {
    set i, p | 0 <= i < |starts| && p in Component(g, starts[i]) :: p
  }

  lemma ComponentsUnionSnoc(g: Garden, starts: seq<Plot>, s: Plot)
    ensures ComponentsUnion(g, starts + [s]) == ComponentsUnion(g, starts) + Component(g, s)
  {
    var more := starts + [s];
    forall p | p in ComponentsUnion(g, more)
      ensures p in ComponentsUnion(g, starts) + Component(g, s)
    {
      var i :| 0 <= i < |more| && p in Component(g, more[i]);
      if i < |starts| {
        assert more[i] == starts[i];
      }
    }
    forall p | p in Component(g, s)
      ensures p in ComponentsUnion(g, more)
    {
      assert more[|starts|] == s;
    }
    forall p | p in ComponentsUnion(g, starts)
      ensures p in ComponentsUnion(g, more)
    {
      var i :| 0 <= i < |starts| && p in Component(g, starts[i]);
      assert more[i] == starts[i];
    }
  }

  /** `Garden::find_regions`: walk the garden in reading order and start a
      region at every plot not yet in one. The regions found are the
      connected components of the garden, each once. */
  method FindRegions(g: Garden) returns (regions: seq<Region>, ghost starts: seq<Plot>)
    ensures Found(g, regions, starts)
    ensures RegionStarts(g, starts)
  {
    var visited: set<Plot> := {};
    regions, starts := [], [];
    var r := 0;
    while r < |g.plots|
      invariant 0 <= r <= |g.plots|
      invariant Found(g, regions, starts) && Apart(g, starts)
      invariant visited == ComponentsUnion(g, starts)
      invariant Swept(g, visited, r, 0)
    {
      regions, starts, visited := FindInRow(g, r, regions, starts, visited);
      r := r + 1;
    }
    forall i | 0 <= i < |starts|
      ensures starts[i] in Cells(g)
    {
      CellsOnGrid(g, starts[i]);
    }
    forall p | p in Cells(g)
      ensures exists i :: 0 <= i < |starts| && p in Component(g, starts[i])
    {
      CellsOnGrid(g, p);
      assert p in ComponentsUnion(g, starts);
    }
  }

  /** One row of `Garden::find_regions`. */
  method FindInRow(g: Garden, r: nat, regions: seq<Region>, ghost starts: seq<Plot>, visited: set<Plot>)
    returns (regionsOut: seq<Region>, ghost startsOut: seq<Plot>, visitedOut: set<Plot>)
    requires r < |g.plots|
    requires Found(g, regions, starts) && Apart(g, starts)
    requires visited == ComponentsUnion(g, starts)
    requires Swept(g, visited, r, 0)
    ensures Found(g, regionsOut, startsOut) && Apart(g, startsOut)
    ensures visitedOut == ComponentsUnion(g, startsOut)
    ensures Swept(g, visitedOut, r + 1, 0)
  {
    hide Component, Connected, Cells, Boundary, Turns, Swept, Found, Apart, ComponentsUnion;
    regionsOut, startsOut, visitedOut := regions, starts, visited;
    var c: nat := 0;
    while c < |g.plots[r]|
      invariant 0 <= c <= |g.plots[r]|
      invariant Found(g, regionsOut, startsOut) && Apart(g, startsOut)
      invariant visitedOut == ComponentsUnion(g, startsOut)
      invariant Swept(g, visitedOut, r, c)
    {
      ghost var before := visitedOut;
      if (r, c) !in visitedOut {
        regionsOut, startsOut, visitedOut := NewRegion(g, (r, c), regionsOut, startsOut, visitedOut);
      }
      SweptStep(g, before, visitedOut, r, c);
      c := c + 1;
    }
    SweptRow(g, visitedOut, r);
  }

  /** The body of the loop in `find_regions` for an unvisited plot: walk its
      region and record it. */
  method NewRegion(g: Garden, p: Plot, regions: seq<Region>, ghost starts: seq<Plot>, visited: set<Plot>)
    returns (regionsOut: seq<Region>, ghost startsOut: seq<Plot>, visitedOut: set<Plot>)
    requires OnGrid(g, p) && p !in visited
    requires Found(g, regions, starts) && Apart(g, starts)
    requires visited == ComponentsUnion(g, starts)
    ensures Found(g, regionsOut, startsOut) && Apart(g, startsOut)
    ensures visitedOut == ComponentsUnion(g, startsOut)
    ensures visited + {p} <= visitedOut
  {
    hide Component, Connected, Cells, Boundary, Turns;
    var region := WalkRegion(g, p);
    NewRegionApart(g, starts, p);
    ComponentsUnionSnoc(g, starts, p);
    ComponentHasStart(g, p);
    visitedOut := visited + region.plots;
    regionsOut, startsOut := regions + [region], starts + [p];
  }

  lemma ComponentHasStart(g: Garden, s: Plot)
    requires OnGrid(g, s)
    ensures s in Component(g, s)
  {
    ConnectedSelf(g, s);
    CellsOnGrid(g, s);
  }

  lemma SweptStep(g: Garden, visited: set<Plot>, visitedOut: set<Plot>, r: nat, c: nat)
    requires Swept(g, visited, r, c) && visited <= visitedOut && (r, c) in visitedOut
    ensures Swept(g, visitedOut, r, c + 1)
  {
  }

  lemma SweptRow(g: Garden, visited: set<Plot>, r: nat)
    requires r < |g.plots| && Swept(g, visited, r, |g.plots[r]|)
    ensures Swept(g, visited, r + 1, 0)
  {
  }

  lemma PriceOfNone(g: Garden, starts: seq<Plot>, discount: bool)
    ensures PriceOf(g, starts[..0], discount) == 0
  {
  }

  lemma PriceOfPrefix(g: Garden, starts: seq<Plot>, i: nat, discount: bool)
    requires i < |starts|
    ensures PriceOf(g, starts[..i + 1], discount) == PriceOf(g, starts[..i], discount) + Weight(Component(g, starts[i]), discount)
  {
    assert starts[..i + 1][..i] == starts[..i];
  }

  /** `Garden::total_fencing_cost`: area times perimeter, summed over the regions. */
  method TotalFencingCost(g: Garden) returns (total: nat)
    ensures total == GardenPrice(g, false)
  {
    hide Boundary, Turns, Component, Cells, RegionStarts, Cost, PriceOf;
    var regions, starts := FindRegions(g);
    total := 0;
    var i := 0;
    PriceOfNone(g, starts, false);
    while i < |regions|
      invariant 0 <= i <= |regions|
      invariant Found(g, regions, starts)
      invariant total == PriceOf(g, starts[..i], false)
    {
      assert regions[i].plots == Component(g, starts[i]);
      total := total + Cost(|regions[i].plots|, regions[i].perimeter);
      PriceOfPrefix(g, starts, i, false);
      i := i + 1;
    }
    assert starts[..i] == starts;
    PriceOfStarts(g, starts, false);
  }

  /** `Garden::total_fencing_cost_with_discount`: area times number of sides,
      summed over the regions. */
  method TotalFencingCostWithDiscount(g: Garden) returns (total: nat)
    ensures total == GardenPrice(g, true)
  {
    hide Boundary, Turns, Component, Cells, RegionStarts, Cost, PriceOf;
    var regions, starts := FindRegions(g);
    total := 0;
    var i := 0;
    PriceOfNone(g, starts, true);
    while i < |regions|
      invariant 0 <= i <= |regions|
      invariant Found(g, regions, starts)
      invariant total == PriceOf(g, starts[..i], true)
    {
      ghost var plots := regions[i].plots;
      assert plots == Component(g, starts[i]);
      var sides := regions[i].CountEdges();
      total := total + Cost(|regions[i].plots|, sides);
      PriceOfPrefix(g, starts, i, true);
      i := i + 1;
    }
    assert starts[..i] == starts;
    PriceOfStarts(g, starts, true);
  }

  /** `parse_input`: one row of crops per line. */
  function ParseInput(s: string): (g: Garden)
    ensures |g.plots| == |Lines(s)|
  {
    Garden(Lines(s))
  }

  /** A garden written out one row per line reads back unchanged. */
  lemma ParseRoundTrip(g: Garden)
    requires forall r :: 0 <= r < |g.plots| ==> PlainLine(g.plots[r])
    ensures ParseInput(JoinLines(g.plots)) == g
  {
    LinesOfJoinLines(g.plots);
  }
}
