/** Day 10: hiking trails on a topographic map. A trail climbs one unit per
    orthogonal step from height 0 to height 9; a trailhead's score is the
    number of peaks it reaches and its rating the number of distinct trails. */
module Day10 {
  import opened Common

  /** Heights are stored as bytes. */
  type Height = h: nat | h < 256

  /** The map, row by row; rows may differ in length. */
  datatype Grid = Grid(cells: seq<seq<Height>>)

  /** Cell coordinates (row, column). */
  type Coordinate = (nat, nat)

  // ---- Parsing ----

  /** The heights of the digit characters of a line, other characters dropped. */
  function DigitHeights(line: string): (r: seq<Height>)
    ensures |r| == |Digits(line)|
    ensures forall i :: 0 <= i < |r| ==> r[i] == DigitValue(Digits(line)[i])
  {
    var ds := Digits(line);
    seq(|ds|, i requires 0 <= i < |ds| => DigitValue(ds[i]) as Height)
  }

  /** `parse_input`: one row per line. */
  function ParseInput(s: string): (g: Grid)
    ensures |g.cells| == |Lines(s)|
    ensures forall i :: 0 <= i < |g.cells| ==> g.cells[i] == DigitHeights(Lines(s)[i])
  {
    var lines := Lines(s);
    Grid(seq(|lines|, i requires 0 <= i < |lines| => DigitHeights(lines[i])))
  }

  /** Every height is a single decimal digit. */
  predicate DigitGrid(g: Grid)
  {
    forall r, c :: 0 <= r < |g.cells| && 0 <= c < |g.cells[r]| ==> g.cells[r][c] < 10
  }

  function DigitChar(h: Height): char
    requires h < 10
  {
    ('0' as int + h) as char
  }

  function RenderRow(row: seq<Height>): (line: string)
    requires forall c :: 0 <= c < |row| ==> row[c] < 10
    ensures |line| == |row| && forall c :: 0 <= c < |row| ==> line[c] == DigitChar(row[c])
  {
    seq(|row|, c requires 0 <= c < |row| => DigitChar(row[c]))
  }

  /** The map written out as text, one line of digits per row. */
  function Render(g: Grid): string
    requires DigitGrid(g)
  {
    JoinLines(seq(|g.cells|, r requires 0 <= r < |g.cells| => RenderRow(g.cells[r])))
  }

  lemma {:induction false} DigitsOfDigitLine(line: string)
    requires forall i :: 0 <= i < |line| ==> IsDigit(line[i])
    ensures Digits(line) == line
  {
    if line != [] {
      DigitsOfDigitLine(line[1..]);
      assert [line[0]] + line[1..] == line;
    }
  }

  /** Parsing a rendered map gives the map back. */
  lemma ParseRender(g: Grid)
    requires DigitGrid(g)
    ensures ParseInput(Render(g)) == g
  {
    hide Lines, JoinLines, Digits;
    var rows := seq(|g.cells|, r requires 0 <= r < |g.cells| => RenderRow(g.cells[r]));
    forall r | 0 <= r < |rows|
      ensures PlainLine(rows[r])
    {
      assert forall c :: 0 <= c < |rows[r]| ==> rows[r][c] != '\n' && rows[r][c] != '\r';
    }
    LinesOfJoinLines(rows);
    var parsed := ParseInput(Render(g));
    forall r | 0 <= r < |g.cells|
      ensures parsed.cells[r] == g.cells[r]
    {
      DigitsOfDigitLine(rows[r]);
    }
  }

  // ---- Looking around the map ----

  predicate OnGrid(g: Grid, p: Coordinate)
  {
    p.0 < |g.cells| && p.1 < |g.cells[p.0]|
  }

  /** `get`: the height at a cell, None off the grid. */
  function Get(g: Grid, p: Coordinate): (r: Option<Height>)
    ensures r.None? <==> !OnGrid(g, p)
    ensures r.Some? ==> r.value == g.cells[p.0][p.1]
  {
    if p.0 < |g.cells| && p.1 < |g.cells[p.0]| then Some(g.cells[p.0][p.1]) else None
  }

  /** The four directions `adjacent` looks in, in its order. */
  datatype Direction = Up | Right | Down | Left

  function Rank(d: Direction): nat
  {
    match d
    case Up => 0
    case Right => 1
    case Down => 2
    case Left => 3
  }

  /** The cell one step away in direction d, unless a coordinate would be
      negative. */
  function Step(p: Coordinate, d: Direction): Option<Coordinate>
  {
    match d
    case Up => if p.0 > 0 then Some((p.0 - 1, p.1)) else None
    case Right => Some((p.0, p.1 + 1))
    case Down => Some((p.0 + 1, p.1))
    case Left => if p.1 > 0 then Some((p.0, p.1 - 1)) else None
  }

  /** q shares a side with p. */
  predicate IsNeighbour(p: Coordinate, q: Coordinate)
  {
    (q.0 == p.0 && (q.1 == p.1 + 1 || q.1 + 1 == p.1))
    || (q.1 == p.1 && (q.0 == p.0 + 1 || q.0 + 1 == p.0))
  }

  /** The on-grid cells among the steps in the given directions, with heights. */
  function Present(g: Grid, p: Coordinate, ds: seq<Direction>): seq<(Coordinate, Height)>
  {
    if ds == [] then []
    else
      var here := match Step(p, ds[0]) case None => [] case Some(q) => (match Get(g, q) case None => [] case Some(h) => [(q, h)]);
      here + Present(g, p, ds[1..])
  }

  const Directions: seq<Direction> := [Up, Right, Down, Left]

  /** `adjacent`: the on-grid orthogonal neighbours with their heights, in the
      order up, right, down, left. */
  function Adjacent(g: Grid, p: Coordinate): seq<(Coordinate, Height)>
  {
    Present(g, p, Directions)
  }

  /** The direction from p to a neighbour q. */
  function DirectionTo(p: Coordinate, q: Coordinate): Direction
    requires IsNeighbour(p, q)
  {
    if q.0 + 1 == p.0 then Up
    else if q.1 == p.1 + 1 then Right
    else if q.0 == p.0 + 1 then Down
    else Left
  }

  lemma StepIsNeighbour(p: Coordinate, d: Direction, q: Coordinate)
    requires Step(p, d) == Some(q)
    ensures IsNeighbour(p, q) && DirectionTo(p, q) == d
  {
  }

  /** `adjacent` lists exactly the on-grid neighbours with their heights, each
      once, in the order up, right, down, left. */
  lemma AdjacentExact(g: Grid, p: Coordinate)
    ensures |Adjacent(g, p)| <= 4
    ensures forall q, h :: (q, h) in Adjacent(g, p) <==> IsNeighbour(p, q) && Get(g, q) == Some(h)
    ensures NeighboursInOrder(p, Adjacent(g, p))
  {
    var a := Adjacent(g, p);
    PresentInOrder(g, p, Directions);
    forall q, h | IsNeighbour(p, q) && Get(g, q) == Some(h)
      ensures (q, h) in a
    {
      var d := DirectionTo(p, q);
      assert Step(p, d) == Some(q);
      PresentComplete(g, p, Directions, Rank(d));
    }
    forall i | 0 <= i < |a|
      ensures a[i] in a
    {
    }
  }

  /** Directions listed in increasing rank. */
  predicate RankOrdered(ds: seq<Direction>)
  {
    forall i, j :: 0 <= i < j < |ds| ==> Rank(ds[i]) < Rank(ds[j])
  }

  /** Neighbours of p listed in increasing rank of their direction. */
  predicate NeighboursInOrder(p: Coordinate, r: seq<(Coordinate, Height)>)
  {
    (forall i :: 0 <= i < |r| ==> IsNeighbour(p, r[i].0))
    && forall i, j :: 0 <= i < j < |r| ==> Rank(DirectionTo(p, r[i].0)) < Rank(DirectionTo(p, r[j].0))
  }

  /** Each listed neighbour lies in one of the directions and has the height listed. */
  predicate ListedFrom(g: Grid, p: Coordinate, ds: seq<Direction>, r: seq<(Coordinate, Height)>)
  {
    forall i :: 0 <= i < |r| ==> IsNeighbour(p, r[i].0) && DirectionTo(p, r[i].0) in ds && Get(g, r[i].0) == Some(r[i].1)
  }

  lemma {:induction false} PresentInOrder(g: Grid, p: Coordinate, ds: seq<Direction>)
    requires RankOrdered(ds)
    ensures |Present(g, p, ds)| <= |ds|
    ensures ListedFrom(g, p, ds, Present(g, p, ds))
    ensures NeighboursInOrder(p, Present(g, p, ds))
  {
    if ds != [] {
      var rest := Present(g, p, ds[1..]);
      PresentInOrder(g, p, ds[1..]);
      ListedWider(g, p, ds, rest);
      var r := Present(g, p, ds);
      match Step(p, ds[0])
      case None =>
        assert r == rest;
      case Some(q) =>
        StepIsNeighbour(p, ds[0], q);
        match Get(g, q)
        case None =>
          assert r == rest;
        case Some(h) =>
          assert r == [(q, h)] + rest;
          ListedCons(g, p, ds, q, h, rest);
    }
  }

  /** A neighbour in the first direction goes in front of those in the later ones. */
  lemma ListedCons(g: Grid, p: Coordinate, ds: seq<Direction>, q: Coordinate, h: Height, rest: seq<(Coordinate, Height)>)
    requires ds != [] && IsNeighbour(p, q) && DirectionTo(p, q) == ds[0] && Get(g, q) == Some(h)
    requires ListedFrom(g, p, ds, rest) && NeighboursInOrder(p, rest)
    requires forall i :: 0 <= i < |rest| ==> Rank(DirectionTo(p, rest[i].0)) > Rank(ds[0])
    ensures ListedFrom(g, p, ds, [(q, h)] + rest) && NeighboursInOrder(p, [(q, h)] + rest)
  {
    var r := [(q, h)] + rest;
    assert forall i :: 1 <= i < |r| ==> r[i] == rest[i - 1];
  }

  /** A neighbour listed from the later directions is listed from them all. */
  lemma ListedWider(g: Grid, p: Coordinate, ds: seq<Direction>, r: seq<(Coordinate, Height)>)
    requires ds != [] && RankOrdered(ds) && ListedFrom(g, p, ds[1..], r)
    ensures ListedFrom(g, p, ds, r)
    ensures forall i :: 0 <= i < |r| ==> Rank(DirectionTo(p, r[i].0)) > Rank(ds[0])
  {
    forall i | 0 <= i < |r|
      ensures DirectionTo(p, r[i].0) in ds && Rank(DirectionTo(p, r[i].0)) > Rank(ds[0])
    {
      var k :| 0 <= k < |ds[1..]| && ds[1..][k] == DirectionTo(p, r[i].0);
      assert ds[k + 1] == ds[1..][k];
    }
  }

  lemma {:induction false} PresentComplete(g: Grid, p: Coordinate, ds: seq<Direction>, k: nat)
    requires k < |ds| && Step(p, ds[k]).Some? && Get(g, Step(p, ds[k]).value).Some?
    ensures (Step(p, ds[k]).value, Get(g, Step(p, ds[k]).value).value) in Present(g, p, ds)
  {
    if k > 0 {
      assert ds[1..][k - 1] == ds[k];
      PresentComplete(g, p, ds[1..], k - 1);
    }
  }

  // ---- Trails ----

  /** b is one step from a and exactly one unit higher. */
  predicate Climb(g: Grid, a: Coordinate, b: Coordinate)
  {
    IsNeighbour(a, b) && Get(g, a).Some? && Get(g, b).Some? && Get(g, b).value == Get(g, a).value + 1
  }

  /** A hiking trail from p: a gradual climb from p ending on height 9. */
  predicate IsTrailFrom(g: Grid, p: Coordinate, t: seq<Coordinate>)
  {
    |t| >= 1 && t[0] == p && Get(g, t[|t| - 1]) == Some(9)
    && forall i :: 0 <= i < |t| - 1 ==> Climb(g, t[i], t[i + 1])
  }

  /** The measure the climbing recursions decrease: heights only go up. */
  function Headroom(g: Grid, p: Coordinate): nat
  {
    match Get(g, p)
    case None => 0
    case Some(h) => 256 - h
  }

  /** Entries of an `adjacent` list carry the heights of their cells. */
  predicate Heights(g: Grid, adj: seq<(Coordinate, Height)>)
  {
    forall i :: 0 <= i < |adj| ==> Get(g, adj[i].0) == Some(adj[i].1)
  }

  lemma AdjacentHeights(g: Grid, p: Coordinate)
    ensures Heights(g, Adjacent(g, p))
  {
    AdjacentExact(g, p);
    assert forall i :: 0 <= i < |Adjacent(g, p)| ==> Adjacent(g, p)[i] in Adjacent(g, p);
  }

  /** `get_peaks`: the height-9 cells reachable by climbing from p. */
  function Peaks(g: Grid, p: Coordinate): set<Coordinate>
    decreases Headroom(g, p), 1
  {
    match Get(g, p)
    case None => {}
    case Some(n) =>
      if n == 9 then {p}
      else
        AdjacentHeights(g, p);
        PeaksOver(g, Adjacent(g, p), n)
  }

  /** The union of the peaks of the neighbours exactly one above n. */
  function PeaksOver(g: Grid, adj: seq<(Coordinate, Height)>, n: Height): set<Coordinate>
    requires Heights(g, adj)
    decreases 256 - n, 0, |adj|
  {
    if adj == [] then {}
    else (if adj[0].1 == n + 1 then Peaks(g, adj[0].0) else {}) + PeaksOver(g, adj[1..], n)
  }

  /** Off a peak, the peaks and the rating come from the `adjacent` list. */
  lemma ClimbStep(g: Grid, p: Coordinate, n: Height, adj: seq<(Coordinate, Height)>)
    requires Get(g, p) == Some(n) && n != 9 && Adjacent(g, p) == adj
    ensures Heights(g, adj)
    ensures Peaks(g, p) == PeaksOver(g, adj, n) && Rating(g, p) == RatingOver(g, adj, n)
  {
    AdjacentHeights(g, p);
  }

  /** `score_points`. */
  function Score(g: Grid, p: Coordinate): nat
  {
    |Peaks(g, p)|
  }

  /** `rate_points`: 1 on a peak, else the sum over the neighbours one higher. */
  function Rating(g: Grid, p: Coordinate): nat
    decreases Headroom(g, p), 1
  {
    match Get(g, p)
    case None => 0
    case Some(n) =>
      if n == 9 then 1
      else
        AdjacentHeights(g, p);
        RatingOver(g, Adjacent(g, p), n)
  }

  function RatingOver(g: Grid, adj: seq<(Coordinate, Height)>, n: Height): nat
    requires Heights(g, adj)
    decreases 256 - n, 0, |adj|
  {
    if adj == [] then 0
    else (if adj[0].1 == n + 1 then Rating(g, adj[0].0) else 0) + RatingOver(g, adj[1..], n)
  }

  /** The trails from p, enumerated along the same recursion. */
  function Trails(g: Grid, p: Coordinate): set<seq<Coordinate>>
    decreases Headroom(g, p), 1
  {
    match Get(g, p)
    case None => {}
    case Some(n) =>
      if n == 9 then {[p]}
      else
        AdjacentHeights(g, p);
        TrailsOver(g, p, Adjacent(g, p), n)
  }

  function TrailsOver(g: Grid, p: Coordinate, adj: seq<(Coordinate, Height)>, n: Height): set<seq<Coordinate>>
    requires Heights(g, adj)
    decreases 256 - n, 0, |adj|
  {
    if adj == [] then {}
    else (if adj[0].1 == n + 1 then Prefixed(p, Trails(g, adj[0].0)) else {}) + TrailsOver(g, p, adj[1..], n)
  }

  function Prefixed(p: Coordinate, ts: set<seq<Coordinate>>): set<seq<Coordinate>>
  {
    set t | t in ts :: [p] + t
  }

  // ---- What the recursions compute ----

  /** Along a climb, the height at position i is the start height plus i. */
  lemma {:induction false} ClimbHeights(g: Grid, t: seq<Coordinate>, i: nat)
    requires |t| >= 1 && Get(g, t[0]).Some? && i < |t|
    requires forall k :: 0 <= k < |t| - 1 ==> Climb(g, t[k], t[k + 1])
    ensures Get(g, t[i]).Some? && Get(g, t[i]).value == Get(g, t[0]).value + i
  {
    if i > 0 {
      ClimbHeights(g, t, i - 1);
    }
  }

  /** A trail from a peak is the peak alone. */
  lemma TrailFromPeak(g: Grid, p: Coordinate, t: seq<Coordinate>)
    requires IsTrailFrom(g, p, t) && Get(g, p) == Some(9)
    ensures t == [p]
  {
    ClimbHeights(g, t, |t| - 1);
  }

  /** A longer trail is a climb to a neighbour followed by a trail from it. */
  lemma TrailTail(g: Grid, p: Coordinate, t: seq<Coordinate>)
    requires IsTrailFrom(g, p, t) && |t| >= 2
    ensures Climb(g, p, t[1]) && IsTrailFrom(g, t[1], t[1..])
  {
    var u := t[1..];
    forall i | 0 <= i < |u| - 1
      ensures Climb(g, u[i], u[i + 1])
    {
      assert u[i] == t[i + 1] && u[i + 1] == t[i + 2];
    }
  }

  /** A climb to q followed by a trail from q is a trail. */
  lemma TrailCons(g: Grid, p: Coordinate, q: Coordinate, t: seq<Coordinate>)
    requires Climb(g, p, q) && IsTrailFrom(g, q, t)
    ensures IsTrailFrom(g, p, [p] + t)
  {
    var s := [p] + t;
    forall i | 0 <= i < |s| - 1
      ensures Climb(g, s[i], s[i + 1])
    {
      if i > 0 {
        assert s[i] == t[i - 1] && s[i + 1] == t[i];
      }
    }
  }

  /** A trail that does not start on a peak starts below 9 and goes on to a
      neighbour exactly one higher. */
  lemma TrailLeavesStart(g: Grid, p: Coordinate, t: seq<Coordinate>)
    requires IsTrailFrom(g, p, t) && Get(g, p) != Some(9)
    ensures |t| >= 2 && Get(g, p).Some? && Get(g, p).value < 9
    ensures (t[1], Get(g, p).value + 1) in Adjacent(g, p)
    ensures IsTrailFrom(g, t[1], t[1..])
  {
    assert |t| >= 2;
    TrailTail(g, p, t);
    ClimbHeights(g, t, |t| - 1);
    AdjacentExact(g, p);
  }

  /** An entry of the list, one above n, contributes its peaks. */
  lemma {:induction false} PeaksOverHas(g: Grid, adj: seq<(Coordinate, Height)>, n: Height, i: nat, q: Coordinate)
    requires Heights(g, adj) && i < |adj| && adj[i].1 == n + 1 && q in Peaks(g, adj[i].0)
    ensures q in PeaksOver(g, adj, n)
    decreases i
  {
    if i > 0 {
      assert adj[1..][i - 1] == adj[i];
      PeaksOverHas(g, adj[1..], n, i - 1, q);
    }
  }

  /** Every peak of the list comes from an entry one above n. */
  lemma {:induction false} PeaksOverFrom(g: Grid, adj: seq<(Coordinate, Height)>, n: Height, q: Coordinate)
    requires Heights(g, adj) && q in PeaksOver(g, adj, n)
    ensures exists i :: 0 <= i < |adj| && adj[i].1 == n + 1 && q in Peaks(g, adj[i].0)
  {
    assert adj != [];
    if !(adj[0].1 == n + 1 && q in Peaks(g, adj[0].0)) {
      PeaksOverFrom(g, adj[1..], n, q);
      var i :| 0 <= i < |adj[1..]| && adj[1..][i].1 == n + 1 && q in Peaks(g, adj[1..][i].0);
      assert adj[1..][i] == adj[i + 1];
    }
  }

  lemma AdjacentAt(g: Grid, p: Coordinate, i: nat)
    requires i < |Adjacent(g, p)|
    ensures Climb(g, p, Adjacent(g, p)[i].0) <==> Get(g, p).Some? && Adjacent(g, p)[i].1 == Get(g, p).value + 1
  {
    AdjacentExact(g, p);
    assert Adjacent(g, p)[i] in Adjacent(g, p);
  }

  /** Every peak reached from p ends a trail from p. */
  lemma {:induction false} PeakEndsTrail(g: Grid, p: Coordinate, q: Coordinate)
    requires q in Peaks(g, p)
    ensures exists t :: IsTrailFrom(g, p, t) && t[|t| - 1] == q
    decreases Headroom(g, p)
  {
    var n := Get(g, p).value;
    if n == 9 {
      assert IsTrailFrom(g, p, [p]);
    } else {
      var adj := Adjacent(g, p);
      AdjacentHeights(g, p);
      PeaksOverFrom(g, adj, n, q);
      var i :| 0 <= i < |adj| && adj[i].1 == n + 1 && q in Peaks(g, adj[i].0);
      AdjacentAt(g, p, i);
      PeakEndsTrail(g, adj[i].0, q);
      var t :| IsTrailFrom(g, adj[i].0, t) && t[|t| - 1] == q;
      TrailCons(g, p, adj[i].0, t);
      assert ([p] + t)[|[p] + t| - 1] == q;
    }
  }

  /** The end of every trail from p is a peak reached from p. */
  lemma {:induction false} TrailEndIsPeak(g: Grid, p: Coordinate, t: seq<Coordinate>)
    requires IsTrailFrom(g, p, t)
    ensures t[|t| - 1] in Peaks(g, p)
    decreases |t|
  {
    if Get(g, p) == Some(9) {
      TrailFromPeak(g, p, t);
    } else {
      TrailLeavesStart(g, p, t);
      var n := Get(g, p).value;
      var adj := Adjacent(g, p);
      AdjacentHeights(g, p);
      var i :| 0 <= i < |adj| && adj[i] == (t[1], n + 1);
      TrailEndIsPeak(g, t[1], t[1..]);
      PeaksOverHas(g, adj, n, i, t[|t| - 1]);
    }
  }

  /** The peaks reached from p are exactly the ends of the trails from p. */
  lemma PeaksAreTrailEnds(g: Grid, p: Coordinate, q: Coordinate)
    ensures q in Peaks(g, p) <==> exists t :: IsTrailFrom(g, p, t) && t[|t| - 1] == q
  {
    if q in Peaks(g, p) {
      PeakEndsTrail(g, p, q);
    }
    forall t | IsTrailFrom(g, p, t) && t[|t| - 1] == q
      ensures q in Peaks(g, p)
    {
      TrailEndIsPeak(g, p, t);
    }
  }

  /** An entry of the list, one above n, contributes its trails behind p. */
  lemma {:induction false} TrailsOverHas(g: Grid, p: Coordinate, adj: seq<(Coordinate, Height)>, n: Height, i: nat, t: seq<Coordinate>)
    requires Heights(g, adj) && i < |adj| && adj[i].1 == n + 1 && t in Trails(g, adj[i].0)
    ensures [p] + t in TrailsOver(g, p, adj, n)
    decreases i
  {
    if i > 0 {
      assert adj[1..][i - 1] == adj[i];
      TrailsOverHas(g, p, adj[1..], n, i - 1, t);
    }
  }

  /** Every trail of the list is p followed by a trail of an entry one above n. */
  lemma {:induction false} TrailsOverFrom(g: Grid, p: Coordinate, adj: seq<(Coordinate, Height)>, n: Height, t: seq<Coordinate>)
    requires Heights(g, adj) && t in TrailsOver(g, p, adj, n)
    ensures |t| >= 1 && t[0] == p
    ensures exists i :: 0 <= i < |adj| && adj[i].1 == n + 1 && t[1..] in Trails(g, adj[i].0)
  {
    assert adj != [];
    if adj[0].1 == n + 1 && t in Prefixed(p, Trails(g, adj[0].0)) {
      var u :| u in Trails(g, adj[0].0) && t == [p] + u;
      assert t[1..] == u;
    } else {
      TrailsOverFrom(g, p, adj[1..], n, t);
      var i :| 0 <= i < |adj[1..]| && adj[1..][i].1 == n + 1 && t[1..] in Trails(g, adj[1..][i].0);
      assert adj[1..][i] == adj[i + 1];
    }
  }

  /** Every enumerated trail is a trail. */
  lemma {:induction false} TrailsSound(g: Grid, p: Coordinate, t: seq<Coordinate>)
    requires t in Trails(g, p)
    ensures IsTrailFrom(g, p, t)
    decreases Headroom(g, p)
  {
    var n := Get(g, p).value;
    if n != 9 {
      var adj := Adjacent(g, p);
      AdjacentHeights(g, p);
      TrailsOverFrom(g, p, adj, n, t);
      var i :| 0 <= i < |adj| && adj[i].1 == n + 1 && t[1..] in Trails(g, adj[i].0);
      AdjacentAt(g, p, i);
      TrailsSound(g, adj[i].0, t[1..]);
      TrailCons(g, p, adj[i].0, t[1..]);
      assert [p] + t[1..] == t;
    }
  }

  /** Every trail is enumerated. */
  lemma {:induction false} TrailsComplete(g: Grid, p: Coordinate, t: seq<Coordinate>)
    requires IsTrailFrom(g, p, t)
    ensures t in Trails(g, p)
    decreases |t|
  {
    if Get(g, p) == Some(9) {
      TrailFromPeak(g, p, t);
    } else {
      TrailLeavesStart(g, p, t);
      var n := Get(g, p).value;
      var adj := Adjacent(g, p);
      AdjacentHeights(g, p);
      var i :| 0 <= i < |adj| && adj[i] == (t[1], n + 1);
      TrailsComplete(g, t[1], t[1..]);
      TrailsOverHas(g, p, adj, n, i, t[1..]);
      assert [p] + t[1..] == t;
    }
  }

  /** The enumerated trails from p are exactly the trails from p. */
  lemma TrailsExact(g: Grid, p: Coordinate, t: seq<Coordinate>)
    ensures t in Trails(g, p) <==> IsTrailFrom(g, p, t)
  {
    if t in Trails(g, p) {
      TrailsSound(g, p, t);
    }
    if IsTrailFrom(g, p, t) {
      TrailsComplete(g, p, t);
    }
  }

  // ---- Counting ----

  /** Putting the same cell in front of distinct trails keeps them distinct. */
  lemma {:induction false} PrefixedSize(p: Coordinate, ts: set<seq<Coordinate>>)
    ensures |Prefixed(p, ts)| == |ts|
    decreases |ts|
  {
    if ts != {} {
      var x :| x in ts;
      PrefixedSize(p, ts - {x});
      assert Prefixed(p, ts) == Prefixed(p, ts - {x}) + {[p] + x};
      forall y | y in ts - {x}
        ensures [p] + y != [p] + x
      {
        assert ([p] + y)[1..] == y && ([p] + x)[1..] == x;
      }
    }
  }

  /** The cells an `adjacent` list names, which are all different. */
  predicate DistinctCells(adj: seq<(Coordinate, Height)>)
  {
    forall i, j :: 0 <= i < j < |adj| ==> adj[i].0 != adj[j].0
  }

  lemma AdjacentDistinct(g: Grid, p: Coordinate)
    ensures DistinctCells(Adjacent(g, p))
  {
    AdjacentExact(g, p);
  }

  /** A rating counts the distinct trails. */
  lemma {:induction false} RatingCountsTrails(g: Grid, p: Coordinate)
    ensures Rating(g, p) == |Trails(g, p)|
    decreases Headroom(g, p), 1
  {
    match Get(g, p)
    case None =>
    case Some(n) =>
      if n != 9 {
        AdjacentHeights(g, p);
        AdjacentDistinct(g, p);
        RatingOverCountsTrails(g, p, Adjacent(g, p), n);
      }
  }

  lemma {:induction false} RatingOverCountsTrails(g: Grid, p: Coordinate, adj: seq<(Coordinate, Height)>, n: Height)
    requires Heights(g, adj) && DistinctCells(adj)
    ensures RatingOver(g, adj, n) == |TrailsOver(g, p, adj, n)|
    decreases 256 - n, 0, |adj|
  {
    if adj != [] {
      RatingOverCountsTrails(g, p, adj[1..], n);
      if adj[0].1 == n + 1 {
        var a := adj[0].0;
        RatingCountsTrails(g, a);
        PrefixedSize(p, Trails(g, a));
        var here, rest := Prefixed(p, Trails(g, a)), TrailsOver(g, p, adj[1..], n);
        forall t | t in here
          ensures |t| >= 2 && t[1] == a
        {
          var u :| u in Trails(g, a) && t == [p] + u;
          TrailsSound(g, a, u);
        }
        forall t | t in rest
          ensures |t| >= 2 && t[1] != a
        {
          TrailsOverFrom(g, p, adj[1..], n, t);
          var i :| 0 <= i < |adj[1..]| && t[1..] in Trails(g, adj[1..][i].0);
          TrailsSound(g, adj[1..][i].0, t[1..]);
          assert adj[1..][i] == adj[i + 1];
        }
        assert here * rest == {};
      }
    }
  }

  /** A trailhead never reaches more peaks than it has trails. */
  lemma {:induction false} ScoreAtMostRating(g: Grid, p: Coordinate)
    ensures Score(g, p) <= Rating(g, p)
    decreases Headroom(g, p), 1
  {
    match Get(g, p)
    case None =>
    case Some(n) =>
      if n != 9 {
        AdjacentHeights(g, p);
        PeaksOverAtMostRating(g, Adjacent(g, p), n);
      }
  }

  lemma {:induction false} PeaksOverAtMostRating(g: Grid, adj: seq<(Coordinate, Height)>, n: Height)
    requires Heights(g, adj)
    ensures |PeaksOver(g, adj, n)| <= RatingOver(g, adj, n)
    decreases 256 - n, 0, |adj|
  {
    if adj != [] {
      PeaksOverAtMostRating(g, adj[1..], n);
      var here := if adj[0].1 == n + 1 then Peaks(g, adj[0].0) else {};
      if adj[0].1 == n + 1 {
        ScoreAtMostRating(g, adj[0].0);
      }
      var rest := PeaksOver(g, adj[1..], n);
      assert |here + rest| <= |here| + |rest| by {
        assert |here + rest| + |here * rest| == |here| + |rest|;
      }
    }
  }

  // ---- Trailheads and totals ----

  /** Coordinates in reading order. */
  predicate RowMajorBefore(a: Coordinate, b: Coordinate)
  {
    a.0 < b.0 || (a.0 == b.0 && a.1 < b.1)
  }

  predicate InReadingOrder(cs: seq<Coordinate>)
  {
    forall i, j :: 0 <= i < j < |cs| ==> RowMajorBefore(cs[i], cs[j])
  }

  /** The height-0 cells of row r from column c on, left to right. */
  function RowZeros(row: seq<Height>, r: nat, c: nat): (zs: seq<Coordinate>)
    ensures forall q :: q in zs <==> q.0 == r && c <= q.1 < |row| && row[q.1] == 0
    ensures forall i, j :: 0 <= i < j < |zs| ==> zs[i].0 == r && zs[i].1 < zs[j].1
    decreases |row| - c
  {
    if c >= |row| then []
    else (if row[c] == 0 then [(r, c)] else []) + RowZeros(row, r, c + 1)
  }

  /** The height-0 cells of the rows from r on, in reading order. */
  function ZerosFrom(g: Grid, r: nat): (zs: seq<Coordinate>)
    ensures forall q :: q in zs <==> r <= q.0 && Get(g, q) == Some(0)
    ensures InReadingOrder(zs)
    decreases |g.cells| - r
  {
    if r >= |g.cells| then []
    else
      var here, rest := RowZeros(g.cells[r], r, 0), ZerosFrom(g, r + 1);
      assert forall i :: 0 <= i < |here| ==> here[i] in here;
      assert forall j :: 0 <= j < |rest| ==> rest[j] in rest;
      here + rest
  }

  /** `trailheads`: every height-0 cell, each once, in reading order. */
  function Trailheads(g: Grid): (zs: seq<Coordinate>)
    ensures forall q :: q in zs <==> Get(g, q) == Some(0)
    ensures InReadingOrder(zs)
  {
    ZerosFrom(g, 0)
  }

  function Scores(g: Grid, ps: seq<Coordinate>): seq<nat>
  {
    if ps == [] then [] else [Score(g, ps[0])] + Scores(g, ps[1..])
  }

  function Ratings(g: Grid, ps: seq<Coordinate>): seq<nat>
  {
    if ps == [] then [] else [Rating(g, ps[0])] + Ratings(g, ps[1..])
  }

  /** `total_score`. */
  function TotalScore(g: Grid): nat
  {
    Sum(Scores(g, Trailheads(g)))
  }

  /** `total_rating`. */
  function TotalRating(g: Grid): nat
  {
    Sum(Ratings(g, Trailheads(g)))
  }

  lemma {:induction false} ScoresAtMostRatings(g: Grid, ps: seq<Coordinate>)
    ensures Sum(Scores(g, ps)) <= Sum(Ratings(g, ps))
  {
    if ps != [] {
      ScoreAtMostRating(g, ps[0]);
      ScoresAtMostRatings(g, ps[1..]);
    }
  }

  /** The total score never exceeds the total rating. */
  lemma TotalScoreAtMostRating(g: Grid)
    ensures TotalScore(g) <= TotalRating(g)
  {
    ScoresAtMostRatings(g, Trailheads(g));
  }
}
