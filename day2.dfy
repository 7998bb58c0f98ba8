/** Day 2: reports of levels that must move steadily in one direction, with
    a dampener that forgives a single bad level. */
module Day2 {
  import opened Common

  type Report = seq<nat>

  /** `parse_line`: the space-separated pieces that parse as u32, in order;
      any other piece is dropped (`flat_map` over the parse results). */
  function ParseReport(line: string): (r: Report)
    ensures forall k :: 0 <= k < |r| ==> r[k] < U32Limit
  {
    U32Pieces(Split(line, ' '))
  }

  /** The levels of a report are exactly the values of the pieces of its
      line that parse as u32. */
  lemma ParseReportValues(line: string, n: nat)
    ensures n in ParseReport(line) <==> exists k :: 0 <= k < |Split(line, ' ')| && ParseU32(Split(line, ' ')[k]) == Some(n)
  {
    var pieces := Split(line, ' ');
    var r := U32Pieces(pieces);
    assert ParseReport(line) == r;
    if k :| 0 <= k < |pieces| && ParseU32(pieces[k]) == Some(n) {
      assert n in r;
      assert n in ParseReport(line);
      assert ParseU32(Split(line, ' ')[k]) == Some(n);
    }
  }

  /** `parse_input`: one report per line. */
  function ParseInput(input: string): (r: seq<Report>)
    ensures |r| == |Lines(input)|
    ensures forall k :: 0 <= k < |r| ==> r[k] == ParseReport(Lines(input)[k])
  {
    var lines := Lines(input);
    seq(|lines|, k requires 0 <= k < |lines| => ParseReport(lines[k]))
  }

  function AbsDiff(a: nat, b: nat): nat
  {
    if a <= b then b - a else a - b
  }

  /** Pair i (levels i and i + 1) differs by 1 to 3 and goes the same way as
      the first pair; the source fixes the direction at pair 0. */
  predicate PairOk(report: Report, i: nat)
    requires i + 1 < |report|
  {
    var l, r := report[i], report[i + 1];
    l != r && AbsDiff(l, r) <= 3 && (l > r) == (report[0] > report[1])
  }

  predicate PairsOkFrom(report: Report, from: nat, to: nat)
  {
    forall j :: from <= j < to && j + 1 < |report| ==> PairOk(report, j)
  }

  /** The first bad pair at or after position i. */
  function FirstBadFrom(report: Report, i: nat): (r: Option<nat>)
    ensures r.None? <==> PairsOkFrom(report, i, |report|)
    ensures r.Some? ==> i <= r.value && r.value + 1 < |report| && !PairOk(report, r.value) && PairsOkFrom(report, i, r.value)
    decreases |report| - i
  {
    if i + 1 >= |report| then None
    else if !PairOk(report, i) then Some(i)
    else FirstBadFrom(report, i + 1)
  }

  /** `first_bad_level_pair`, as a specification. */
  function FirstBad(report: Report): (r: Option<nat>)
    ensures r.None? <==> forall j :: 0 <= j && j + 1 < |report| ==> PairOk(report, j)
    ensures r.Some? ==> r.value + 1 < |report| && !PairOk(report, r.value)
    ensures r.Some? ==> forall j :: 0 <= j < r.value ==> PairOk(report, j)
    ensures |report| < 2 ==> r.None?
  {
    FirstBadFrom(report, 0)
  }

  predicate Safe(report: Report)
  {
    FirstBad(report).None?
  }

  /** `first_bad_level_pair`: walks the adjacent pairs, fixing the direction
      at the first one, and stops at the first pair that is equal, too far
      apart or going the other way. */
  method FirstBadLevelPair(report: Report) returns (result: Option<nat>)
    ensures result == FirstBad(report)
  {
    var maybeDirection: Option<bool> := None;
    var idx := 0;
    while idx + 1 < |report|
      invariant idx <= |report| && (idx == 0 || idx + 1 <= |report|)
      invariant PairsOkFrom(report, 0, idx)
      invariant maybeDirection == if idx == 0 then None else Some(report[0] > report[1])
      invariant FirstBad(report) == FirstBadFrom(report, idx)
    {
      var l, r := report[idx], report[idx + 1];
      if l == r || AbsDiff(l, r) > 3 {
        return Some(idx);
      }
      if maybeDirection.None? {
        maybeDirection := Some(l > r);
      }
      var direction := maybeDirection.value;
      if direction != (l > r) {
        return Some(idx);
      }
      idx := idx + 1;
    }
    return None;
  }

  /** `without_index`: the report with the level at idx removed. */
  function WithoutIndex(report: Report, idx: nat): (r: Report)
    requires idx < |report|
    ensures |r| == |report| - 1
    ensures forall k :: 0 <= k < idx ==> r[k] == report[k]
    ensures forall k :: idx <= k < |r| ==> r[k] == report[k + 1]
  {
    report[..idx] + report[idx + 1..]
  }

  /** Does removing one of the levels lo..hi (inclusive) leave a safe report? */
  function AnyRemovalSafe(report: Report, lo: nat, hi: nat): (r: bool)
    requires hi < |report|
    ensures r <==> exists k :: lo <= k <= hi && Safe(WithoutIndex(report, k))
    decreases hi + 1 - lo
  {
    if lo > hi then false
    else Safe(WithoutIndex(report, lo)) || AnyRemovalSafe(report, lo + 1, hi)
  }

  /** `report_check_with_dampener`: a safe report passes; otherwise, with the
      first bad pair at i, removing level i - 1 (or 0), i or i + 1 must make it
      safe. */
  function Dampened(report: Report): (r: bool)
    ensures Safe(report) ==> r
    ensures r ==> Safe(report) || exists k :: 0 <= k < |report| && Safe(WithoutIndex(report, k))
  {
    match FirstBad(report)
    case None => true
    case Some(i) =>
      var lower := if i >= 1 then i - 1 else 0;
      AnyRemovalSafe(report, lower, i + 1)
  }

  /** Removing a level outside the window the dampener tries cannot help:
      pair i survives intact (as pair i, or as pair i - 1 when the removed
      level is earlier) and the direction fixed by the first pair is the same. */
  lemma RemovalOutsideWindowUnsafe(report: Report, i: nat, k: nat)
    requires FirstBad(report) == Some(i) && k < |report| && (k > i + 1 || k + 1 < i)
    ensures !Safe(WithoutIndex(report, k))
  {
    var removed := WithoutIndex(report, k);
    if k > i + 1 {
      assert removed[i] == report[i] && removed[i + 1] == report[i + 1];
      assert removed[0] == report[0] && removed[1] == report[1];
      assert !PairOk(removed, i);
    } else {
      SameDirection(report, i, k);
      assert removed[i - 1] == report[i] && removed[i] == report[i + 1];
      assert !PairOk(removed, i - 1);
    }
  }

  /** Removing a level before the first bad pair's left neighbour keeps the
      first pair's direction. */
  lemma SameDirection(report: Report, i: nat, k: nat)
    requires FirstBad(report) == Some(i) && k + 1 < i
    ensures var removed := WithoutIndex(report, k);
      |removed| >= 2 && (removed[0] > removed[1]) == (report[0] > report[1])
  {
    var removed := WithoutIndex(report, k);
    assert PairOk(report, 0) && PairOk(report, 1);
    if k == 0 {
      assert removed[0] == report[1] && removed[1] == report[2];
    } else if k == 1 {
      assert removed[0] == report[0] && removed[1] == report[2];
    } else {
      assert removed[0] == report[0] && removed[1] == report[1];
    }
  }

  /** The dampener is exact: it accepts a report precisely when the report is
      safe or becomes safe after removing some single level. */
  lemma DampenerExact(report: Report)
    ensures Dampened(report) <==> Safe(report) || exists k :: 0 <= k < |report| && Safe(WithoutIndex(report, k))
  {
    if !Dampened(report) && exists k :: 0 <= k < |report| && Safe(WithoutIndex(report, k)) {
      var k :| 0 <= k < |report| && Safe(WithoutIndex(report, k));
      var i := FirstBad(report).value;
      var lower := if i >= 1 then i - 1 else 0;
      assert !AnyRemovalSafe(report, lower, i + 1);
      if lower <= k <= i + 1 {
        assert false;
      }
      RemovalOutsideWindowUnsafe(report, i, k);
    }
  }

  /** `analyse_reports`: how many reports are safe. */
  function CountSafe(reports: seq<Report>): nat
  {
    if reports == [] then 0
    else (if Safe(reports[0]) then 1 else 0) + CountSafe(reports[1..])
  }

  /** `analyse_reports_with_dampener`: how many pass the dampener. */
  function CountDampened(reports: seq<Report>): nat
  {
    if reports == [] then 0
    else (if Dampened(reports[0]) then 1 else 0) + CountDampened(reports[1..])
  }

  /** The dampener only ever adds reports. */
  lemma {:induction false} DampenerCountsMore(reports: seq<Report>)
    ensures CountSafe(reports) <= CountDampened(reports) <= |reports|
  {
    if reports != [] {
      DampenerCountsMore(reports[1..]);
    }
  }

  // ---- The worked example ----

  lemma ExampleFirstBad()
    ensures FirstBad([7, 6, 4, 2, 1]) == None
    ensures FirstBad([1, 2, 7, 8, 9]) == Some(1)
    ensures FirstBad([9, 7, 6, 2, 1]) == Some(2)
    ensures FirstBad([1, 3, 2, 4, 5]) == Some(1)
    ensures FirstBad([8, 6, 4, 4, 1]) == Some(2)
    ensures FirstBad([1, 3, 6, 7, 9]) == None
    ensures FirstBad([4, 3, 6, 7, 9]) == Some(1)
  {
  }

  lemma ExampleDampener1()
    ensures Dampened([7, 6, 4, 2, 1])
  {
  }

  lemma ExampleDampener2()
    ensures !Dampened([1, 2, 7, 8, 9])
  {
  }

  lemma ExampleDampener3()
    ensures !Dampened([9, 7, 6, 2, 1])
  {
  }

  lemma ExampleDampener4()
    ensures Dampened([1, 3, 2, 4, 5])
  {
  }

  lemma ExampleDampener5()
    ensures Dampened([8, 6, 4, 4, 1])
  {
  }

  lemma ExampleDampener6()
    ensures Dampened([1, 3, 6, 7, 9])
  {
  }

  lemma ExampleDampener7()
    ensures Dampened([5, 3, 4, 7, 9])
  {
  }

  lemma ExampleCountSafe()
    ensures CountSafe([[7, 6, 4, 2, 1], [1, 2, 7, 8, 9], [9, 7, 6, 2, 1], [1, 3, 2, 4, 5], [8, 6, 4, 4, 1], [1, 3, 6, 7, 9]]) == 2
  {
    ExampleFirstBad();
  }

  lemma ExampleCountDampened()
    ensures CountDampened([[7, 6, 4, 2, 1], [1, 2, 7, 8, 9], [9, 7, 6, 2, 1], [1, 3, 2, 4, 5], [8, 6, 4, 4, 1], [1, 3, 6, 7, 9]]) == 4
  {
    ExampleDampener1();
    ExampleDampener2();
    ExampleDampener3();
    ExampleDampener4();
    ExampleDampener5();
    ExampleDampener6();
  }
}
