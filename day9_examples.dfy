/** Worked examples of Day 9, and the two inputs on which the block-by-block
    compaction as written departs from the intended layout. */
module Day9Examples {
  import opened Common
  import opened Day9

  /** With an even number of entries the end pointer starts on free space,
      and its blocks are laid out again as copies of the previous file. */
  lemma EndPastStart()
    ensures DiskBlocksFragmentedAsWritten([1, 1]) == Some([(0, 0), (1, 0)])
    ensures Numbered(Compact(Expand([1, 1]))) == [(0, 0)]
  {
    var d := [1, 1];
    var start, end := DiskPointer(0, true, 1), DiskPointer(1, false, 1);
    assert GetDiskPointers(d) == (start, end);
    assert IdRun(0, 1) == [0];
    assert OuterAsWritten(d, end, end) == Some([0]);
    assert IdRun(start.index / 2, start.size) + [0] == [0, 0];
    assert OuterAsWritten(d, start, end) == Some([0, 0]);
    assert Span(Some(0), 1) == [Some(0)] && Span(None, 1) == [None];
    assert ExpandRange(d, 1, 2) == [None];
    assert Expand(d) == [Some(0), None];
    assert Compact([Some(0), None]) == Compact([Some(0)]) == [0];
    assert Numbered([0, 0]) == [(0, 0), (1, 0)];
    assert Numbered([0]) == [(0, 0)];
  }

  /** Free space wider than what is left to move sends the end pointer
      below entry 0. */
  lemma FillPastStart()
    ensures DiskBlocksFragmentedAsWritten([1, 3, 1, 3, 1]) == None
  {
    var d := [1, 3, 1, 3, 1];
    assert FillAsWritten(d, 1, DiskPointer(0, true, 1)) == None;
    assert FillAsWritten(d, 2, DiskPointer(2, true, 1)) == None;
    assert FillAsWritten(d, 3, DiskPointer(4, true, 1)) == None;
    assert GetDiskPointers(d) == (DiskPointer(0, true, 1), DiskPointer(4, true, 1));
    assert OuterAsWritten(d, DiskPointer(1, false, 3), DiskPointer(4, true, 1)) == None;
  }

  lemma ExpandFillPastStart()
    ensures Expand([1, 3, 1, 3, 1])
      == Span(Some(0), 1) + Span(None, 3) + Span(Some(1), 1) + Span(None, 3) + Span(Some(2), 1)
  {
    var d := [1, 3, 1, 3, 1];
    var f0, f1, f2, gap := Span(Some(0), 1), Span(Some(1), 1), Span(Some(2), 1), Span(None, 3);
    assert ExpandRange(d, 4, 5) == f2;
    assert ExpandRange(d, 3, 5) == gap + f2;
    assert ExpandRange(d, 2, 5) == f1 + gap + f2;
    assert ExpandRange(d, 1, 5) == gap + f1 + gap + f2;
  }

  /** The same disk compacted as intended: every file block once. */
  lemma FillPastStartCorrected()
    ensures Numbered(Compact(Expand([1, 3, 1, 3, 1]))) == [(0, 0), (1, 2), (2, 1)]
  {
    ExpandFillPastStart();
    var f0, f1, f2, gap := Span(Some(0), 1), Span(Some(1), 1), Span(Some(2), 1), Span(None, 3);
    assert f0 == [Some(0)];
    CompactSomeFront(0, gap + f1 + gap + f2);
    assert f0 + gap + f1 + gap + f2 == [Some(0)] + (gap + f1 + gap + f2);
    CompactSwap(3, f1 + gap, 2, 1);
    assert Span(None, 3) + (f1 + gap) + Span(Some(2), 1) == gap + f1 + gap + f2;
    assert Span(None, 2) + (f1 + gap) + Span(Some(2), 0) == (Span(None, 2) + f1) + Span(None, 3);
    CompactNoneSuffix(Span(None, 2) + f1, 3);
    CompactSwap(2, [], 1, 1);
    assert Span(None, 2) + [] + Span(Some(1), 1) == Span(None, 2) + f1;
    assert Span(None, 1) + [] + Span(Some(1), 0) == [None];
    assert Compact([None]) == [];
    assert Compact(Expand([1, 3, 1, 3, 1])) == [0, 2, 1];
    assert Numbered([0, 2, 1]) == [(0, 0), (1, 2), (2, 1)];
  }

  const ExampleDisk: seq<nat> := [2, 3, 3, 3, 1, 3, 3, 1, 2, 1, 4, 1, 4, 1, 3, 1, 4, 0, 2]

  lemma ExamplePointers()
    ensures GetDiskPointers(ExampleDisk) == (DiskPointer(0, true, 2), DiskPointer(18, true, 2))
  {
  }
}
