/** Day 9: a disk map of alternating file and free-space lengths, compacted
    block by block (fragmented) or file by file (unfragmented), and the
    checksum of the result. */
module Day9 {
  import opened Common

  // ---- parse_input ----

  /** `parse_input`: the value of every decimal digit, everything else
      dropped. */
  function ParseInput(input: string): (r: seq<nat>)
    ensures |r| <= |input|
    ensures forall k :: 0 <= k < |r| ==> r[k] < 10
  {
    if input == [] then []
    else (if IsDigit(input[0]) then [DigitValue(input[0])] else []) + ParseInput(input[1..])
  }

  /** The digits of a disk map written out. */
  function Render(diskMap: seq<nat>): (r: string)
    requires forall k :: 0 <= k < |diskMap| ==> diskMap[k] < 10
    ensures |r| == |diskMap|
  {
    if diskMap == [] then []
    else [('0' as int + diskMap[0]) as char] + Render(diskMap[1..])
  }

  /** Parsing reads back the digits of a rendered disk map. */
  lemma {:induction false} ParseRender(diskMap: seq<nat>)
    requires forall k :: 0 <= k < |diskMap| ==> diskMap[k] < 10
    ensures ParseInput(Render(diskMap)) == diskMap
  {
    if diskMap != [] {
      var s := Render(diskMap);
      assert s[1..] == Render(diskMap[1..]);
      ParseRender(diskMap[1..]);
    }
  }

  /** Parsing works character by character: text split anywhere parses to
      the two parts' digits. */
  lemma {:induction false} ParseAppend(a: string, b: string)
    ensures ParseInput(a + b) == ParseInput(a) + ParseInput(b)
  {
    if a == [] {
      assert a + b == b;
    } else {
      assert (a + b)[1..] == a[1..] + b;
      ParseAppend(a[1..], b);
    }
  }

  // ---- the disk, block by block ----

  /** `n` blocks, all `b`. */
  function Span(b: Option<nat>, n: nat): (r: seq<Option<nat>>)
    ensures |r| == n
  {
    seq(n, _ => b)
  }

  /** The blocks of entry `i`: file `i / 2` at even indices, free space at
      odd ones. */
  function Entry(diskMap: seq<nat>, i: nat): seq<Option<nat>>
    requires i < |diskMap|
  {
    if i % 2 == 0 then Span(Some(i / 2), diskMap[i]) else Span(None, diskMap[i])
  }

  /** The blocks of entries `i` up to, not including, `e`. */
  function ExpandRange(diskMap: seq<nat>, i: nat, e: nat): seq<Option<nat>>
    requires i <= e <= |diskMap|
    decreases e - i
  {
    if i == e then [] else Entry(diskMap, i) + ExpandRange(diskMap, i + 1, e)
  }

  /** The whole disk, block by block. */
  function Expand(diskMap: seq<nat>): seq<Option<nat>>
  {
    ExpandRange(diskMap, 0, |diskMap|)
  }

  lemma {:induction false} ExpandSnoc(diskMap: seq<nat>, i: nat, e: nat)
    requires i <= e < |diskMap|
    ensures ExpandRange(diskMap, i, e + 1) == ExpandRange(diskMap, i, e) + Entry(diskMap, e)
    decreases e - i
  {
    if i < e {
      ExpandSnoc(diskMap, i + 1, e);
    }
  }

  /** The file ids of the blocks, in order, free blocks skipped. */
  function FileIds(blocks: seq<Option<nat>>): seq<nat>
  {
    if blocks == [] then []
    else (if blocks[0].Some? then [blocks[0].value] else []) + FileIds(blocks[1..])
  }

  lemma {:induction false} FileIdsAppend(a: seq<Option<nat>>, b: seq<Option<nat>>)
    ensures FileIds(a + b) == FileIds(a) + FileIds(b)
  {
    if a == [] {
      assert a + b == b;
    } else {
      var x, t := a[0], a[1..];
      assert a == [x] + t;
      assert a + b == [x] + (t + b);
      hide FileIds;
      FileIdsCons(x, t);
      FileIdsCons(x, t + b);
      FileIdsAppend(t, b);
    }
  }

  lemma FileIdsCons(x: Option<nat>, rest: seq<Option<nat>>)
    ensures FileIds([x] + rest) == (if x.Some? then [x.value] else []) + FileIds(rest)
  {
    assert ([x] + rest)[1..] == rest;
  }

  /** Compaction, one block at a time: free blocks at the end are dropped,
      a file block at the front stays, and a free block at the front is
      filled with the last file block. */
  function Compact(blocks: seq<Option<nat>>): seq<nat>
    decreases |blocks|
  {
    if blocks == [] then []
    else if blocks[|blocks| - 1].None? then Compact(blocks[..|blocks| - 1])
    else if blocks[0].Some? then [blocks[0].value] + Compact(blocks[1..])
    else [blocks[|blocks| - 1].value] + Compact(blocks[1..|blocks| - 1])
  }

  /** Compaction keeps every file block and nothing else: the same ids, as
      often as before. */
  lemma {:induction false} CompactPermutes(blocks: seq<Option<nat>>)
    ensures multiset(Compact(blocks)) == multiset(FileIds(blocks))
    decreases |blocks|
  {
    if blocks != [] {
      var n := |blocks|;
      if blocks[n - 1].None? {
        CompactPermutes(blocks[..n - 1]);
        PermutesDropLast(blocks);
      } else if blocks[0].Some? {
        CompactPermutes(blocks[1..]);
      } else {
        CompactPermutes(blocks[1..n - 1]);
        PermutesSwap(blocks);
      }
    }
  }

  lemma PermutesDropLast(blocks: seq<Option<nat>>)
    requires blocks != [] && blocks[|blocks| - 1].None?
    requires multiset(Compact(blocks[..|blocks| - 1])) == multiset(FileIds(blocks[..|blocks| - 1]))
    ensures multiset(Compact(blocks)) == multiset(FileIds(blocks))
  {
    var init, last := blocks[..|blocks| - 1], blocks[|blocks| - 1];
    assert Compact(blocks) == Compact(init);
    assert blocks == init + [last];
    hide Compact, FileIds;
    FileIdsAppend(init, [last]);
    FileIdsCons(last, []);
    assert FileIds([last] + []) == [] + FileIds([]);
    assert [last] + [] == [last];
  }

  lemma PermutesSwap(blocks: seq<Option<nat>>)
    requires |blocks| >= 2 && blocks[0].None? && blocks[|blocks| - 1].Some?
    requires multiset(Compact(blocks[1..|blocks| - 1])) == multiset(FileIds(blocks[1..|blocks| - 1]))
    ensures multiset(Compact(blocks)) == multiset(FileIds(blocks))
  {
    SwapIds(blocks);
  }

  lemma SwapIds(blocks: seq<Option<nat>>)
    requires |blocks| >= 2 && blocks[0].None? && blocks[|blocks| - 1].Some?
    ensures FileIds(blocks) == FileIds(blocks[1..|blocks| - 1]) + [blocks[|blocks| - 1].value]
  {
    var middle := blocks[1..|blocks| - 1];
    var last := blocks[|blocks| - 1];
    assert blocks[1..] == middle + [last];
    FileIdsAppend(middle, [last]);
  }

  lemma {:induction false} CompactNoneSuffix(a: seq<Option<nat>>, k: nat)
    ensures Compact(a + Span(None, k)) == Compact(a)
  {
    if k > 0 {
      var b := a + Span(None, k);
      assert b[..|b| - 1] == a + Span(None, k - 1);
      CompactNoneSuffix(a, k - 1);
    } else {
      assert a + Span(None, k) == a;
    }
  }

  lemma {:induction false} CompactSomeFront(x: nat, r: seq<Option<nat>>)
    ensures Compact([Some(x)] + r) == [x] + Compact(r)
    decreases |r|
  {
    var b := [Some(x)] + r;
    if r != [] && r[|r| - 1].None? {
      assert b[..|b| - 1] == [Some(x)] + r[..|r| - 1];
      CompactSomeFront(x, r[..|r| - 1]);
    } else {
      assert b[1..] == r;
    }
  }

  /** A free block in front and a file block `y` at the end: `y` moves to
      the front. */
  lemma CompactSwap(t: nat, x: seq<Option<nat>>, y: nat, q: nat)
    requires t > 0 && q > 0
    ensures Compact(Span(None, t) + x + Span(Some(y), q))
      == [y] + Compact(Span(None, t - 1) + x + Span(Some(y), q - 1))
  {
    var b := Span(None, t) + x + Span(Some(y), q);
    assert b[0] == None;
    assert b[|b| - 1] == Some(y);
    assert b[1..|b| - 1] == Span(None, t - 1) + x + Span(Some(y), q - 1);
  }

  // ---- disk_blocks_fragmented ----

  /** (position, file id). */
  type Block = (nat, nat)

  /** File ids laid out from position 0. */
  function Numbered(ids: seq<nat>): (r: seq<Block>)
    ensures |r| == |ids|
    ensures forall k :: 0 <= k < |r| ==> r[k] == (k, ids[k])
  {
    seq(|ids|, k requires 0 <= k < |ids| => (k, ids[k]))
  }

  datatype DiskPointer = DiskPointer(index: nat, isFile: bool, size: nat)

  /** `get_disk_pointers`: the first entry, and the last entry, a file when
      its index is even. */
  function GetDiskPointers(diskMap: seq<nat>): (r: (DiskPointer, DiskPointer))
    requires diskMap != []
    ensures r.0.index == 0 && r.0.isFile && r.0.size == diskMap[0]
    ensures r.1.index == |diskMap| - 1 && (r.1.isFile <==> (|diskMap| - 1) % 2 == 0)
    ensures r.1.size == diskMap[|diskMap| - 1]
  {
    var endIndex := |diskMap| - 1;
    (DiskPointer(0, true, diskMap[0]), DiskPointer(endIndex, endIndex % 2 == 0, diskMap[endIndex]))
  }

  /** The blocks still to compact, between the start pointer (entry `i`,
      whole) and the end pointer (entry `e`, `s` blocks left). */
  function Middle(diskMap: seq<nat>, i: nat, e: nat, s: nat): seq<Option<nat>>
  {
    if i <= e < |diskMap| then ExpandRange(diskMap, i, e) + Span(Some(e / 2), s) else []
  }

  /** The same while free entry `i` still has `t` blocks to fill. */
  function Inner(diskMap: seq<nat>, i: nat, t: nat, e: nat, s: nat): seq<Option<nat>>
  {
    if i < e < |diskMap| then Span(None, t) + ExpandRange(diskMap, i + 1, e) + Span(Some(e / 2), s) else []
  }

  lemma InitialMiddle(diskMap: seq<nat>, last: nat)
    requires last < |diskMap| && last % 2 == 0
    requires last == |diskMap| - 1 || last == |diskMap| - 2
    ensures Compact(Middle(diskMap, 0, last, diskMap[last])) == Compact(Expand(diskMap))
  {
    ExpandSnoc(diskMap, 0, last);
    assert Middle(diskMap, 0, last, diskMap[last]) == ExpandRange(diskMap, 0, last + 1);
    if last == |diskMap| - 2 {
      ExpandSnoc(diskMap, 0, last + 1);
      assert Entry(diskMap, last + 1) == Span(None, diskMap[last + 1]);
      CompactNoneSuffix(ExpandRange(diskMap, 0, last + 1), diskMap[last + 1]);
    }
  }

  lemma FileSplit(diskMap: seq<nat>, i: nat, e: nat, s: nat)
    requires i < e < |diskMap| && i % 2 == 0
    ensures Middle(diskMap, i, e, s) == Span(Some(i / 2), diskMap[i]) + Middle(diskMap, i + 1, e, s)
  {
  }

  /** `n` copies of a file id. */
  function IdRun(x: nat, n: nat): (r: seq<nat>)
    ensures |r| == n
    ensures forall k :: 0 <= k < n ==> r[k] == x
  {
    seq(n, _ => x)
  }

  lemma IdRunCons(x: nat, n: nat)
    requires n > 0
    ensures IdRun(x, n) == [x] + IdRun(x, n - 1)
  {
  }

  /** A run of file blocks in front stays where it is. */
  lemma {:induction false} FileRun(x: nat, n: nat, rest: seq<Option<nat>>)
    ensures Compact(Span(Some(x), n) + rest) == IdRun(x, n) + Compact(rest)
  {
    if n > 0 {
      assert Span(Some(x), n) + rest == [Some(x)] + (Span(Some(x), n - 1) + rest);
      CompactSomeFront(x, Span(Some(x), n - 1) + rest);
      FileRun(x, n - 1, rest);
      IdRunCons(x, n);
    } else {
      assert Span(Some(x), n) + rest == rest;
    }
  }

  lemma FreeSplit(diskMap: seq<nat>, i: nat, e: nat, s: nat)
    requires i < e < |diskMap| && i % 2 == 1
    ensures Middle(diskMap, i, e, s) == Inner(diskMap, i, diskMap[i], e, s)
  {
  }

  lemma FreeDone(diskMap: seq<nat>, i: nat, e: nat, s: nat)
    requires i % 2 == 1 && e % 2 == 0
    ensures Inner(diskMap, i, 0, e, s) == Middle(diskMap, i + 1, e, s)
  {
    if i < e < |diskMap| {
      assert Span(None, 0) + ExpandRange(diskMap, i + 1, e) == ExpandRange(diskMap, i + 1, e);
    }
  }

  /** `n` free blocks in front filled from the file at the end. */
  lemma {:induction false} SwapRun(t: nat, x: seq<Option<nat>>, y: nat, q: nat, n: nat)
    requires n <= t && n <= q
    ensures Compact(Span(None, t) + x + Span(Some(y), q))
      == IdRun(y, n) + Compact(Span(None, t - n) + x + Span(Some(y), q - n))
  {
    if n > 0 {
      CompactSwap(t, x, y, q);
      SwapRun(t - 1, x, y, q - 1, n - 1);
      IdRunCons(y, n);
    }
  }

  /** Filling `n` free blocks from the end pointer's file. */
  lemma FreeRun(diskMap: seq<nat>, i: nat, t: nat, e: nat, s: nat, n: nat)
    requires i < e < |diskMap| && n <= t && n <= s
    ensures Compact(Inner(diskMap, i, t, e, s)) == IdRun(e / 2, n) + Compact(Inner(diskMap, i, t - n, e, s - n))
  {
    SwapRun(t, ExpandRange(diskMap, i + 1, e), e / 2, s, n);
  }

  /** The end pointer's file is used up: move it to the previous file. */
  lemma EndStep(diskMap: seq<nat>, i: nat, t: nat, e: nat)
    requires i < e < |diskMap| && i % 2 == 1 && e % 2 == 0
    ensures Compact(Inner(diskMap, i, t, e, 0)) == Compact(Inner(diskMap, i, t, e - 2, diskMap[e - 2]))
  {
    hide Compact;
    var none := Span(None, diskMap[e - 1]);
    if e - 2 > i {
      var front := Span(None, t) + ExpandRange(diskMap, i + 1, e - 2) + Span(Some((e - 2) / 2), diskMap[e - 2]);
      InnerEnd(diskMap, i, t, e);
      CompactNoneSuffix(front, diskMap[e - 1]);
    } else {
      assert e == i + 1;
      assert ExpandRange(diskMap, i + 1, e) == [];
      assert Inner(diskMap, i, t, e, 0) == [] + Span(None, t);
      assert Inner(diskMap, i, t, e - 2, diskMap[e - 2]) == [];
      CompactNoneSuffix([], t);
    }
  }

  /** With no blocks left at the end pointer, the blocks between the
      pointers are those up to the previous file, then the free entry
      before the end pointer. */
  lemma InnerEnd(diskMap: seq<nat>, i: nat, t: nat, e: nat)
    requires i < e - 2 && e < |diskMap| && e % 2 == 0
    ensures Inner(diskMap, i, t, e, 0) == Inner(diskMap, i, t, e - 2, diskMap[e - 2]) + Span(None, diskMap[e - 1])
  {
    hide *;
    InnerIs(diskMap, i, t, e, 0);
    InnerIs(diskMap, i, t, e - 2, diskMap[e - 2]);
    ExpandEnd(diskMap, i + 1, e);
    SpanEmpty(Some(e / 2));
    Regroup(Inner(diskMap, i, t, e, 0), Inner(diskMap, i, t, e - 2, diskMap[e - 2]), Span(None, t),
      ExpandRange(diskMap, i + 1, e), Span(Some(e / 2), 0),
      ExpandRange(diskMap, i + 1, e - 2), Span(Some((e - 2) / 2), diskMap[e - 2]), Span(None, diskMap[e - 1]));
  }

  lemma InnerIs(diskMap: seq<nat>, i: nat, t: nat, e: nat, s: nat)
    requires i < e < |diskMap|
    ensures Inner(diskMap, i, t, e, s) == Span(None, t) + ExpandRange(diskMap, i + 1, e) + Span(Some(e / 2), s)
  {
  }

  lemma SpanEmpty(b: Option<nat>)
    ensures Span(b, 0) == []
  {
  }

  lemma Regroup(whole: seq<Option<nat>>, part: seq<Option<nat>>, p: seq<Option<nat>>, q: seq<Option<nat>>,
                 empty: seq<Option<nat>>, x: seq<Option<nat>>, y: seq<Option<nat>>, z: seq<Option<nat>>)
    requires whole == p + q + empty && empty == [] && q == x + y + z && part == p + x + y
    ensures whole == part + z
  {
  }

  /** The last two entries of a range ending before a file entry: a file,
      then free space. */
  lemma ExpandEnd(diskMap: seq<nat>, j: nat, e: nat)
    requires j <= e - 2 && e < |diskMap| && e % 2 == 0
    ensures ExpandRange(diskMap, j, e)
      == ExpandRange(diskMap, j, e - 2) + Span(Some((e - 2) / 2), diskMap[e - 2]) + Span(None, diskMap[e - 1])
  {
    ExpandSnoc(diskMap, j, e - 2);
    ExpandSnoc(diskMap, j, e - 1);
    hide ExpandRange;
    assert (e - 2) % 2 == 0 && (e - 1) % 2 == 1;
    assert Entry(diskMap, e - 2) == Span(Some((e - 2) / 2), diskMap[e - 2]);
    assert Entry(diskMap, e - 1) == Span(None, diskMap[e - 1]);
  }

  /** The blocks `n` blocks of file `id` take from position `pos` on. */
  function Run(pos: nat, id: nat, n: nat): (r: seq<Block>)
    ensures |r| == n
    ensures forall k :: 0 <= k < n ==> r[k] == (pos + k, id)
  {
    seq(n, k => (pos + k, id))
  }

  lemma NumberedRun(ids: seq<nat>, x: nat, n: nat)
    ensures Numbered(ids) + Run(|ids|, x, n) == Numbered(ids + IdRun(x, n))
  {
  }

  /** The outer loop's invariant: `emitted` followed by the compaction of
      what lies between the two pointers is the compaction of the disk. */
  ghost predicate OuterAt(diskMap: seq<nat>, goal: seq<nat>, emitted: seq<nat>, i: nat, e: nat, s: nat)
  {
    emitted + Compact(Middle(diskMap, i, e, s)) == goal
  }

  /** The same, part-way through filling the free span at `i`. */
  ghost predicate InnerAt(diskMap: seq<nat>, goal: seq<nat>, emitted: seq<nat>, i: nat, t: nat, e: nat, s: nat)
  {
    emitted + Compact(Inner(diskMap, i, t, e, s)) == goal
  }

  lemma FileInv(diskMap: seq<nat>, goal: seq<nat>, emitted: seq<nat>, i: nat, e: nat, s: nat)
    requires i < e < |diskMap| && i % 2 == 0 && OuterAt(diskMap, goal, emitted, i, e, s)
    ensures OuterAt(diskMap, goal, emitted + IdRun(i / 2, diskMap[i]), i + 1, e, s)
  {
    var rest := Middle(diskMap, i + 1, e, s);
    var run := IdRun(i / 2, diskMap[i]);
    FileSplit(diskMap, i, e, s);
    FileRun(i / 2, diskMap[i], rest);
    Assoc(emitted, run, Compact(rest), goal);
  }

  lemma Assoc(a: seq<nat>, b: seq<nat>, c: seq<nat>, g: seq<nat>)
    requires a + (b + c) == g
    ensures (a + b) + c == g
  {
  }

  lemma FreeInv(diskMap: seq<nat>, goal: seq<nat>, emitted: seq<nat>, i: nat, e: nat, s: nat)
    requires i < e < |diskMap| && i % 2 == 1 && OuterAt(diskMap, goal, emitted, i, e, s)
    ensures InnerAt(diskMap, goal, emitted, i, diskMap[i], e, s)
  {
    FreeSplit(diskMap, i, e, s);
  }

  lemma TakeInv(diskMap: seq<nat>, goal: seq<nat>, emitted: seq<nat>, i: nat, t: nat, e: nat, s: nat, n: nat)
    requires i < e < |diskMap| && n <= t && n <= s && InnerAt(diskMap, goal, emitted, i, t, e, s)
    ensures InnerAt(diskMap, goal, emitted + IdRun(e / 2, n), i, t - n, e, s - n)
  {
    FreeRun(diskMap, i, t, e, s, n);
    Assoc(emitted, IdRun(e / 2, n), Compact(Inner(diskMap, i, t - n, e, s - n)), goal);
  }

  lemma EndInv(diskMap: seq<nat>, goal: seq<nat>, emitted: seq<nat>, i: nat, t: nat, f: nat, s: nat)
    requires i < 2 * f < |diskMap| && i % 2 == 1 && s == 0 && InnerAt(diskMap, goal, emitted, i, t, 2 * f, s)
    ensures f > 0 && InnerAt(diskMap, goal, emitted, i, t, 2 * (f - 1), diskMap[2 * (f - 1)])
  {
    hide Compact, Inner;
    var e := 2 * f;
    assert f > 0 && e - 2 == 2 * (f - 1);
    Even(f);
    EndStep(diskMap, i, t, e);
  }

  lemma Even(f: nat)
    ensures (2 * f) % 2 == 0
  {
  }

  lemma DoneInv(diskMap: seq<nat>, goal: seq<nat>, emitted: seq<nat>, i: nat, t: nat, f: nat, s: nat)
    requires i % 2 == 1 && (t == 0 || 2 * f <= i) && InnerAt(diskMap, goal, emitted, i, t, 2 * f, s)
    ensures OuterAt(diskMap, goal, emitted, i + 1, 2 * f, s)
  {
    assert 2 * f != i;
    FreeDone(diskMap, i, 2 * f, s);
  }

  lemma LastInv(diskMap: seq<nat>, goal: seq<nat>, emitted: seq<nat>, e: nat, s: nat)
    requires e < |diskMap| && OuterAt(diskMap, goal, emitted, e, e, s)
    ensures emitted + IdRun(e / 2, s) == goal
  {
    assert Middle(diskMap, e, e, s) == Span(Some(e / 2), s) + [];
    FileRun(e / 2, s, []);
    assert Compact([]) == [];
    Assoc(emitted, IdRun(e / 2, s), [], goal);
    assert (emitted + IdRun(e / 2, s)) + [] == emitted + IdRun(e / 2, s);
  }

  lemma PastInv(diskMap: seq<nat>, goal: seq<nat>, emitted: seq<nat>, i: nat, e: nat, s: nat)
    requires e < i && OuterAt(diskMap, goal, emitted, i, e, s)
    ensures emitted == goal
  {
  }

  /** `for _ in 0..n { blocks.push((pos, id)); pos += 1; }` */
  method PushRun(blocks: seq<Block>, pos: nat, id: nat, n: nat) returns (blocks': seq<Block>, pos': nat)
    ensures blocks' == blocks + Run(pos, id, n)
    ensures pos' == pos + n
  {
    blocks', pos' := blocks, pos;
    var k := 0;
    while k < n
      invariant k <= n
      invariant blocks' == blocks + Run(pos, id, k)
      invariant pos' == pos + k
    {
      blocks' := blocks' + [(pos', id)];
      pos' := pos' + 1;
      k := k + 1;
    }
  }

  /** Pushes `n` blocks of file `id`, keeping `blocks` the numbering of the
      ids emitted so far. */
  method Emit(blocks: seq<Block>, pos: nat, ghost emitted: seq<nat>, id: nat, n: nat)
      returns (blocks': seq<Block>, pos': nat, ghost emitted': seq<nat>)
    requires pos == |emitted| && blocks == Numbered(emitted)
    ensures emitted' == emitted + IdRun(id, n)
    ensures pos' == |emitted'| && blocks' == Numbered(emitted')
  {
    NumberedRun(emitted, id, n);
    blocks', pos' := PushRun(blocks, pos, id, n);
    emitted' := emitted + IdRun(id, n);
  }

  /** The index the end pointer starts at: the last entry when it is a
      file, otherwise the one before it. */
  function LastFile(diskMap: seq<nat>): (r: nat)
    requires diskMap != []
    ensures r < |diskMap| && r % 2 == 0 && (r == |diskMap| - 1 || r == |diskMap| - 2)
  {
    if |diskMap| % 2 == 1 then |diskMap| - 1 else |diskMap| - 2
  }

  lemma StartInv(diskMap: seq<nat>, last: nat)
    requires last < |diskMap| && last % 2 == 0
    requires last == |diskMap| - 1 || last == |diskMap| - 2
    ensures OuterAt(diskMap, Compact(Expand(diskMap)), [], 0, last, diskMap[last])
  {
    InitialMiddle(diskMap, last);
  }

  lemma NextParity(i: nat)
    ensures (i + 1) % 2 == 0 <==> i % 2 != 0
  {
  }

  /** The free span at `i` of `disk_blocks_fragmented`, filled from the
      end pointer's file until it is full or the end pointer has passed
      it. */
  method FillFree(diskMap: seq<nat>, ghost goal: seq<nat>, blocks: seq<Block>, pos: nat, ghost emitted: seq<nat>, i: nat, end: DiskPointer)
      returns (blocks': seq<Block>, pos': nat, ghost emitted': seq<nat>, end': DiskPointer)
    requires i < end.index < |diskMap| && i % 2 == 1 && end.index % 2 == 0
    requires pos == |emitted| && blocks == Numbered(emitted)
    requires OuterAt(diskMap, goal, emitted, i, end.index, end.size)
    ensures end'.index < |diskMap| && end'.index % 2 == 0
    ensures pos' == |emitted'| && blocks' == Numbered(emitted')
    ensures OuterAt(diskMap, goal, emitted', i + 1, end'.index, end'.size)
  {
    // The proof goes from lemma to lemma; no function body is needed.
    hide *;
    FreeInv(diskMap, goal, emitted, i, end.index, end.size);
    blocks', pos', emitted', end' := blocks, pos, emitted, end;
    var toFill: nat := diskMap[i];
    ghost var file: nat := end.index / 2;
    while toFill > 0 && i < end'.index
      invariant end'.index < |diskMap| && end'.index == 2 * file
      invariant pos' == |emitted'| && blocks' == Numbered(emitted')
      invariant InnerAt(diskMap, goal, emitted', i, toFill, end'.index, end'.size)
      decreases toFill, end'.index
    {
      var toTake: nat := if toFill < end'.size then toFill else end'.size;
      TakeInv(diskMap, goal, emitted', i, toFill, end'.index, end'.size, toTake);
      blocks', pos', emitted' := Emit(blocks', pos', emitted', end'.index / 2, toTake);
      toFill := toFill - toTake;
      if toTake == end'.size {
        EndInv(diskMap, goal, emitted', i, toFill, file, 0);
        file := file - 1;
        end' := DiskPointer(end'.index - 2, true, diskMap[end'.index - 2]);
      } else {
        end' := end'.(size := end'.size - toTake);
      }
    }
    DoneInv(diskMap, goal, emitted', i, toFill, file, end'.size);
  }

  /** One pass of the outer loop of `disk_blocks_fragmented`: a file at the
      start pointer stays where it is, a free span is filled from the end. */
  method Step(diskMap: seq<nat>, ghost goal: seq<nat>, blocks: seq<Block>, pos: nat, ghost emitted: seq<nat>,
              start: DiskPointer, end: DiskPointer)
      returns (blocks': seq<Block>, pos': nat, ghost emitted': seq<nat>, end': DiskPointer)
    requires start.index < end.index < |diskMap| && end.index % 2 == 0
    requires start.size == diskMap[start.index] && (start.isFile <==> start.index % 2 == 0)
    requires pos == |emitted| && blocks == Numbered(emitted)
    requires OuterAt(diskMap, goal, emitted, start.index, end.index, end.size)
    ensures end'.index < |diskMap| && end'.index % 2 == 0
    ensures pos' == |emitted'| && blocks' == Numbered(emitted')
    ensures OuterAt(diskMap, goal, emitted', start.index + 1, end'.index, end'.size)
  {
    hide *;
    if start.isFile {
      FileInv(diskMap, goal, emitted, start.index, end.index, end.size);
      blocks', pos', emitted' := Emit(blocks, pos, emitted, start.index / 2, start.size);
      end' := end;
    } else {
      blocks', pos', emitted', end' := FillFree(diskMap, goal, blocks, pos, emitted, start.index, end);
    }
  }

  /** `disk_blocks_fragmented`, with the two corrections listed under
      Findings: the end pointer starts on the last file, and filling stops
      once the end pointer has passed the start pointer. The blocks are the
      block-by-block compaction of the disk, numbered from position 0. */
  method DiskBlocksFragmented(diskMap: seq<nat>) returns (blocks: seq<Block>)
    ensures blocks == Numbered(Compact(Expand(diskMap)))
  {
    blocks := [];
    if diskMap == [] {
      return;
    }
    var pos := 0;
    var start := DiskPointer(0, true, diskMap[0]);
    var endIndex := LastFile(diskMap);
    var end := DiskPointer(endIndex, true, diskMap[endIndex]);
    ghost var emitted: seq<nat> := [];
    ghost var goal := Compact(Expand(diskMap));
    // The proof goes from lemma to lemma; no function body is needed.
    hide *;
    StartInv(diskMap, endIndex);
    while start.index < end.index
      invariant start.index < |diskMap| && end.index < |diskMap|
      invariant start.size == diskMap[start.index] && (start.isFile <==> start.index % 2 == 0)
      invariant end.index % 2 == 0
      invariant pos == |emitted| && blocks == Numbered(emitted)
      invariant OuterAt(diskMap, goal, emitted, start.index, end.index, end.size)
      decreases |diskMap| - start.index
    {
      blocks, pos, emitted, end := Step(diskMap, goal, blocks, pos, emitted, start, end);
      NextParity(start.index);
      start := DiskPointer(start.index + 1, !start.isFile, diskMap[start.index + 1]);
    }
    if start.index == end.index {
      LastInv(diskMap, goal, emitted, end.index, end.size);
      blocks, pos, emitted := Emit(blocks, pos, emitted, end.index / 2, end.size);
    } else {
      PastInv(diskMap, goal, emitted, start.index, end.index, end.size);
    }
  }

  // ---- disk_blocks_fragmented, as written ----

  /** The free-space loop as written: it keeps taking blocks from the end
      pointer while `to_fill > 0`, whether or not the end pointer has
      passed the start pointer. `None` when `end.index -= 2` would go below
      zero, which panics on a `usize`. */
  function FillAsWritten(diskMap: seq<nat>, toFill: nat, end: DiskPointer): (r: Option<(seq<nat>, DiskPointer)>)
    requires end.index < |diskMap|
    ensures r.Some? ==> r.value.1.index <= end.index
    decreases toFill, end.index
  {
    if toFill == 0 then Some(([], end))
    else
      var take := if toFill < end.size then toFill else end.size;
      var ids := IdRun(end.index / 2, take);
      if end.size - take == 0 then
        if end.index < 2 then None
        else
          var next := DiskPointer(end.index - 2, end.isFile, diskMap[end.index - 2]);
          match FillAsWritten(diskMap, toFill - take, next)
          case None => None
          case Some((more, end')) => Some((ids + more, end'))
      else
        match FillAsWritten(diskMap, toFill - take, end.(size := end.size - take))
        case None => None
        case Some((more, end')) => Some((ids + more, end'))
  }

  /** The outer loop as written, from the start pointer on. */
  function OuterAsWritten(diskMap: seq<nat>, start: DiskPointer, end: DiskPointer): (r: Option<seq<nat>>)
    requires start.index < |diskMap| && end.index < |diskMap|
    decreases |diskMap| - start.index
  {
    if start.index < end.index then
      var next := DiskPointer(start.index + 1, !start.isFile, diskMap[start.index + 1]);
      if start.isFile then
        match OuterAsWritten(diskMap, next, end)
        case None => None
        case Some(rest) => Some(IdRun(start.index / 2, start.size) + rest)
      else
        match FillAsWritten(diskMap, start.size, end)
        case None => None
        case Some((ids, end')) =>
          match OuterAsWritten(diskMap, next, end')
          case None => None
          case Some(rest) => Some(ids + rest)
    else if start.index == end.index then Some(IdRun(end.index / 2, end.size))
    else Some([])
  }

  /** `disk_blocks_fragmented` as written: `None` where it panics (an empty
      map, or the end pointer stepping below index 0). */
  function DiskBlocksFragmentedAsWritten(diskMap: seq<nat>): (r: Option<seq<Block>>)
    ensures diskMap == [] ==> r == None
  {
    if diskMap == [] then None
    else
      var (start, end) := GetDiskPointers(diskMap);
      match OuterAsWritten(diskMap, start, end)
      case None => None
      case Some(ids) => Some(Numbered(ids))
  }

  // ---- get_usage ----

  /** A file of `get_usage`: where it starts, its id and its length. */
  datatype FileUse = FileUse(pos: nat, id: nat, size: nat)

  /** A gap of `get_usage`: where it starts and its length. */
  datatype Gap = Gap(pos: nat, size: nat)

  /** The position of entry `i`: the lengths of the entries before it. */
  function Offset(diskMap: seq<nat>, i: nat): nat
    requires i <= |diskMap|
  {
    Sum(diskMap[..i])
  }

  lemma OffsetStep(diskMap: seq<nat>, i: nat)
    requires i < |diskMap|
    ensures Offset(diskMap, i + 1) == Offset(diskMap, i) + diskMap[i]
  {
    assert diskMap[..i + 1] == diskMap[..i] + [diskMap[i]];
    SumAppend(diskMap[..i], [diskMap[i]]);
    assert Sum([diskMap[i]]) == diskMap[i] + Sum([]);
  }

  /** The file entry `i` contributes: a non-empty file, or the trailing
      entry of an odd-length map whatever its size. */
  function FileAt(diskMap: seq<nat>, i: nat): seq<FileUse>
    requires i < |diskMap|
  {
    if i % 2 == 0 && (diskMap[i] > 0 || i == |diskMap| - 1) then [FileUse(Offset(diskMap, i), i / 2, diskMap[i])] else []
  }

  /** The gap entry `i` contributes: a non-empty free span. */
  function GapAt(diskMap: seq<nat>, i: nat): seq<Gap>
    requires i < |diskMap|
  {
    if i % 2 == 1 && diskMap[i] > 0 then [Gap(Offset(diskMap, i), diskMap[i])] else []
  }

  /** Files are in order, each ending before the next starts. */
  ghost predicate FilesApart(files: seq<FileUse>)
  {
    forall a, b :: 0 <= a < b < |files| ==> files[a].pos + files[a].size <= files[b].pos && files[a].id < files[b].id
  }

  /** Gaps are in order, each ending before the next starts. */
  ghost predicate GapsApart(gaps: seq<Gap>)
  {
    forall a, b :: 0 <= a < b < |gaps| ==> gaps[a].pos + gaps[a].size <= gaps[b].pos
  }

  /** The files among entries `0..e`. */
  function FilesBelow(diskMap: seq<nat>, e: nat): seq<FileUse>
    requires e <= |diskMap|
    decreases e
  {
    if e == 0 then [] else FilesBelow(diskMap, e - 1) + FileAt(diskMap, e - 1)
  }

  /** The gaps among entries `0..e`. */
  function GapsBelow(diskMap: seq<nat>, e: nat): seq<Gap>
    requires e <= |diskMap|
    decreases e
  {
    if e == 0 then [] else GapsBelow(diskMap, e - 1) + GapAt(diskMap, e - 1)
  }

  /** Each of `files` is entry `2 * id` (an entry before `e`), at that
      entry's offset and with that entry's size; the files end before
      entry `e` begins and are in order and apart. */
  ghost predicate FilesListed(diskMap: seq<nat>, e: nat, files: seq<FileUse>)
    requires e <= |diskMap|
  {
    (forall k :: 0 <= k < |files| ==>
      2 * files[k].id < e && files[k].pos == Offset(diskMap, 2 * files[k].id) && files[k].size == diskMap[2 * files[k].id])
    && (forall k :: 0 <= k < |files| ==> files[k].pos + files[k].size <= Offset(diskMap, e))
    && FilesApart(files)
  }

  /** Each of `gaps` is non-empty and ends before entry `e` begins; the gaps
      are in order and apart. */
  ghost predicate GapsListed(diskMap: seq<nat>, e: nat, gaps: seq<Gap>)
    requires e <= |diskMap|
  {
    (forall k :: 0 <= k < |gaps| ==> gaps[k].size > 0 && gaps[k].pos + gaps[k].size <= Offset(diskMap, e))
    && GapsApart(gaps)
  }

  lemma {:induction false} FilesBelowListed(diskMap: seq<nat>, e: nat)
    requires e <= |diskMap|
    ensures FilesListed(diskMap, e, FilesBelow(diskMap, e))
    decreases e
  {
    if e > 0 {
      FilesBelowListed(diskMap, e - 1);
      FilesExtend(diskMap, e, FilesBelow(diskMap, e - 1));
    }
  }

  lemma {:induction false} GapsBelowListed(diskMap: seq<nat>, e: nat)
    requires e <= |diskMap|
    ensures GapsListed(diskMap, e, GapsBelow(diskMap, e))
    decreases e
  {
    if e > 0 {
      GapsBelowListed(diskMap, e - 1);
      GapsExtend(diskMap, e, GapsBelow(diskMap, e - 1));
    }
  }

  lemma FilesExtend(diskMap: seq<nat>, e: nat, prev: seq<FileUse>)
    requires 0 < e <= |diskMap| && FilesListed(diskMap, e - 1, prev)
    ensures FilesListed(diskMap, e, prev + FileAt(diskMap, e - 1))
  {
    OffsetStep(diskMap, e - 1);
    var i := e - 1;
    if i % 2 == 0 && (diskMap[i] > 0 || i == |diskMap| - 1) {
      var f := FileUse(Offset(diskMap, i), i / 2, diskMap[i]);
      assert FileAt(diskMap, i) == [f];
      assert 2 * f.id == i;
      hide Offset;
      var r := prev + [f];
      assert forall k :: 0 <= k < |prev| ==> r[k] == prev[k];
      assert r[|prev|] == f;
      forall k | 0 <= k < |r|
        ensures 2 * r[k].id < e && r[k].pos == Offset(diskMap, 2 * r[k].id) && r[k].size == diskMap[2 * r[k].id]
        ensures r[k].pos + r[k].size <= Offset(diskMap, e)
      {
      }
      forall k | 0 <= k < |prev|
        ensures prev[k].pos + prev[k].size <= f.pos && prev[k].id < f.id
      {
      }
      FilesApartSnoc(prev, f);
    } else {
      assert FileAt(diskMap, i) == [];
      assert prev + [] == prev;
    }
  }

  lemma FilesApartSnoc(files: seq<FileUse>, f: FileUse)
    requires FilesApart(files)
    requires forall k :: 0 <= k < |files| ==> files[k].pos + files[k].size <= f.pos && files[k].id < f.id
    ensures FilesApart(files + [f])
  {
    var r := files + [f];
    forall a, b | 0 <= a < b < |r|
      ensures r[a].pos + r[a].size <= r[b].pos && r[a].id < r[b].id
    {
      assert r[a] == files[a];
      if b < |files| {
        assert r[b] == files[b];
      }
    }
  }

  lemma GapsExtend(diskMap: seq<nat>, e: nat, prev: seq<Gap>)
    requires 0 < e <= |diskMap| && GapsListed(diskMap, e - 1, prev)
    ensures GapsListed(diskMap, e, prev + GapAt(diskMap, e - 1))
  {
    OffsetStep(diskMap, e - 1);
    var i := e - 1;
    if i % 2 == 1 && diskMap[i] > 0 {
      var g := Gap(Offset(diskMap, i), diskMap[i]);
      assert GapAt(diskMap, i) == [g];
      var r := prev + [g];
      assert forall k :: 0 <= k < |prev| ==> r[k] == prev[k];
      assert r[|prev|] == g;
    } else {
      assert GapAt(diskMap, i) == [];
      assert prev + [] == prev;
    }
  }

  lemma PairStep(diskMap: seq<nat>, idx: nat)
    requires 2 * idx + 1 < |diskMap|
    ensures FilesBelow(diskMap, 2 * idx + 2) == FilesBelow(diskMap, 2 * idx)
      + (if diskMap[2 * idx] > 0 then [FileUse(Offset(diskMap, 2 * idx), idx, diskMap[2 * idx])] else [])
    ensures GapsBelow(diskMap, 2 * idx + 2) == GapsBelow(diskMap, 2 * idx)
      + (if diskMap[2 * idx + 1] > 0 then [Gap(Offset(diskMap, 2 * idx + 1), diskMap[2 * idx + 1])] else [])
  {
    var i := 2 * idx;
    assert i % 2 == 0 && (i + 1) % 2 == 1 && i / 2 == idx;
    assert FileAt(diskMap, i + 1) == [];
    assert GapAt(diskMap, i) == [];
  }

  lemma TrailStep(diskMap: seq<nat>, idx: nat)
    requires |diskMap| == 2 * idx + 1
    ensures FilesBelow(diskMap, |diskMap|)
      == FilesBelow(diskMap, 2 * idx) + [FileUse(Offset(diskMap, 2 * idx), idx, diskMap[2 * idx])]
    ensures GapsBelow(diskMap, |diskMap|) == GapsBelow(diskMap, 2 * idx)
  {
    var i := 2 * idx;
    assert i % 2 == 0 && i / 2 == idx;
    assert FileAt(diskMap, i) == [FileUse(Offset(diskMap, i), idx, diskMap[i])];
    assert GapAt(diskMap, i) == [];
  }

  lemma Halves(n: nat, idx: nat)
    requires 2 * idx <= n <= 2 * idx + 1
    ensures n % 2 == 1 <==> n == 2 * idx + 1
    ensures n % 2 == 1 ==> n / 2 == idx
  {
  }

  /** One pair of entries of `get_usage`: the file, then the gap. */
  method UsagePair(diskMap: seq<nat>, idx: nat, files: seq<FileUse>, freeSpace: seq<Gap>, pos: nat)
      returns (files': seq<FileUse>, freeSpace': seq<Gap>, pos': nat)
    requires 2 * idx + 1 < |diskMap|
    requires files == FilesBelow(diskMap, 2 * idx) && freeSpace == GapsBelow(diskMap, 2 * idx)
    requires pos == Offset(diskMap, 2 * idx)
    ensures files' == FilesBelow(diskMap, 2 * idx + 2) && freeSpace' == GapsBelow(diskMap, 2 * idx + 2)
    ensures pos' == Offset(diskMap, 2 * idx + 2)
  {
    PairStep(diskMap, idx);
    OffsetStep(diskMap, 2 * idx);
    OffsetStep(diskMap, 2 * idx + 1);
    hide *;
    files', freeSpace', pos' := files, freeSpace, pos;
    var file, free := diskMap[2 * idx], diskMap[2 * idx + 1];
    if file > 0 {
      files' := files' + [FileUse(pos', idx, file)];
      pos' := pos' + file;
    }
    if free > 0 {
      freeSpace' := freeSpace' + [Gap(pos', free)];
      pos' := pos' + free;
    }
  }

  /** `get_usage`: the files and the non-empty gaps, pair by pair, and the
      trailing file of an odd-length map. */
  method GetUsage(diskMap: seq<nat>) returns (files: seq<FileUse>, freeSpace: seq<Gap>)
    ensures files == FilesBelow(diskMap, |diskMap|)
    ensures freeSpace == GapsBelow(diskMap, |diskMap|)
  {
    hide *;
    UsageStart(diskMap);
    files, freeSpace := [], [];
    var pos := 0;
    var idx := 0;
    while 2 * idx + 1 < |diskMap|
      invariant 2 * idx <= |diskMap|
      invariant files == FilesBelow(diskMap, 2 * idx) && freeSpace == GapsBelow(diskMap, 2 * idx)
      invariant pos == Offset(diskMap, 2 * idx)
    {
      files, freeSpace, pos := UsagePair(diskMap, idx, files, freeSpace, pos);
      idx := idx + 1;
    }
    files := UsageTail(diskMap, idx, files, pos);
  }

  lemma UsageStart(diskMap: seq<nat>)
    ensures FilesBelow(diskMap, 0) == [] && GapsBelow(diskMap, 0) == [] && Offset(diskMap, 0) == 0
  {
    assert diskMap[..0] == [];
  }

  /** The trailing file of an odd-length map, after the last pair. */
  method UsageTail(diskMap: seq<nat>, idx: nat, files: seq<FileUse>, pos: nat) returns (files': seq<FileUse>)
    requires 2 * idx <= |diskMap| <= 2 * idx + 1
    requires files == FilesBelow(diskMap, 2 * idx) && pos == Offset(diskMap, 2 * idx)
    ensures files' == FilesBelow(diskMap, |diskMap|)
    ensures GapsBelow(diskMap, |diskMap|) == GapsBelow(diskMap, 2 * idx)
  {
    hide *;
    Halves(|diskMap|, idx);
    files' := files;
    if |diskMap| % 2 == 1 {
      TrailStep(diskMap, idx);
      files' := files + [FileUse(pos, |diskMap| / 2, diskMap[|diskMap| - 1])];
    }
  }

  /** Entry `i`, a file, stays listed once listed. */
  lemma {:induction false} FileListedBelow(diskMap: seq<nat>, i: nat, e: nat)
    requires i < e <= |diskMap| && i % 2 == 0
    ensures FileUse(Offset(diskMap, i), i / 2, diskMap[i]) in FilesBelow(diskMap, e)
      <==> diskMap[i] > 0 || i == |diskMap| - 1
    decreases e
  {
    var f := FileUse(Offset(diskMap, i), i / 2, diskMap[i]);
    var prev := FilesBelow(diskMap, e - 1);
    assert FilesBelow(diskMap, e) == prev + FileAt(diskMap, e - 1);
    if e == i + 1 {
      FilesBelowListed(diskMap, e - 1);
      assert f !in prev by {
        forall k | 0 <= k < |prev|
          ensures prev[k] != f
        {
          assert 2 * prev[k].id < i;
        }
      }
    } else {
      FileListedBelow(diskMap, i, e - 1);
      assert f !in FileAt(diskMap, e - 1);
    }
  }

  /** `get_usage` lists file entry `i` exactly when it is not empty, or is
      the trailing entry of an odd-length map. */
  lemma FileListed(diskMap: seq<nat>, i: nat)
    requires i < |diskMap| && i % 2 == 0
    ensures FileUse(Offset(diskMap, i), i / 2, diskMap[i]) in FilesBelow(diskMap, |diskMap|)
      <==> diskMap[i] > 0 || i == |diskMap| - 1
  {
    FileListedBelow(diskMap, i, |diskMap|);
  }

  lemma {:induction false} GapListedBelow(diskMap: seq<nat>, i: nat, e: nat)
    requires i < e <= |diskMap| && i % 2 == 1 && diskMap[i] > 0
    ensures Gap(Offset(diskMap, i), diskMap[i]) in GapsBelow(diskMap, e)
    decreases e
  {
    assert GapsBelow(diskMap, e) == GapsBelow(diskMap, e - 1) + GapAt(diskMap, e - 1);
    if e > i + 1 {
      GapListedBelow(diskMap, i, e - 1);
    }
  }

  lemma {:induction false} GapOrigin(diskMap: seq<nat>, e: nat, g: Gap)
    requires e <= |diskMap| && g in GapsBelow(diskMap, e)
    ensures exists j :: 0 <= j < e && j % 2 == 1 && diskMap[j] > 0 && g == Gap(Offset(diskMap, j), diskMap[j])
    decreases e
  {
    var prev := GapsBelow(diskMap, e - 1);
    assert GapsBelow(diskMap, e) == prev + GapAt(diskMap, e - 1);
    if g in prev {
      GapOrigin(diskMap, e - 1, g);
    } else {
      assert g in GapAt(diskMap, e - 1);
    }
  }

  /** `get_usage` lists a gap exactly for each non-empty free entry. */
  lemma GapListed(diskMap: seq<nat>, g: Gap)
    ensures g in GapsBelow(diskMap, |diskMap|)
      <==> exists j :: 0 <= j < |diskMap| && j % 2 == 1 && diskMap[j] > 0 && g == Gap(Offset(diskMap, j), diskMap[j])
  {
    if g in GapsBelow(diskMap, |diskMap|) {
      GapOrigin(diskMap, |diskMap|, g);
    }
    if exists j :: 0 <= j < |diskMap| && j % 2 == 1 && diskMap[j] > 0 && g == Gap(Offset(diskMap, j), diskMap[j]) {
      var j :| 0 <= j < |diskMap| && j % 2 == 1 && diskMap[j] > 0 && g == Gap(Offset(diskMap, j), diskMap[j]);
      GapListedBelow(diskMap, j, |diskMap|);
    }
  }

  // ---- disk_blocks_unfragmented ----

  /** The gap can take the whole file, and lies left of it. */
  predicate Fits(g: Gap, f: FileUse)
  {
    g.size >= f.size && g.pos < f.pos
  }

  /** The leftmost gap that fits, if any. */
  function FirstFit(freeSpace: seq<Gap>, f: FileUse): (r: Option<nat>)
    ensures r.Some? ==> r.value < |freeSpace| && Fits(freeSpace[r.value], f)
    ensures r.Some? ==> forall k :: 0 <= k < r.value ==> !Fits(freeSpace[k], f)
    ensures r.None? ==> forall k :: 0 <= k < |freeSpace| ==> !Fits(freeSpace[k], f)
    decreases |freeSpace|
  {
    if freeSpace == [] then None
    else if Fits(freeSpace[0], f) then Some(0)
    else match FirstFit(freeSpace[1..], f)
      case None => None
      case Some(j) => Some(j + 1)
  }

  /** The `find` over the free list: the first gap, in list order, that
      fits. */
  method FindGap(freeSpace: seq<Gap>, f: FileUse) returns (r: Option<nat>)
    ensures r == FirstFit(freeSpace, f)
  {
    var j := 0;
    while j < |freeSpace|
      invariant j <= |freeSpace|
      invariant forall k :: 0 <= k < j ==> !Fits(freeSpace[k], f)
    {
      if Fits(freeSpace[j], f) {
        return Some(j);
      }
      j := j + 1;
    }
    return None;
  }

  /** The gap `j` after the file has been moved into it: shrunk from its left
      end, or removed when the file fills it exactly. */
  function Shrink(freeSpace: seq<Gap>, j: nat, f: FileUse): (r: seq<Gap>)
    requires j < |freeSpace| && freeSpace[j].size >= f.size
    ensures freeSpace[j].size == f.size ==> r == freeSpace[..j] + freeSpace[j + 1..]
    ensures freeSpace[j].size > f.size ==> |r| == |freeSpace|
    ensures freeSpace[j].size > f.size ==> r[j].pos == freeSpace[j].pos + f.size
    ensures freeSpace[j].size > f.size ==> r[j].pos + r[j].size == freeSpace[j].pos + freeSpace[j].size
    ensures freeSpace[j].size > f.size ==> forall k :: 0 <= k < |r| && k != j ==> r[k] == freeSpace[k]
  {
    var g := freeSpace[j];
    if g.size > f.size then freeSpace[j := Gap(g.pos + f.size, g.size - f.size)]
    else freeSpace[..j] + freeSpace[j + 1..]
  }

  /** Every gap is non-empty, and the gaps are in order and apart. */
  ghost predicate GoodGaps(freeSpace: seq<Gap>)
  {
    GapsApart(freeSpace) && forall k :: 0 <= k < |freeSpace| ==> freeSpace[k].size > 0
  }

  /** Shrinking or removing a gap keeps the free list in order, apart and
      without empty gaps. */
  lemma ShrinkKeepsGood(freeSpace: seq<Gap>, j: nat, f: FileUse)
    requires j < |freeSpace| && freeSpace[j].size >= f.size && GoodGaps(freeSpace)
    ensures GoodGaps(Shrink(freeSpace, j, f))
  {
    var r := Shrink(freeSpace, j, f);
    if freeSpace[j].size == f.size {
      forall a, b | 0 <= a < b < |r|
        ensures r[a].pos + r[a].size <= r[b].pos
      {
        var a' := if a < j then a else a + 1;
        var b' := if b < j then b else b + 1;
        assert r[a] == freeSpace[a'] && r[b] == freeSpace[b'];
      }
      forall k | 0 <= k < |r|
        ensures r[k].size > 0
      {
        assert r[k] == freeSpace[if k < j then k else k + 1];
      }
    }
  }

  /** Where `f` goes: the leftmost gap that fits, or where it is. */
  function Destination(freeSpace: seq<Gap>, f: FileUse): (r: nat)
    ensures r <= f.pos
    ensures r == f.pos || exists j :: 0 <= j < |freeSpace| && Fits(freeSpace[j], f) && r == freeSpace[j].pos
  {
    match FirstFit(freeSpace, f)
    case Some(j) => freeSpace[j].pos
    case None => f.pos
  }

  /** One file placed: its blocks, and the free list afterwards. */
  function Place(freeSpace: seq<Gap>, f: FileUse): (r: (seq<Block>, seq<Gap>))
    ensures r.0 == Run(Destination(freeSpace, f), f.id, f.size)
    ensures FirstFit(freeSpace, f).None? ==> r.1 == freeSpace
  {
    match FirstFit(freeSpace, f)
    case Some(j) => (Run(freeSpace[j].pos, f.id, f.size), Shrink(freeSpace, j, f))
    case None => (Run(f.pos, f.id, f.size), freeSpace)
  }

  /** The unfragmented layout: files from the last (highest id) to the
      first, each placed with the free list its predecessors left. */
  function PlaceAll(files: seq<FileUse>, freeSpace: seq<Gap>): seq<Block>
    decreases |files|
  {
    if files == [] then []
    else
      var f := files[|files| - 1];
      var (blocks, rest) := Place(freeSpace, f);
      blocks + PlaceAll(files[..|files| - 1], rest)
  }

  /** The ids of the blocks. */
  function Ids(blocks: seq<Block>): (r: seq<nat>)
    ensures |r| == |blocks|
    ensures forall k :: 0 <= k < |r| ==> r[k] == blocks[k].1
  {
    seq(|blocks|, k requires 0 <= k < |blocks| => blocks[k].1)
  }

  /** Each file's id, as many times as it has blocks, last file first. */
  function FileRuns(files: seq<FileUse>): seq<nat>
    decreases |files|
  {
    if files == [] then [] else IdRun(files[|files| - 1].id, files[|files| - 1].size) + FileRuns(files[..|files| - 1])
  }

  lemma IdsRun(pos: nat, id: nat, n: nat)
    ensures Ids(Run(pos, id, n)) == IdRun(id, n)
  {
  }

  lemma IdsAppend(a: seq<Block>, b: seq<Block>)
    ensures Ids(a + b) == Ids(a) + Ids(b)
  {
  }

  /** Every file contributes exactly its size in blocks of its own id, the
      files taken from the highest id down. */
  lemma {:induction false} PlaceAllIds(files: seq<FileUse>, freeSpace: seq<Gap>)
    ensures Ids(PlaceAll(files, freeSpace)) == FileRuns(files)
    decreases |files|
  {
    if files != [] {
      var f := files[|files| - 1];
      var (blocks, rest) := Place(freeSpace, f);
      PlaceAllIds(files[..|files| - 1], rest);
      IdsAppend(blocks, PlaceAll(files[..|files| - 1], rest));
      IdsRun(Destination(freeSpace, f), f.id, f.size);
    }
  }

  /** Block `b` belongs to a file of `files` and lies before that file's
      end. */
  ghost predicate LeftOfFile(files: seq<FileUse>, b: Block)
  {
    exists f :: f in files && f.id == b.1 && b.0 < f.pos + f.size
  }

  /** Files only move left: every block lies before the end of the file it
      came from, in the place of that file or further left. */
  lemma {:induction false} PlaceAllLeft(files: seq<FileUse>, freeSpace: seq<Gap>, k: nat)
    requires k < |PlaceAll(files, freeSpace)|
    ensures LeftOfFile(files, PlaceAll(files, freeSpace)[k])
    decreases |files|
  {
    var f := files[|files| - 1];
    var (blocks, rest) := Place(freeSpace, f);
    var init := files[..|files| - 1];
    assert PlaceAll(files, freeSpace) == blocks + PlaceAll(init, rest);
    if k < |blocks| {
      assert PlaceAll(files, freeSpace)[k] == blocks[k];
      assert f in files;
    } else {
      PlaceAllLeft(init, rest, k - |blocks|);
      var g :| g in init && g.id == PlaceAll(init, rest)[k - |blocks|].1
        && PlaceAll(init, rest)[k - |blocks|].0 < g.pos + g.size;
      assert g in files;
    }
  }

  /** Placing a file keeps the free list good. */
  lemma PlaceKeepsGood(freeSpace: seq<Gap>, f: FileUse)
    requires GoodGaps(freeSpace)
    ensures GoodGaps(Place(freeSpace, f).1)
  {
    if FirstFit(freeSpace, f).Some? {
      ShrinkKeepsGood(freeSpace, FirstFit(freeSpace, f).value, f);
    }
  }

  /** `for i in 0..n { blocks.push((start + i, id)); }` */
  method PushAt(blocks: seq<Block>, start: nat, id: nat, n: nat) returns (blocks': seq<Block>)
    ensures blocks' == blocks + Run(start, id, n)
  {
    blocks' := blocks;
    var i := 0;
    while i < n
      invariant i <= n
      invariant blocks' == blocks + Run(start, id, i)
    {
      blocks' := blocks' + [(start + i, id)];
      i := i + 1;
    }
  }

  lemma PlaceAllLast(blocks: seq<Block>, files: seq<FileUse>, k: nat, freeSpace: seq<Gap>, goal: seq<Block>)
    requires 0 < k <= |files|
    requires blocks + PlaceAll(files[..k], freeSpace) == goal
    ensures (blocks + Place(freeSpace, files[k - 1]).0)
      + PlaceAll(files[..k - 1], Place(freeSpace, files[k - 1]).1) == goal
  {
    assert files[..k][..k - 1] == files[..k - 1];
  }

  /** The body of the loop of `disk_blocks_unfragmented`: file `f` moved
      into the leftmost gap that fits, which shrinks or goes, or left where
      it is. */
  method PlaceFile(blocks: seq<Block>, freeSpace: seq<Gap>, f: FileUse) returns (blocks': seq<Block>, freeSpace': seq<Gap>)
    ensures blocks' == blocks + Place(freeSpace, f).0
    ensures freeSpace' == Place(freeSpace, f).1
  {
    var found := FindGap(freeSpace, f);
    match found {
      case Some(j) =>
        var (spacePos, spaceSize) := (freeSpace[j].pos, freeSpace[j].size);
        blocks' := PushAt(blocks, spacePos, f.id, f.size);
        if spaceSize > f.size {
          freeSpace' := freeSpace[j := Gap(spacePos + f.size, spaceSize - f.size)];
        } else {
          freeSpace' := freeSpace[..j] + freeSpace[j + 1..];
        }
      case None =>
        blocks' := PushAt(blocks, f.pos, f.id, f.size);
        freeSpace' := freeSpace;
    }
  }

  /** `disk_blocks_unfragmented`: the files from the last to the first,
      each moved into the leftmost gap that fits or left where it is. */
  method DiskBlocksUnfragmented(diskMap: seq<nat>) returns (blocks: seq<Block>)
    ensures blocks == PlaceAll(FilesBelow(diskMap, |diskMap|), GapsBelow(diskMap, |diskMap|))
  {
    var files, freeSpace := GetUsage(diskMap);
    blocks := PlaceFiles(files, freeSpace);
  }

  /** The loop of `disk_blocks_unfragmented`, placing `files` from the last. */
  method PlaceFiles(files: seq<FileUse>, freeSpace: seq<Gap>) returns (blocks: seq<Block>)
    ensures blocks == PlaceAll(files, freeSpace)
  {
    hide *;
    ghost var goal := PlaceAll(files, freeSpace);
    blocks := [];
    var gaps := freeSpace;
    assert files[..|files|] == files;
    assert blocks + PlaceAll(files[..|files|], gaps) == goal;
    var k: nat := |files|;
    while k > 0
      invariant k <= |files|
      invariant blocks + PlaceAll(files[..k], gaps) == goal
    {
      var f := files[k - 1];
      PlaceAllLast(blocks, files, k, gaps, goal);
      blocks, gaps := PlaceFile(blocks, gaps, f);
      k := k - 1;
    }
    PlaceNothing(files[..0], gaps);
  }

  lemma PlaceNothing(files: seq<FileUse>, freeSpace: seq<Gap>)
    requires files == []
    ensures PlaceAll(files, freeSpace) == []
  {
  }

  // ---- calculate_checksum ----

  /** The sum of position times id over the blocks. */
  function Checksum(blocks: seq<Block>): nat
  {
    if blocks == [] then 0 else blocks[0].0 * blocks[0].1 + Checksum(blocks[1..])
  }

  lemma {:induction false} ChecksumAppend(a: seq<Block>, b: seq<Block>)
    ensures Checksum(a + b) == Checksum(a) + Checksum(b)
  {
    if a == [] {
      assert a + b == b;
    } else {
      assert (a + b)[1..] == a[1..] + b;
      ChecksumAppend(a[1..], b);
    }
  }

  lemma RemoveFirst(a: seq<Block>, b: seq<Block>, i: nat)
    requires multiset(a) == multiset(b) && a != [] && i < |b| && b[i] == a[0]
    ensures multiset(a[1..]) == multiset(b[..i] + b[i + 1..])
  {
    assert a == [a[0]] + a[1..];
    assert b == b[..i] + [b[i]] + b[i + 1..];
    var l, r := multiset(a[1..]), multiset(b[..i] + b[i + 1..]);
    assert multiset(a) == multiset([a[0]]) + l;
    assert multiset(b) == multiset([a[0]]) + r;
    forall y
      ensures l[y] == r[y]
    {
      assert multiset(a)[y] == multiset([a[0]])[y] + l[y];
      assert multiset(b)[y] == multiset([a[0]])[y] + r[y];
    }
  }

  /** The checksum does not depend on the order of the blocks. */
  lemma {:induction false} ChecksumPermutation(a: seq<Block>, b: seq<Block>)
    requires multiset(a) == multiset(b)
    ensures Checksum(a) == Checksum(b)
    decreases |a|
  {
    if a == [] {
      assert |b| == |multiset(b)| == 0;
    } else {
      var x := a[0];
      assert x in multiset(b);
      var i :| 0 <= i < |b| && b[i] == x;
      RemoveFirst(a, b, i);
      ChecksumPermutation(a[1..], b[..i] + b[i + 1..]);
      assert b == (b[..i] + [x]) + b[i + 1..];
      ChecksumAppend(b[..i] + [x], b[i + 1..]);
      ChecksumAppend(b[..i], [x]);
      ChecksumAppend(b[..i], b[i + 1..]);
      assert Checksum([x]) == x.0 * x.1 + Checksum([]);
    }
  }

  /** Which layout to score. */
  datatype Strategy = Fragmented | Unfragmented

  /** The blocks each strategy lays out. */
  function Layout(diskMap: seq<nat>, strategy: Strategy): seq<Block>
  {
    match strategy
    case Fragmented => Numbered(Compact(Expand(diskMap)))
    case Unfragmented => PlaceAll(FilesBelow(diskMap, |diskMap|), GapsBelow(diskMap, |diskMap|))
  }

  /** `calculate_checksum`: the checksum of the layout the strategy builds. */
  method CalculateChecksum(diskMap: seq<nat>, strategy: Strategy) returns (r: nat)
    ensures r == Checksum(Layout(diskMap, strategy))
  {
    var blocks;
    match strategy {
      case Fragmented => blocks := DiskBlocksFragmented(diskMap);
      case Unfragmented => blocks := DiskBlocksUnfragmented(diskMap);
    }
    r := Checksum(blocks);
  }
}
