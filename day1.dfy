/** Day 1: two columns of location ids, compared after sorting (total
    distance) and by occurrence counts (similarity score). */
module Day1 {
  import opened Common

  /** The three-space separator between the two columns. */
  const Separator: string := "   "

  /** What one line contributes: nothing without the separator, the two ids
      when both sides parse, and an abort (the source's `unwrap`) otherwise. */
  datatype LineEntry = Skipped | Entry(left: nat, right: nat) | Malformed

  predicate HasSeparator(line: string)
  {
    SplitOnce(line, Separator).Some?
  }

  function ParseLine(line: string): (e: LineEntry)
    ensures e.Skipped? <==> !HasSeparator(line)
    ensures e.Entry? ==> e.left < U32Limit && e.right < U32Limit
    ensures e.Entry? ==> var (l, r) := SplitOnce(line, Separator).value;
      ParseU32(l) == Some(e.left) && ParseU32(r) == Some(e.right)
  {
    match SplitOnce(line, Separator)
    case None => Skipped
    case Some((l, r)) =>
      match (ParseU32(l), ParseU32(r))
      case (Some(a), Some(b)) => Entry(a, b)
      case _ => Malformed
  }

  /** The lines that contain the separator, in order. */
  function WithSeparator(lines: seq<string>): (r: seq<string>)
    ensures |r| <= |lines|
    ensures forall k :: 0 <= k < |r| ==> HasSeparator(r[k]) && r[k] in lines
    ensures forall x :: x in lines && HasSeparator(x) ==> x in r
  {
    if lines == [] then []
    else
      var last := lines[|lines| - 1];
      assert forall x :: x in lines ==> x in lines[..|lines| - 1] || x == last by {
        assert lines == lines[..|lines| - 1] + [last];
      }
      WithSeparator(lines[..|lines| - 1]) + (if HasSeparator(last) then [last] else [])
  }

  /** Lines are kept part by part: with the single-line case this says the
      kept lines are exactly those with the separator, in their order. */
  lemma {:induction false} WithSeparatorAppend(a: seq<string>, b: seq<string>)
    ensures WithSeparator(a + b) == WithSeparator(a) + WithSeparator(b)
    decreases |b|
  {
    if b == [] {
      assert a + b == a;
    } else {
      var b' := b[..|b| - 1];
      assert (a + b)[..|a + b| - 1] == a + b';
      WithSeparatorAppend(a, b');
    }
  }

  /** A single line is kept exactly when it holds the separator. */
  lemma WithSeparatorSingle(line: string)
    ensures WithSeparator([line]) == if HasSeparator(line) then [line] else []
  {
    assert [line][..0] == [];
  }

  predicate NoMalformed(lines: seq<string>)
  {
    forall i :: 0 <= i < |lines| ==> !ParseLine(lines[i]).Malformed?
  }

  /** `parse_input`: one id per column for every line that has the separator;
      a line whose sides are not both u32 aborts, which is None here. */
  method ParseInput(input: string) returns (result: Option<(seq<nat>, seq<nat>)>)
    ensures result.Some? <==> NoMalformed(Lines(input))
    ensures result.Some? ==> EntriesMatch(WithSeparator(Lines(input)), result.value.0, result.value.1)
  {
    var lines := Lines(input);
    var left: seq<nat>, right: seq<nat> := [], [];
    ghost var kept: seq<string> := [];
    var i := 0;
    while i < |lines|
      invariant 0 <= i <= |lines|
      invariant NoMalformed(lines[..i])
      invariant kept == WithSeparator(lines[..i])
      invariant EntriesMatch(kept, left, right)
    {
      var entry := ParseLine(lines[i]);
      if entry.Malformed? {
        NotAllWellFormed(lines, i);
        return None;
      }
      PrefixStep(lines, i);
      if entry.Entry? {
        EntriesExtend(kept, left, right, lines[i]);
        left, right, kept := left + [entry.left], right + [entry.right], kept + [lines[i]];
      }
      i := i + 1;
    }
    assert lines[..i] == lines;
    return Some((left, right));
  }

  predicate EntriesMatch(kept: seq<string>, left: seq<nat>, right: seq<nat>)
  {
    |left| == |right| == |kept| &&
    forall k :: 0 <= k < |kept| ==> ParseLine(kept[k]) == Entry(left[k], right[k])
  }

  lemma EntriesExtend(kept: seq<string>, left: seq<nat>, right: seq<nat>, line: string)
    requires EntriesMatch(kept, left, right) && ParseLine(line).Entry?
    ensures EntriesMatch(kept + [line], left + [ParseLine(line).left], right + [ParseLine(line).right])
  {
  }

  /** One more line: kept if it has the separator, and still well formed. */
  lemma PrefixStep(lines: seq<string>, i: nat)
    requires i < |lines| && NoMalformed(lines[..i]) && !ParseLine(lines[i]).Malformed?
    ensures NoMalformed(lines[..i + 1])
    ensures WithSeparator(lines[..i + 1]) == WithSeparator(lines[..i]) + (if HasSeparator(lines[i]) then [lines[i]] else [])
  {
    var next := lines[..i + 1];
    assert next[..i] == lines[..i] && next[i] == lines[i];
  }

  lemma NotAllWellFormed(lines: seq<string>, i: nat)
    requires i < |lines| && ParseLine(lines[i]).Malformed?
    ensures !NoMalformed(lines)
  {
  }

  /** `to_sorted_pairs`: the k-th smallest left id with the k-th smallest
      right id, as far as the shorter column goes. */
  function SortedPairs(left: seq<nat>, right: seq<nat>): (r: seq<(nat, nat)>)
    ensures |r| == if |left| <= |right| then |left| else |right|
    ensures forall k :: 0 <= k < |r| ==> r[k] == (Sort(left)[k], Sort(right)[k])
  {
    Zip(Sort(left), Sort(right))
  }

  /** Iterator `zip`: pairs up elements until either side runs out. */
  function Zip(xs: seq<nat>, ys: seq<nat>): (r: seq<(nat, nat)>)
    ensures |r| == if |xs| <= |ys| then |xs| else |ys|
    ensures forall k :: 0 <= k < |r| ==> r[k] == (xs[k], ys[k])
  {
    if xs == [] || ys == [] then []
    else [(xs[0], ys[0])] + Zip(xs[1..], ys[1..])
  }

  /** The pairs zip two ascending permutations of the columns. */
  lemma SortedPairsAreSorted(left: seq<nat>, right: seq<nat>)
    requires |left| == |right|
    ensures var r := SortedPairs(left, right);
      Ascending(Firsts(r)) && Ascending(Seconds(r)) &&
      multiset(Firsts(r)) == multiset(left) && multiset(Seconds(r)) == multiset(right)
  {
    var r := SortedPairs(left, right);
    assert Firsts(r) == Sort(left);
    assert Seconds(r) == Sort(right);
  }

  function Firsts(pairs: seq<(nat, nat)>): (r: seq<nat>)
    ensures |r| == |pairs| && forall k :: 0 <= k < |r| ==> r[k] == pairs[k].0
  {
    seq(|pairs|, k requires 0 <= k < |pairs| => pairs[k].0)
  }

  function Seconds(pairs: seq<(nat, nat)>): (r: seq<nat>)
    ensures |r| == |pairs| && forall k :: 0 <= k < |r| ==> r[k] == pairs[k].1
  {
    seq(|pairs|, k requires 0 <= k < |pairs| => pairs[k].1)
  }

  function AbsDiff(a: nat, b: nat): nat
  {
    if a <= b then b - a else a - b
  }

  /** `sum_diffs`: total distance over the pairs. */
  function SumDiffs(pairs: seq<(nat, nat)>): nat
  {
    if pairs == [] then 0
    else AbsDiff(pairs[0].0, pairs[0].1) + SumDiffs(pairs[1..])
  }

  /** The total distance is zero exactly when every pair matches. */
  lemma {:induction false} SumDiffsZero(pairs: seq<(nat, nat)>)
    ensures SumDiffs(pairs) == 0 <==> forall k :: 0 <= k < |pairs| ==> pairs[k].0 == pairs[k].1
  {
    if pairs != [] {
      var tail := pairs[1..];
      SumDiffsZero(tail);
      assert forall k :: 1 <= k < |pairs| ==> pairs[k] == tail[k - 1];
    }
  }

  /** `sum_similarity_scores`: each left id times the number of times it
      occurs in the right column (`counts`, absent ids counting 0). */
  function Similarity(left: seq<nat>, right: seq<nat>): nat
  {
    if left == [] then 0
    else left[0] * multiset(right)[left[0]] + Similarity(left[1..], right)
  }

  lemma {:induction false} SimilarityAppend(a: seq<nat>, b: seq<nat>, right: seq<nat>)
    ensures Similarity(a + b, right) == Similarity(a, right) + Similarity(b, right)
  {
    if a != [] {
      assert (a + b)[1..] == a[1..] + b;
      SimilarityAppend(a[1..], b, right);
    } else {
      assert a + b == b;
    }
  }

  /** Adding an id x to the right column adds x once per occurrence of x on
      the left. */
  lemma {:induction false} SimilaritySnocRight(left: seq<nat>, right: seq<nat>, x: nat)
    ensures Similarity(left, right + [x]) == Similarity(left, right) + x * multiset(left)[x]
  {
    if left != [] {
      var id: nat, tail: seq<nat> := left[0], left[1..];
      assert left == [id] + tail;
      SimilaritySnocRight(tail, right, x);
      if id == x {
        MatchingId(tail, right, x);
      } else {
        assert multiset(right + [x])[id] == multiset(right)[id];
        assert multiset(left)[x] == multiset(tail)[x];
      }
    }
  }

  lemma MatchingId(tail: seq<nat>, right: seq<nat>, x: nat)
    ensures x * multiset(right + [x])[x] == x * multiset(right)[x] + x
    ensures x * multiset([x] + tail)[x] == x * multiset(tail)[x] + x
  {
    var m, n := multiset(right)[x], multiset(tail)[x];
    assert multiset(right + [x])[x] == m + 1;
    assert multiset([x] + tail)[x] == n + 1;
    MulSucc(x, m);
    MulSucc(x, n);
  }

  lemma MulSucc(x: nat, m: nat)
    ensures x * (m + 1) == x * m + x
  {
  }

  /** The similarity score is symmetric in the two columns: both count every
      matching (left, right) position pair once, weighted by the id. */
  lemma {:induction false} SimilaritySymmetric(left: seq<nat>, right: seq<nat>)
    ensures Similarity(left, right) == Similarity(right, left)
    decreases |right|
  {
    if right == [] {
      EmptyRight(left);
    } else {
      var init, x := right[..|right| - 1], right[|right| - 1];
      assert right == init + [x];
      SimilaritySymmetric(left, init);
      SimilaritySnocRight(left, init, x);
      SimilarityAppend(init, [x], left);
    }
  }

  lemma {:induction false} EmptyRight(left: seq<nat>)
    ensures Similarity(left, []) == 0
  {
    if left != [] {
      EmptyRight(left[1..]);
    }
  }

  /** The score depends on the right column only through its counts. */
  lemma SimilarityOfPermutedRight(left: seq<nat>, right: seq<nat>, shuffled: seq<nat>)
    requires multiset(shuffled) == multiset(right)
    ensures Similarity(left, shuffled) == Similarity(left, right)
  {
    SimilarityCounts(left, right, shuffled);
  }

  lemma {:induction false} SimilarityCounts(left: seq<nat>, right: seq<nat>, shuffled: seq<nat>)
    requires multiset(shuffled) == multiset(right)
    ensures Similarity(left, shuffled) == Similarity(left, right)
  {
    if left != [] {
      SimilarityCounts(left[1..], right, shuffled);
    }
  }

  // ---- The worked example ----

  lemma ExampleSortedLeft(left: seq<nat>)
    requires left == [3, 4, 2, 1, 3, 3]
    ensures Sort(left) == [1, 2, 3, 3, 3, 4]
  {
    var sorted: seq<nat> := [1, 2, 3, 3, 3, 4];
    LeftCounts(left);
    LeftSorted(sorted);
    SortIsUnique(left, sorted);
  }

  lemma LeftCounts(left: seq<nat>)
    requires left == [3, 4, 2, 1, 3, 3]
    ensures multiset(left) == multiset{1, 2, 3, 3, 3, 4}
  {
  }

  lemma LeftSorted(sorted: seq<nat>)
    requires sorted == [1, 2, 3, 3, 3, 4]
    ensures multiset(sorted) == multiset{1, 2, 3, 3, 3, 4} && Ascending(sorted)
  {
  }

  lemma ExampleSortedRight(right: seq<nat>)
    requires right == [4, 3, 5, 3, 9, 3]
    ensures Sort(right) == [3, 3, 3, 4, 5, 9]
  {
    var sorted: seq<nat> := [3, 3, 3, 4, 5, 9];
    RightCounts(right);
    RightSorted(sorted);
    SortIsUnique(right, sorted);
  }

  lemma RightCounts(right: seq<nat>)
    requires right == [4, 3, 5, 3, 9, 3]
    ensures multiset(right) == multiset{3, 3, 3, 4, 5, 9}
  {
  }

  lemma RightSorted(sorted: seq<nat>)
    requires sorted == [3, 3, 3, 4, 5, 9]
    ensures multiset(sorted) == multiset{3, 3, 3, 4, 5, 9} && Ascending(sorted)
  {
  }

  lemma ExampleSortedPairs(left: seq<nat>, right: seq<nat>)
    requires left == [3, 4, 2, 1, 3, 3] && right == [4, 3, 5, 3, 9, 3]
    ensures SortedPairs(left, right) == [(1, 3), (2, 3), (3, 3), (3, 4), (3, 5), (4, 9)]
  {
    ExampleSortedLeft(left);
    ExampleSortedRight(right);
    ExampleZip([1, 2, 3, 3, 3, 4], [3, 3, 3, 4, 5, 9]);
  }

  lemma ExampleZip(l: seq<nat>, s: seq<nat>)
    requires l == [1, 2, 3, 3, 3, 4] && s == [3, 3, 3, 4, 5, 9]
    ensures Zip(l, s) == [(1, 3), (2, 3), (3, 3), (3, 4), (3, 5), (4, 9)]
  {
  }

  lemma ExampleSumDiffs()
    ensures SumDiffs([(1, 3), (2, 3), (3, 3), (3, 4), (3, 5), (4, 9)]) == 11
  {
  }

  lemma ExampleSimilarity()
    ensures Similarity([3, 4, 2, 1, 3, 3], [4, 3, 5, 3, 9, 3]) == 31
  {
  }
}
