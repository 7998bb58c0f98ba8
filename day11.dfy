/** Day 11: stones that change every time they are blinked at. A 0 becomes 1,
    a stone with an even number of decimal digits splits into its two halves,
    and any other stone is multiplied by 2024. The count after many blinks is
    found by a memoised recursion over single stones. */
module Day11 {
  import opened Common

  /** A positive number between 10^(k-1) and 10^k is written with k digits. */
  lemma DigitCount(n: nat, k: nat)
    requires 1 <= k && Pow10(k - 1) <= n < Pow10(k)
    ensures |Show(n)| == k
  {
    var m := |Show(n)|;
    ShowValue(n);
    Pow10Monotone(m, k - 1);
    Pow10Monotone(k, m - 1);
  }

  /** Cutting a digit string at k: the value is the front times 10^(rest)
      plus the back, which stays below 10^(rest). */
  lemma {:induction false} DecimalSplit(s: string, k: nat)
    requires AllDigits(s) && k <= |s|
    ensures DecimalValue(s) == DecimalValue(s[..k]) * Pow10(|s| - k) + DecimalValue(s[k..])
    ensures DecimalValue(s[k..]) < Pow10(|s| - k)
    decreases |s|
  {
    if k < |s| {
      var t := s[..|s| - 1];
      DecimalSplit(t, k);
      assert t[..k] == s[..k];
      assert t[k..] == s[k..][..|s[k..]| - 1];
      var d := DigitValue(s[|s| - 1]);
      assert DecimalValue(s[k..]) == DecimalValue(t[k..]) * 10 + d;
      ShiftDigit(DecimalValue(s[..k]), Pow10(|t| - k), DecimalValue(t[k..]), d);
    } else {
      assert s[..k] == s;
    }
  }

  /** Appending a digit to a number split as front * p + back. */
  lemma ShiftDigit(front: nat, p: nat, back: nat, d: nat)
    requires back < p && d < 10
    ensures (front * p + back) * 10 + d == front * (10 * p) + (back * 10 + d)
    ensures back * 10 + d < 10 * p
  {
  }

  /** The two halves of an even-length decimal text read as the quotient and
      the remainder by 10^(half the length). */
  lemma Halves(n: nat)
    requires |Show(n)| % 2 == 0
    ensures var s, h := Show(n), |Show(n)| / 2;
      DecimalValue(s[..h]) == n / Pow10(h) && DecimalValue(s[h..]) == n % Pow10(h)
  {
    var s, h := Show(n), |Show(n)| / 2;
    ShowValue(n);
    DecimalSplit(s, h);
    assert |s| - h == h;
    DivModUnique(n, Pow10(h), DecimalValue(s[..h]), DecimalValue(s[h..]));
  }

  // ---- Blinking ----

  /** What one stone becomes, reading its decimal text as the source does. */
  function BlinkStone(stone: nat): (r: seq<nat>)
    ensures stone == 0 ==> r == [1]
    ensures stone != 0 && |Show(stone)| % 2 == 0 ==>
      var h := |Show(stone)| / 2; r == [stone / Pow10(h), stone % Pow10(h)]
    ensures stone != 0 && |Show(stone)| % 2 == 1 ==> r == [stone * 2024]
  {
    if stone == 0 then [1]
    else
      var text := Show(stone);
      if |text| % 2 == 0 then
        var h := |text| / 2;
        Halves(stone);
        [DecimalValue(text[..h]), DecimalValue(text[h..])]
      else [stone * 2024]
  }

  /** `blink`: every stone in turn replaced by what it becomes. */
  function Blink(stones: seq<nat>): (r: seq<nat>)
    ensures |stones| <= |r| <= 2 * |stones|
  {
    if stones == [] then [] else BlinkStone(stones[0]) + Blink(stones[1..])
  }

  /** Stones change independently and keep their order. */
  lemma {:induction false} BlinkAppend(a: seq<nat>, b: seq<nat>)
    ensures Blink(a + b) == Blink(a) + Blink(b)
  {
    if a == [] {
      assert a + b == b;
    } else {
      assert (a + b)[1..] == a[1..] + b;
      BlinkAppend(a[1..], b);
    }
  }

  /** Blinking a longer prefix of the row adds what the next stone becomes. */
  lemma BlinkPrefix(stones: seq<nat>, i: nat)
    requires i < |stones|
    ensures Blink(stones[..0]) == []
    ensures Blink(stones[..i + 1]) == Blink(stones[..i]) + BlinkStone(stones[i])
  {
    assert stones[..i + 1] == stones[..i] + [stones[i]];
    BlinkAppend(stones[..i], [stones[i]]);
    assert [stones[i]][1..] == [];
  }

  /** The row of stones after n blinks. */
  function BlinkTimes(stones: seq<nat>, n: nat): seq<nat>
    decreases n
  {
    if n == 0 then stones else BlinkTimes(Blink(stones), n - 1)
  }

  lemma {:induction false} BlinkTimesAppend(a: seq<nat>, b: seq<nat>, n: nat)
    ensures BlinkTimes(a + b, n) == BlinkTimes(a, n) + BlinkTimes(b, n)
    decreases n
  {
    if n > 0 {
      BlinkAppend(a, b);
      BlinkTimesAppend(Blink(a), Blink(b), n - 1);
    }
  }

  // ---- Counting stone by stone ----

  /** The count `count_for_stone` computes: one stone after no blinks, else
      the counts of what it becomes after one blink fewer. */
  function Count(stone: nat, n: nat): nat
    decreases n, 0
  {
    if n == 0 then 1 else CountAll(BlinkStone(stone), n - 1)
  }

  /** The counts of a row of stones, added up. */
  function CountAll(stones: seq<nat>, n: nat): nat
    decreases n, 1, |stones|
  {
    if stones == [] then 0 else Count(stones[0], n) + CountAll(stones[1..], n)
  }

  lemma {:induction false} CountAllAppend(a: seq<nat>, b: seq<nat>, n: nat)
    ensures CountAll(a + b, n) == CountAll(a, n) + CountAll(b, n)
  {
    if a == [] {
      assert a + b == b;
    } else {
      assert (a + b)[1..] == a[1..] + b;
      CountAllAppend(a[1..], b, n);
    }
  }

  /** Counting stone by stone gives the length of the row after n blinks. */
  lemma {:induction false} CountAllIsLength(stones: seq<nat>, n: nat)
    ensures CountAll(stones, n) == |BlinkTimes(stones, n)|
    decreases n, 1, |stones|
  {
    if stones == [] {
      BlinkTimesEmpty(n);
    } else {
      CountIsLength(stones[0], n);
      CountAllIsLength(stones[1..], n);
      assert stones == [stones[0]] + stones[1..];
      BlinkTimesAppend([stones[0]], stones[1..], n);
    }
  }

  /** The count for one stone is the length of its row after n blinks. */
  lemma {:induction false} CountIsLength(stone: nat, n: nat)
    ensures Count(stone, n) == |BlinkTimes([stone], n)|
    decreases n, 0
  {
    if n > 0 {
      assert Blink([stone]) == BlinkStone(stone) by {
        assert [stone][1..] == [];
      }
      CountAllIsLength(BlinkStone(stone), n - 1);
    }
  }

  lemma {:induction false} BlinkTimesEmpty(n: nat)
    ensures BlinkTimes([], n) == []
  {
    if n > 0 {
      BlinkTimesEmpty(n - 1);
    }
  }

  // ---- The memoised recursion ----

  /** The cache `count_for_stone` threads through its calls, keyed by stone
      and number of blinks. */
  class StoneCounter {
    var cache: map<(nat, nat), nat>

    /** Every cached count is the true count. */
    predicate Valid()
      reads this
    {
      forall key :: key in cache ==> cache[key] == Count(key.0, key.1)
    }

    constructor ()
      ensures cache == map[] && Valid()
    {
      cache := map[];
    }

    /** `count_for_stone`. */
    method CountForStone(stone: nat, iterations: nat) returns (count: nat)
      requires Valid()
      modifies this
      ensures Valid() && count == Count(stone, iterations)
      ensures old(cache).Keys <= cache.Keys
      ensures iterations > 0 ==> (stone, iterations) in cache
      ensures (stone, iterations) in old(cache) ==> cache == old(cache)
      decreases iterations
    {
      if iterations == 0 {
        return 1;
      }
      if (stone, iterations) in cache {
        return cache[(stone, iterations)];
      }
      var next := Blink([stone]);
      assert next == BlinkStone(stone) by {
        assert [stone][1..] == [];
      }
      var result := 0;
      var i := 0;
      while i < |next|
        invariant 0 <= i <= |next|
        invariant Valid() && old(cache).Keys <= cache.Keys
        invariant result == CountAll(next[..i], iterations - 1)
      {
        var c := CountForStone(next[i], iterations - 1);
        CountAllSnoc(next, i, iterations - 1);
        result := result + c;
        i := i + 1;
      }
      assert next[..i] == next;
      cache := cache[(stone, iterations) := result];
      return result;
    }
  }

  lemma CountAllSnoc(stones: seq<nat>, i: nat, n: nat)
    requires i < |stones|
    ensures CountAll(stones[..i + 1], n) == CountAll(stones[..i], n) + Count(stones[i], n)
  {
    assert stones[..i + 1] == stones[..i] + [stones[i]];
    CountAllAppend(stones[..i], [stones[i]], n);
  }

  /** `count_after_blinks`: the number of stones after n blinks, with one cache
      shared by all the stones. */
  method CountAfterBlinks(stones: seq<nat>, n: nat) returns (total: nat)
    ensures total == |BlinkTimes(stones, n)|
  {
    var counter := new StoneCounter();
    total := 0;
    var i := 0;
    while i < |stones|
      invariant 0 <= i <= |stones|
      invariant counter.Valid()
      invariant total == CountAll(stones[..i], n)
    {
      var c := counter.CountForStone(stones[i], n);
      CountAllSnoc(stones, i, n);
      total := total + c;
      i := i + 1;
    }
    assert stones[..i] == stones;
    CountAllIsLength(stones, n);
  }

  // ---- Parsing ----

  /** The pieces, all parsed as `u64`, or None if one does not parse. */
  function ParseAll(pieces: seq<string>): (r: Option<seq<nat>>)
    ensures r.Some? <==> forall i :: 0 <= i < |pieces| ==> ParseU64(pieces[i]).Some?
    ensures r.Some? ==> |r.value| == |pieces| && forall i :: 0 <= i < |pieces| ==> Some(r.value[i]) == ParseU64(pieces[i])
  {
    if pieces == [] then Some([])
    else
      match (ParseU64(pieces[0]), ParseAll(pieces[1..]))
      case (Some(v), Some(vs)) =>
        assert forall i :: 1 <= i < |pieces| ==> pieces[i] == pieces[1..][i - 1];
        Some([v] + vs)
      case (_, _) =>
        assert forall i :: 1 <= i < |pieces| ==> pieces[i] == pieces[1..][i - 1];
        None
  }

  /** `parse_input`: the trimmed text split at single spaces, every piece a
      number; None where the source's `unwrap` would panic. */
  function ParseInput(s: string): Option<seq<nat>>
  {
    ParseAll(Split(Trim(s), ' '))
  }
}
