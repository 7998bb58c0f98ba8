/** Day 22: monkey market. Each buyer's secret number evolves by a fixed
    mix-and-prune step; the last digit of each secret is a price, and a
    monkey sells at the first time the last four price changes match the
    sequence it was told. */
module Day22 {
  import opened Common
  import opened Bits

  /** `prune` keeps the secret below 2^24. */
  const PruneModulus: nat := 16777216

  lemma PruneModulusIsPow2()
    ensures Pow2(24) == PruneModulus
  {
    assert Pow2(4) == 16;
    Pow2Add(4, 4);
    Pow2Add(8, 8);
    Pow2Add(16, 8);
  }

  /** `mix`: the secret becomes its bitwise exclusive or with value. */
  function Mix(secret: nat, value: nat): nat
  {
    Xor(secret, value)
  }

  /** Mixing the same value in twice gives the secret back. */
  lemma MixUndo(secret: nat, value: nat)
    ensures Mix(Mix(secret, value), value) == secret
  {
    XorSelfInverse(secret, value);
  }

  /** `prune`: the secret modulo 2^24. */
  function Prune(secret: nat): (r: nat)
    ensures r < PruneModulus
    ensures secret < PruneModulus ==> r == secret
  {
    secret % PruneModulus
  }

  /** Pruning twice is pruning once. */
  lemma PruneIdempotent(secret: nat)
    ensures Prune(Prune(secret)) == Prune(secret)
  {
  }

  /** The three mix-and-prune stages of `next_secret`: multiply by 64,
      divide by 32, multiply by 2048. */
  function NextSecretOf(secret: nat): (r: nat)
    ensures r < PruneModulus
  {
    var a := Prune(Mix(secret, secret * 64));
    var b := Prune(Mix(a, a / 32));
    Prune(Mix(b, b * 2048))
  }

  /** The divide stage keeps a secret below 2^24 within 24 bits, so its
      prune changes nothing. */
  lemma DivideStageInRange(a: nat)
    requires a < PruneModulus
    ensures Mix(a, a / 32) < PruneModulus
  {
    PruneModulusIsPow2();
    XorBelow(a, a / 32, 24);
  }

  /** `next_secret`, updating a local number stage by stage. */
  method NextSecret(secret: nat) returns (next: nat)
    ensures next == NextSecretOf(secret) && next < PruneModulus
  {
    next := secret;
    next := Mix(next, next * 64);
    next := Prune(next);
    next := Mix(next, next / 32);
    next := Prune(next);
    next := Mix(next, next * 2048);
    next := Prune(next);
  }

  /** The n-th element of `pseudorandom(seed)`: the seed, then each secret
      the next one of the previous. */
  function Secret(seed: nat, n: nat): (r: nat)
    ensures n > 0 ==> r < PruneModulus
  {
    if n == 0 then seed else NextSecretOf(Secret(seed, n - 1))
  }

  /** Going on from the m-th secret for n more steps is the (m + n)-th. */
  lemma {:induction false} SecretShift(seed: nat, m: nat, n: nat)
    ensures Secret(Secret(seed, m), n) == Secret(seed, m + n)
    decreases n
  {
    if n > 0 {
      SecretShift(seed, m, n - 1);
    }
  }

  /** `iterate_and_sum`: the 2000th secret after each seed, summed. */
  function IterateAndSum(seeds: seq<nat>): nat
  {
    if seeds == [] then 0 else IterateAndSum(seeds[..|seeds| - 1]) + Secret(seeds[|seeds| - 1], 2000)
  }

  /** Each summand is below 2^24. */
  lemma {:induction false} IterateAndSumBound(seeds: seq<nat>)
    ensures IterateAndSum(seeds) <= |seeds| * (PruneModulus - 1)
  {
    if seeds != [] {
      IterateAndSumBound(seeds[..|seeds| - 1]);
    }
  }

  // ---- Prices ----

  /** The prices of a buyer: the last digit of each of the first 2000
      secrets, seed included. */
  function Prices(seed: nat): (prices: seq<nat>)
    ensures |prices| == 2000
    ensures forall i :: 0 <= i < 2000 ==> prices[i] < 10 && prices[i] == Secret(seed, i) % 10
  {
    seq(2000, i requires 0 <= i < 2000 => Secret(seed, i) % 10)
  }

  /** Four successive price changes. */
  type Changes = (int, int, int, int)

  /** The number of five-price windows `tuple_windows` yields. */
  function WindowCount(prices: seq<nat>): nat
  {
    if |prices| >= 5 then |prices| - 4 else 0
  }

  /** The four changes of the window starting at k. */
  function ChangesAt(prices: seq<nat>, k: nat): Changes
    requires k + 4 < |prices|
  {
    (prices[k + 1] as int - prices[k] as int, prices[k + 2] as int - prices[k + 1] as int, prices[k + 3] as int - prices[k + 2] as int, prices[k + 4] as int - prices[k + 3] as int)
  }

  /** The price the monkey gets for changes among the first k windows: the
      last price of the first window showing them, if any. */
  function FirstSale(prices: seq<nat>, changes: Changes, k: nat): Option<nat>
    requires k <= WindowCount(prices)
  {
    if k == 0 then None
    else match FirstSale(prices, changes, k - 1)
      case Some(price) => Some(price)
      case None => if ChangesAt(prices, k - 1) == changes then Some(prices[k + 3]) else None
  }

  /** A sale happens exactly at the first window showing the changes, for
      the last price of that window, and never when no window shows them. */
  lemma {:induction false} FirstSaleSpec(prices: seq<nat>, changes: Changes, k: nat)
    requires k <= WindowCount(prices)
    ensures FirstSale(prices, changes, k).None? <==> forall j :: 0 <= j < k ==> ChangesAt(prices, j) != changes
    ensures FirstSale(prices, changes, k).Some? ==> exists j :: (0 <= j < k && ChangesAt(prices, j) == changes
      && FirstSale(prices, changes, k).value == prices[j + 4]
      && forall i :: 0 <= i < j ==> ChangesAt(prices, i) != changes)
    decreases k
  {
    if k > 0 {
      FirstSaleSpec(prices, changes, k - 1);
      if FirstSale(prices, changes, k - 1).None? && ChangesAt(prices, k - 1) == changes {
        assert FirstSale(prices, changes, k).value == prices[k - 1 + 4];
      }
    }
  }

  lemma FirstSaleZero(prices: seq<nat>)
    ensures forall changes :: FirstSale(prices, changes, 0) == None
  {
  }

  lemma FirstSaleStep(prices: seq<nat>, k: nat)
    requires k < WindowCount(prices)
    ensures forall changes :: (FirstSale(prices, changes, k + 1) ==
      if FirstSale(prices, changes, k).Some? then FirstSale(prices, changes, k)
      else if ChangesAt(prices, k) == changes then Some(prices[k + 4]) else None)
  {
  }

  /** The bananas one buyer pays for the changes: 0 without a sale. */
  function Bananas(prices: seq<nat>, changes: Changes): nat
  {
    match FirstSale(prices, changes, WindowCount(prices))
    case Some(price) => price
    case None => 0
  }

  lemma BananasAre(prices: seq<nat>)
    ensures forall changes :: (Bananas(prices, changes) ==
      match FirstSale(prices, changes, WindowCount(prices)) case Some(price) => price case None => 0)
  {
  }

  /** A missing entry of the score map counts as 0, as `or_default` has it. */
  function Get(scores: map<Changes, nat>, changes: Changes): nat
  {
    if changes in scores then scores[changes] else 0
  }

  /** `populate_sequence_scores`: credits every change sequence a buyer
      shows with the buyer's price at its first showing, once. */
  method PopulateSequenceScores(scores: map<Changes, nat>, seed: nat) returns (scores': map<Changes, nat>)
    ensures forall changes :: Get(scores', changes) == Get(scores, changes) + Bananas(Prices(seed), changes)
    ensures forall changes :: changes in scores' <==> changes in scores || FirstSale(Prices(seed), changes, WindowCount(Prices(seed))).Some?
  {
    hide FirstSale, Prices, Secret, Bananas;
    var prices := Prices(seed);
    var seen: set<Changes> := {};
    scores' := scores;
    var n := WindowCount(prices);
    var k := 0;
    FirstSaleZero(prices);
    while k < n
      invariant k <= n
      invariant forall changes :: changes in seen <==> FirstSale(prices, changes, k).Some?
      invariant forall changes :: (Get(scores', changes) == Get(scores, changes) +
        match FirstSale(prices, changes, k) case Some(price) => price case None => 0)
      invariant forall changes :: changes in scores' <==> changes in scores || FirstSale(prices, changes, k).Some?
    {
      var changes := (prices[k + 1] as int - prices[k] as int, prices[k + 2] as int - prices[k + 1] as int, prices[k + 3] as int - prices[k + 2] as int, prices[k + 4] as int - prices[k + 3] as int);
      assert changes == ChangesAt(prices, k);
      FirstSaleStep(prices, k);
      if changes !in seen {
        seen := seen + {changes};
        scores' := scores'[changes := Get(scores', changes) + prices[k + 4]];
      }
      k := k + 1;
    }
    BananasAre(prices);
  }

  /** What the changes earn across all buyers. */
  function TotalBananas(seeds: seq<nat>, changes: Changes): nat
  {
    if seeds == [] then 0
    else TotalBananas(seeds[..|seeds| - 1], changes) + Bananas(Prices(seeds[|seeds| - 1]), changes)
  }

  /** `sequence_scores.values().max().unwrap_or(&0)`. */
  method MaxValue(scores: map<Changes, nat>) returns (best: nat)
    ensures forall changes :: changes in scores ==> scores[changes] <= best
    ensures scores == map[] ==> best == 0
    ensures scores != map[] ==> exists changes :: changes in scores && scores[changes] == best
  {
    best := 0;
    var rest := scores.Keys;
    while rest != {}
      invariant rest <= scores.Keys
      invariant forall changes :: changes in scores && changes !in rest ==> scores[changes] <= best
      invariant best == 0 || exists changes :: changes in scores && scores[changes] == best
      decreases |rest|
    {
      var changes :| changes in rest;
      if scores[changes] > best {
        best := scores[changes];
      }
      rest := rest - {changes};
    }
    if scores != map[] && best == 0 {
      var changes :| changes in scores;
      assert scores[changes] == best;
    }
  }

  /** `bananas_from_best_diff_sequence`: the most bananas any one change
      sequence earns across all buyers; 0 when none is ever shown. */
  method BananasFromBestDiffSequence(seeds: seq<nat>) returns (best: nat)
    ensures forall changes :: TotalBananas(seeds, changes) <= best
    ensures best == 0 || exists changes :: TotalBananas(seeds, changes) == best
  {
    var scores: map<Changes, nat> := map[];
    var i := 0;
    while i < |seeds|
      invariant i <= |seeds|
      invariant forall changes :: Get(scores, changes) == TotalBananas(seeds[..i], changes)
    {
      scores := PopulateSequenceScores(scores, seeds[i]);
      assert seeds[..i + 1][..i] == seeds[..i];
      i := i + 1;
    }
    assert seeds[..i] == seeds;
    best := MaxValue(scores);
    forall changes
      ensures TotalBananas(seeds, changes) <= best
    {
      assert Get(scores, changes) == TotalBananas(seeds, changes);
    }
    if best != 0 {
      var changes :| changes in scores && scores[changes] == best;
      assert Get(scores, changes) == TotalBananas(seeds, changes);
    }
  }

  // ---- Input ----

  /** `parse_input`: one seed per line; any line that is not a `u64`
      makes the source panic, None here. */
  function ParseSeeds(lines: seq<string>): (r: Option<seq<nat>>)
    ensures r.Some? <==> forall i :: 0 <= i < |lines| ==> ParseU64(lines[i]).Some?
    ensures r.Some? ==> |r.value| == |lines| && forall i :: 0 <= i < |lines| ==> Some(r.value[i]) == ParseU64(lines[i])
  {
    if lines == [] then Some([])
    else
      match (ParseSeeds(lines[..|lines| - 1]), ParseU64(lines[|lines| - 1]))
      case (Some(front), Some(last)) => Some(front + [last])
      case _ => None
  }

  /** `parse_input`: the seeds of the input's lines. */
  function ParseInput(input: string): (r: Option<seq<nat>>)
    ensures r.Some? <==> forall i :: 0 <= i < |Lines(input)| ==> ParseU64(Lines(input)[i]).Some?
    ensures r.Some? ==> (|r.value| == |Lines(input)|
      && forall i :: 0 <= i < |Lines(input)| ==> Some(r.value[i]) == ParseU64(Lines(input)[i]))
  {
    ParseSeeds(Lines(input))
  }
}
