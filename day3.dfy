/** Day 3: the instructions recovered from a corrupted program, summed with
    and without honouring the do()/don't() switches. The regular-expression
    scan that extracts the instructions is not part of this model. */
module Day3 {

  /** A recovered instruction; the scan only yields operands of 1 to 3
      digits. */
  datatype Instruction = Mul(lhs: nat, rhs: nat) | Do | Dont

  function Product(i: Instruction): nat
  {
    if i.Mul? then i.lhs * i.rhs else 0
  }

  /** `sum_muls`: every multiplication counts, switches are ignored. */
  function SumMuls(instructions: seq<Instruction>): nat
  {
    if instructions == [] then 0
    else Product(instructions[0]) + SumMuls(instructions[1..])
  }

  /** The fold state: running sum and whether multiplications are enabled. */
  datatype State = State(sum: nat, active: bool)

  /** One step of the fold in `sum_instructions`. */
  function Step(s: State, i: Instruction): (r: State)
    ensures r.sum == s.sum + (if s.active then Product(i) else 0)
    ensures r.active == (if i.Do? then true else if i.Dont? then false else s.active)
  {
    match (s.active, i)
    case (true, Mul(lhs, rhs)) => State(s.sum + lhs * rhs, true)
    case (false, Mul(_, _)) => State(s.sum, false)
    case (_, Do) => State(s.sum, true)
    case (_, Dont) => State(s.sum, false)
  }

  /** Left fold of Step over the instructions. */
  function Fold(instructions: seq<Instruction>, s: State): State
  {
    if instructions == [] then s
    else Fold(instructions[1..], Step(s, instructions[0]))
  }

  /** `sum_instructions`: the fold from (0, enabled), keeping the sum. */
  function SumInstructions(instructions: seq<Instruction>): nat
  {
    Fold(instructions, State(0, true)).sum
  }

  /** Honouring the switches never adds: the fold's sum grows by at most the
      products it meets. */
  lemma {:induction false} FoldBounded(instructions: seq<Instruction>, s: State)
    ensures s.sum <= Fold(instructions, s).sum <= s.sum + SumMuls(instructions)
  {
    if instructions != [] {
      FoldBounded(instructions[1..], Step(s, instructions[0]));
    }
  }

  lemma SumInstructionsAtMostSumMuls(instructions: seq<Instruction>)
    ensures SumInstructions(instructions) <= SumMuls(instructions)
  {
    FoldBounded(instructions, State(0, true));
  }

  predicate NoDont(instructions: seq<Instruction>)
  {
    forall k :: 0 <= k < |instructions| ==> !instructions[k].Dont?
  }

  /** Without a don't(), the switch stays on and every product counts. */
  lemma {:induction false} FoldWithoutDont(instructions: seq<Instruction>, sum: nat)
    requires NoDont(instructions)
    ensures Fold(instructions, State(sum, true)) == State(sum + SumMuls(instructions), true)
  {
    if instructions != [] {
      assert !instructions[0].Dont?;
      assert NoDont(instructions[1..]) by {
        assert forall k :: 0 <= k < |instructions[1..]| ==> instructions[1..][k] == instructions[k + 1];
      }
      FoldWithoutDont(instructions[1..], sum + Product(instructions[0]));
    }
  }

  lemma SumsAgreeWithoutDont(instructions: seq<Instruction>)
    requires NoDont(instructions)
    ensures SumInstructions(instructions) == SumMuls(instructions)
  {
    FoldWithoutDont(instructions, 0);
  }

  // ---- An independent description of which multiplications count ----

  /** Is multiplication enabled after these instructions? The last switch
      decides, and with no switch at all it is enabled. */
  function EnabledAfter(prefix: seq<Instruction>): bool
  {
    if prefix == [] then true
    else
      var last := prefix[|prefix| - 1];
      if last.Do? then true else if last.Dont? then false else EnabledAfter(prefix[..|prefix| - 1])
  }

  /** Sum of the products at the positions where multiplication is enabled. */
  function EnabledProducts(instructions: seq<Instruction>): nat
  {
    if instructions == [] then 0
    else
      var init := instructions[..|instructions| - 1];
      EnabledProducts(init) + (if EnabledAfter(init) then Product(instructions[|instructions| - 1]) else 0)
  }

  lemma {:induction false} FoldSnoc(instructions: seq<Instruction>, i: Instruction, s: State)
    ensures Fold(instructions + [i], s) == Step(Fold(instructions, s), i)
  {
    if instructions != [] {
      assert (instructions + [i])[1..] == instructions[1..] + [i];
      FoldSnoc(instructions[1..], i, Step(s, instructions[0]));
    } else {
      assert instructions + [i] == [i];
    }
  }

  /** The fold keeps exactly the switch state and the enabled products. */
  lemma {:induction false} FoldIsEnabledProducts(instructions: seq<Instruction>)
    ensures Fold(instructions, State(0, true)) == State(EnabledProducts(instructions), EnabledAfter(instructions))
  {
    if instructions != [] {
      var init, last := instructions[..|instructions| - 1], instructions[|instructions| - 1];
      assert instructions == init + [last];
      FoldIsEnabledProducts(init);
      FoldSnoc(init, last, State(0, true));
    }
  }

  lemma SumInstructionsCountsEnabled(instructions: seq<Instruction>)
    ensures SumInstructions(instructions) == EnabledProducts(instructions)
  {
    FoldIsEnabledProducts(instructions);
  }

  // ---- The worked example ----

  lemma ExampleSums()
    ensures SumMuls([Mul(2, 4), Dont, Mul(5, 5), Mul(11, 8), Do, Mul(8, 5)]) == 161
    ensures SumInstructions([Mul(2, 4), Dont, Mul(5, 5), Mul(11, 8), Do, Mul(8, 5)]) == 48
  {
  }
}
