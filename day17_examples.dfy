/** The worked examples for Day 17: the small instruction samples, the
    program that halves register A and prints it, and the quine sample. */
module Day17Examples {
  import opened Common
  import opened Day17
  import opened Bits

  /** If register C contains 9, the program 2,6 sets register B to 1. */
  lemma BstSample()
    ensures Execute(Machine(0, 0, 9, [2, 6], 0), 1) == Outcome(Machine(0, 1, 9, [2, 6], 2), [], Halted)
  {
    var m := Machine(0, 0, 9, [2, 6], 0);
    assert Step(m) == Stepped(Machine(0, 1, 9, [2, 6], 2), None);
    ExecuteStep(m, 1);
  }

  /** If register A contains 10, the program 5,0,5,1,5,4 outputs 0,1,2. */
  lemma OutSample()
    ensures Execute(Machine(10, 0, 0, [5, 0, 5, 1, 5, 4], 0), 3).output == [0, 1, 2]
  {
    var p := [5, 0, 5, 1, 5, 4];
    var m0, m1, m2, m3 := Machine(10, 0, 0, p, 0), Machine(10, 0, 0, p, 2), Machine(10, 0, 0, p, 4), Machine(10, 0, 0, p, 6);
    assert Step(m0) == Stepped(m1, Some(0));
    assert Step(m1) == Stepped(m2, Some(1));
    assert Step(m2) == Stepped(m3, Some(2));
    assert Step(m3) == Halt;
    ExecuteStep(m0, 3);
    ExecuteStep(m1, 2);
    ExecuteStep(m2, 1);
  }

  /** If register B contains 2024 and register C contains 43690, the
      program 4,0 sets register B to 44354. */
  lemma BxcSample()
    ensures Execute(Machine(0, 2024, 43690, [4, 0], 0), 1).final.b == 44354
  {
    var m := Machine(0, 2024, 43690, [4, 0], 0);
    XorSample();
    assert Step(m) == Stepped(Machine(0, 44354, 43690, [4, 0], 2), None);
    ExecuteStep(m, 1);
  }

  lemma XorSample()
    ensures Xor(2024, 43690) == 44354
  {
    assert Xor(1, 42) == 43;
    assert Xor(3, 85) == 86;
    assert Xor(7, 170) == 173;
    assert Xor(15, 341) == 346;
    assert Xor(31, 682) == 693;
    assert Xor(63, 1365) == 1386;
    assert Xor(126, 2730) == 2772;
    assert Xor(253, 5461) == 5544;
    assert Xor(506, 10922) == 11088;
    assert Xor(1012, 21845) == 22177;
  }

  // ---- The program 0,k,5,4,3,0: shift A right by k bits, print A mod 8,
  //      and jump back while A is not zero ----

  function ShiftProgram(k: nat): seq<nat>
  {
    [0, k, 5, 4, 3, 0]
  }

  /** What the shift program prints: each shifted value mod 8, up to and
      including the shift that reaches zero. */
  function Shifts(a: nat, k: nat): (r: seq<nat>)
    requires 1 <= k <= 3
    ensures r != [] && r[0] == ShiftRight(a, k) % 8
    decreases a
  {
    var h := ShiftRight(a, k);
    [h % 8] + (if h == 0 then [] else Shifts(h, k))
  }

  /** How many times the shift program goes round its loop. */
  function Rounds(a: nat, k: nat): (r: nat)
    requires 1 <= k <= 3
    ensures r >= 1
    decreases a
  {
    var h := ShiftRight(a, k);
    if h == 0 then 1 else 1 + Rounds(h, k)
  }

  lemma ShiftStep(a: nat, b: nat, c: nat, k: nat)
    requires 1 <= k <= 3
    ensures Step(Machine(a, b, c, ShiftProgram(k), 0)) == Stepped(Machine(ShiftRight(a, k), b, c, ShiftProgram(k), 2), None)
  {
    var m := Machine(a, b, c, ShiftProgram(k), 0);
    assert Fetch(m) == Some((0, k));
    assert Combo(m, k) == Some(k);
    assert Quotient(m, k) == Some(ShiftRight(a, k));
  }

  lemma PrintStep(h: nat, b: nat, c: nat, k: nat)
    ensures Step(Machine(h, b, c, ShiftProgram(k), 2)) == Stepped(Machine(h, b, c, ShiftProgram(k), 4), Some(h % 8))
  {
    var m := Machine(h, b, c, ShiftProgram(k), 2);
    assert Fetch(m) == Some((5, 4));
    assert Combo(m, 4) == Some(h);
  }

  lemma JumpStep(h: nat, b: nat, c: nat, k: nat)
    ensures Step(Machine(h, b, c, ShiftProgram(k), 4))
            == Stepped(if h == 0 then Machine(0, b, c, ShiftProgram(k), 6) else Machine(h, b, c, ShiftProgram(k), 0), None)
  {
    var m := Machine(h, b, c, ShiftProgram(k), 4);
    assert Fetch(m) == Some((3, 0));
  }

  /** One round: shift, print, and jump back unless A became zero. */
  lemma ShiftRound(a: nat, b: nat, c: nat, k: nat, fuel: nat)
    requires 1 <= k <= 3 && fuel >= 3
    ensures var h := ShiftRight(a, k);
      var next := if h == 0 then Machine(0, b, c, ShiftProgram(k), 6) else Machine(h, b, c, ShiftProgram(k), 0);
      var rest := Execute(next, fuel - 3);
      Execute(Machine(a, b, c, ShiftProgram(k), 0), fuel) == Outcome(rest.final, [h % 8] + rest.output, rest.status)
  {
    hide Step, ShiftProgram, ShiftRight, Execute;
    var p := ShiftProgram(k);
    var h := ShiftRight(a, k);
    ShiftStep(a, b, c, k);
    PrintStep(h, b, c, k);
    JumpStep(h, b, c, k);
    ExecuteStep(Machine(a, b, c, p, 0), fuel);
    ExecuteStep(Machine(h, b, c, p, 2), fuel - 1);
    ExecuteStep(Machine(h, b, c, p, 4), fuel - 2);
  }

  /** Past the end of the shift program the run halts at once. */
  lemma ShiftEnd(b: nat, c: nat, k: nat, fuel: nat)
    ensures var last := Machine(0, b, c, ShiftProgram(k), 6);
      Execute(last, fuel) == Outcome(last, [], Halted)
  {
    assert Step(Machine(0, b, c, ShiftProgram(k), 6)) == Halt;
  }

  lemma ShiftsUnfold(a: nat, k: nat)
    requires 1 <= k <= 3
    ensures var h := ShiftRight(a, k);
      && Shifts(a, k) == [h % 8] + (if h == 0 then [] else Shifts(h, k))
      && Rounds(a, k) == (if h == 0 then 1 else 1 + Rounds(h, k))
  {
  }

  /** With enough fuel the shift program prints Shifts(a) and halts past
      its end with A at zero. */
  lemma {:induction false} ShiftLoop(a: nat, b: nat, c: nat, k: nat, fuel: nat)
    requires 1 <= k <= 3 && fuel >= 3 * Rounds(a, k)
    ensures Execute(Machine(a, b, c, ShiftProgram(k), 0), fuel)
            == Outcome(Machine(0, b, c, ShiftProgram(k), 6), Shifts(a, k), Halted)
    decreases a
  {
    hide Execute, Step, ShiftProgram, Shifts, Rounds, ShiftRight;
    var h := ShiftRight(a, k);
    ShiftRound(a, b, c, k, fuel);
    ShiftsUnfold(a, k);
    if h == 0 {
      ShiftEnd(b, c, k, fuel - 3);
    } else {
      assert h < a;
      ShiftLoop(h, b, c, k, fuel - 3);
    }
  }

  /** If register A contains 2024, the program 0,1,5,4,3,0 outputs
      4,2,5,6,7,7,7,7,3,1,0 and leaves 0 in register A. */
  lemma HalvingSample()
    ensures Execute(Machine(2024, 0, 0, [0, 1, 5, 4, 3, 0], 0), 33)
            == Outcome(Machine(0, 0, 0, [0, 1, 5, 4, 3, 0], 6), [4, 2, 5, 6, 7, 7, 7, 7, 3, 1, 0], Halted)
  {
    HalvingShifts();
    hide Shifts, Rounds;
    ShiftLoop(2024, 0, 0, 1, 33);
  }

  lemma HalvingShifts()
    ensures Shifts(2024, 1) == [4, 2, 5, 6, 7, 7, 7, 7, 3, 1, 0] && Rounds(2024, 1) == 11
  {
    hide Shifts, Rounds, ShiftRight;
    HalveLast(1);
    HalveStep(3, 1, [0], 1);
    HalveStep(7, 3, [1] + [0], 2);
    HalveStep(15, 7, [3] + ([1] + [0]), 3);
    HalveStep(31, 7, [7] + ([3] + ([1] + [0])), 4);
    HalveStep(63, 7, [7] + ([7] + ([3] + ([1] + [0]))), 5);
    HalveStep(126, 7, [7] + ([7] + ([7] + ([3] + ([1] + [0])))), 6);
    HalveStep(253, 6, [7] + ([7] + ([7] + ([7] + ([3] + ([1] + [0]))))), 7);
    HalveStep(506, 5, [6] + ([7] + ([7] + ([7] + ([7] + ([3] + ([1] + [0])))))), 8);
    HalveStep(1012, 2, [5] + ([6] + ([7] + ([7] + ([7] + ([7] + ([3] + ([1] + [0]))))))), 9);
    HalveStep(2024, 4, [2] + ([5] + ([6] + ([7] + ([7] + ([7] + ([7] + ([3] + ([1] + [0])))))))), 10);
  }

  /** The example computer: A = 729 and the program 0,1,5,4,3,0 outputs
      4,6,3,5,6,3,5,2,1,0. */
  lemma ExampleRun()
    ensures Execute(Machine(729, 0, 0, [0, 1, 5, 4, 3, 0], 0), 30).output == [4, 6, 3, 5, 6, 3, 5, 2, 1, 0]
  {
    ExampleShifts();
    hide Shifts, Rounds;
    ShiftLoop(729, 0, 0, 1, 30);
  }

  lemma ExampleShifts()
    ensures Shifts(729, 1) == [4, 6, 3, 5, 6, 3, 5, 2, 1, 0] && Rounds(729, 1) == 10
  {
    hide Shifts, Rounds, ShiftRight;
    HalveLast(1);
    HalveStep(2, 1, [0], 1);
    HalveStep(5, 2, [1] + [0], 2);
    HalveStep(11, 5, [2] + ([1] + [0]), 3);
    HalveStep(22, 3, [5] + ([2] + ([1] + [0])), 4);
    HalveStep(45, 6, [3] + ([5] + ([2] + ([1] + [0]))), 5);
    HalveStep(91, 5, [6] + ([3] + ([5] + ([2] + ([1] + [0])))), 6);
    HalveStep(182, 3, [5] + ([6] + ([3] + ([5] + ([2] + ([1] + [0]))))), 7);
    HalveStep(364, 6, [3] + ([5] + ([6] + ([3] + ([5] + ([2] + ([1] + [0])))))), 8);
    HalveStep(729, 4, [6] + ([3] + ([5] + ([6] + ([3] + ([5] + ([2] + ([1] + [0]))))))), 9);
  }

  /** One round of the one-bit shift program that leaves A nonzero. */
  lemma HalveStep(a: nat, d: nat, rest: seq<nat>, n: nat)
    requires a / 2 != 0 && d == a / 2 % 8
    requires Shifts(a / 2, 1) == rest && Rounds(a / 2, 1) == n
    ensures Shifts(a, 1) == [d] + rest && Rounds(a, 1) == n + 1
  {
    ShiftsUnfold(a, 1);
    assert ShiftRight(a, 1) == a / 2;
  }

  /** The last round of the one-bit shift program. */
  lemma HalveLast(a: nat)
    requires a / 2 == 0
    ensures Shifts(a, 1) == [0] && Rounds(a, 1) == 1
  {
    ShiftsUnfold(a, 1);
    assert ShiftRight(a, 1) == a / 2;
  }

  lemma ShowExampleNumbers()
    ensures Show(729) == "729" && Show(0) == "0"
  {
    assert Show(7) == "7";
    assert Show(72) == "72";
  }

  lemma ShowExampleProgram()
    ensures ShowProgram([0, 1, 5, 4, 3, 0]) == "0,1,5,4,3,0"
  {
    assert ShowProgram([0]) == "0";
    assert ShowProgram([3, 0]) == "3,0";
    assert ShowProgram([4, 3, 0]) == "4,3,0";
    assert ShowProgram([5, 4, 3, 0]) == "5,4,3,0";
    assert ShowProgram([1, 5, 4, 3, 0]) == "1,5,4,3,0";
  }

  lemma ShowExampleInput(m: Machine)
    requires m == Machine(729, 0, 0, [0, 1, 5, 4, 3, 0], 0)
    ensures ShowInput(m) == "Register A: 729\nRegister B: 0\nRegister C: 0\n\nProgram: 0,1,5,4,3,0"
  {
    ShowExampleNumbers();
    ShowExampleProgram();
    hide Show, ShowProgram;
    ExampleRegisterText(m);
    var r := RegisterText(m);
    var p := "Program: " + ShowProgram(m.program);
    assert ShowInput(m) == r + "\n\n" + p;
    hide RegisterText, ShowInput;
    assert p == "Program: 0,1,5,4,3,0";
    assert r + "\n\n" == "Register A: 729\nRegister B: 0\nRegister C: 0\n\n";
  }

  lemma ExampleRegisterText(m: Machine)
    requires m.a == 729 && m.b == 0 && m.c == 0
    requires Show(729) == "729" && Show(0) == "0"
    ensures RegisterText(m) == "Register A: 729\nRegister B: 0\nRegister C: 0"
  {
    hide Show;
    var x := "Register A: " + Show(m.a);
    var y := "Register B: " + Show(m.b);
    var z := "Register C: " + Show(m.c);
    assert x == "Register A: 729";
    assert y == "Register B: 0";
    assert z == "Register C: 0";
    assert x + "\n" + y == "Register A: 729\nRegister B: 0";
  }

  /** The example input reads as the example computer. */
  lemma ExampleParse()
    ensures ParseInput("Register A: 729\nRegister B: 0\nRegister C: 0\n\nProgram: 0,1,5,4,3,0")
            == Some(Machine(729, 0, 0, [0, 1, 5, 4, 3, 0], 0))
  {
    hide *;
    var m := Machine(729, 0, 0, [0, 1, 5, 4, 3, 0], 0);
    ShowExampleInput(m);
    ExampleValid(m);
    ParseShowInput(m);
  }

  lemma ExampleValid(m: Machine)
    requires m == Machine(729, 0, 0, [0, 1, 5, 4, 3, 0], 0)
    ensures Valid(m) && m.ip == 0 && m.program != []
    ensures forall k :: 0 <= k < |m.program| ==> m.program[k] < 10
  {
  }

  // ---- The quine sample: 0,3,5,4,3,0 prints itself for A = 117440 ----

  const QuineSample := Machine(2024, 0, 0, [0, 3, 5, 4, 3, 0], 0)

  /** Runs of the quine sample below 8^6 halt within 18 instructions and
      print (A / 8) mod 8 first. */
  lemma QuineRun(a: nat)
    requires a < 262144
    ensures Execute(QuineSample.(a := a), 18).status == Halted
    ensures Execute(QuineSample.(a := a), 18).output[0] == a / 8 % 8
  {
    Eighth(a);
    RoundsBelow(a, 6);
    ShiftLoop(a, 0, 0, 3, 18);
  }

  lemma {:induction false} RoundsBelow(a: nat, j: nat)
    requires 1 <= j && a < Pow8(j)
    ensures Rounds(a, 3) <= j
    decreases j
  {
    Eighth(a);
    if a / 8 != 0 {
      RoundsBelow(a / 8, j - 1);
    }
  }

  /** A shift by three bits is a division by 8. */
  lemma Eighth(a: nat)
    ensures ShiftRight(a, 3) == a / 8
  {
    ShiftRightDivides(a, 3);
    assert Pow2(3) == 8;
  }

  lemma QuineMatches(a: nat, digit: nat)
    requires a < 262144
    ensures Matches(QuineSample, 18, a, digit) <==> a / 8 % 8 == digit
  {
    QuineRun(a);
  }

  /** A number is its octal prefix followed by its last octal digit. */
  lemma OctalSplit(x: nat, p: nat, d: nat)
    requires d < 8
    ensures (x % 8 == d && x / 8 == p) <==> x == p * 8 + d
  {
  }

  /** The candidates, stage by stage: 0 to 7 match the last digit, and each
      later stage pins the octal prefix. */
  lemma QuineStageOne(a: nat)
    ensures Candidate(QuineSample, 18, a, 1) <==> a < 8
  {
    hide Candidate, Matches, Execute;
    CandidateStep(QuineSample, 18, a, 0);
    CandidateNone(QuineSample, 18, a / 8);
    assert QuineSample.program[5] == 0;
    if a < 8 {
      QuineMatches(a, 0);
    }
  }

  lemma QuineStage(a: nat, k: nat, prefix: nat, p: nat)
    requires 1 <= k < 6 && p < 32768
    requires forall x: nat :: Candidate(QuineSample, 18, x, k) <==> x / 8 == prefix
    requires QuineSample.program[5 - k] + prefix * 8 == p
    ensures Candidate(QuineSample, 18, a, k + 1) <==> a / 8 == p
  {
    hide Candidate, Matches, Execute;
    var digit := QuineSample.program[5 - k];
    CandidateStep(QuineSample, 18, a, k);
    if Candidate(QuineSample, 18, a, k + 1) {
      CandidateBelow(QuineSample, 18, a, k + 1);
      Pow8Monotone(k + 1, 6);
      assert Pow8(6) == 262144;
      QuineMatches(a, digit);
      OctalSplit(a / 8, prefix, digit);
    }
    if a / 8 == p {
      QuineMatches(a, digit);
      OctalSplit(a / 8, prefix, digit);
    }
  }

  lemma QuineStageTwo(a: nat)
    ensures Candidate(QuineSample, 18, a, 2) <==> a / 8 == 3
  {
    forall x: nat
      ensures Candidate(QuineSample, 18, x, 1) <==> x / 8 == 0
    {
      QuineStageOne(x);
    }
    QuineStage(a, 1, 0, 3);
  }

  lemma QuineStageThree(a: nat)
    ensures Candidate(QuineSample, 18, a, 3) <==> a / 8 == 28
  {
    forall x: nat
      ensures Candidate(QuineSample, 18, x, 2) <==> x / 8 == 3
    {
      QuineStageTwo(x);
    }
    QuineStage(a, 2, 3, 28);
  }

  lemma QuineStageFour(a: nat)
    ensures Candidate(QuineSample, 18, a, 4) <==> a / 8 == 229
  {
    forall x: nat
      ensures Candidate(QuineSample, 18, x, 3) <==> x / 8 == 28
    {
      QuineStageThree(x);
    }
    QuineStage(a, 3, 28, 229);
  }

  lemma QuineStageFive(a: nat)
    ensures Candidate(QuineSample, 18, a, 5) <==> a / 8 == 1835
  {
    forall x: nat
      ensures Candidate(QuineSample, 18, x, 4) <==> x / 8 == 229
    {
      QuineStageFour(x);
    }
    QuineStage(a, 4, 229, 1835);
  }

  /** The A values that reproduce the whole sample program are exactly
      117440 to 117447. */
  lemma QuineCandidates(a: nat)
    ensures Candidate(QuineSample, 18, a, 6) <==> 117440 <= a < 117448
  {
    forall x: nat
      ensures Candidate(QuineSample, 18, x, 5) <==> x / 8 == 1835
    {
      QuineStageFive(x);
    }
    QuineStage(a, 5, 1835, 14680);
  }

  lemma Pow8Six()
    ensures Pow8(6) == 262144
  {
  }

  /** What `reverse_engineer_quine` promises, on the sample, leaves only
      117440. */
  lemma QuineSampleResult(m: Machine, result: Quine)
    requires m == QuineSample
    requires result.Found? ==> Candidate(m, 18, result.registerA, |m.program|)
    requires result.Found? ==> forall a :: Candidate(m, 18, a, |m.program|) ==> result.registerA <= a
    requires result.NoCandidate? ==> forall a :: !Candidate(m, 18, a, |m.program|)
    requires result.Stuck? ==> Execute(m.(a := result.registerA), 18).status != Halted
    requires result.Stuck? ==> result.registerA < Pow8(|m.program|)
    ensures result == Found(117440)
  {
    hide Candidate, Matches, Execute, Step;
    assert |QuineSample.program| == 6;
    Pow8Six();
    QuineCandidates(117440);
    match result
    case Found(a) =>
      QuineCandidates(a);
    case NoCandidate =>
    case Stuck(a) =>
      QuineRun(a);
  }

  /** `reverse_engineer_quine` on the sample finds 117440. */
  method QuineOfSample() returns (result: Quine)
    ensures result == Found(117440)
  {
    hide *;
    var computer := new Computer(QuineSample);
    result := ReverseEngineerQuine(computer, 18);
    QuineSampleResult(computer.State(), result);
  }
}
