/** Day 17: a three-bit computer. It has three registers A, B and C, a
    program of three-bit opcodes each followed by an operand, and an
    instruction pointer. Part one runs a program and collects what it
    outputs; part two finds the least value of register A for which the
    program prints itself, building it three bits at a time from the last
    program digit backwards. */
module Day17 {
  import opened Common
  import opened Bits

  // ---- The machine ----

  /** A computer's whole state, as a value: `Computer` as a record. */
  datatype Machine = Machine(a: nat, b: nat, c: nat, program: seq<nat>, ip: nat)

  /** Registers fit in `usize` and program entries in `u8`. */
  predicate Valid(m: Machine)
  {
    m.a < U64Limit && m.b < U64Limit && m.c < U64Limit
    && forall k :: 0 <= k < |m.program| ==> m.program[k] < U8Limit
  }

  /** The (opcode, operand) pair at the instruction pointer, if both are
      inside the program. */
  function Fetch(m: Machine): (r: Option<(nat, nat)>)
    ensures r.Some? <==> m.ip + 1 < |m.program|
    ensures r.Some? ==> r.value.0 == m.program[m.ip] && r.value.1 == m.program[m.ip + 1]
  {
    if m.ip + 1 < |m.program| then Some((m.program[m.ip], m.program[m.ip + 1])) else None
  }

  /** A combo operand: 0 to 3 stand for themselves, 4 to 6 for registers
      A to C; 7 and above are invalid (the source panics). */
  function Combo(m: Machine, operand: nat): (r: Option<nat>)
    ensures r.Some? <==> operand < 7
    ensures operand < 4 ==> r == Some(operand)
    ensures operand == 4 ==> r == Some(m.a)
    ensures operand == 5 ==> r == Some(m.b)
    ensures operand == 6 ==> r == Some(m.c)
  {
    if operand < 4 then Some(operand)
    else if operand == 4 then Some(m.a)
    else if operand == 5 then Some(m.b)
    else if operand == 6 then Some(m.c)
    else None
  }

  /** A divided by 2 to the power of the combo operand, as `adv`, `bdv` and
      `cdv` compute it: the power is taken `as u32`, so truncated to 32
      bits, and `2usize.pow` overflows (a panic) from 2^64 on. */
  function Quotient(m: Machine, operand: nat): (r: Option<nat>)
    ensures r.Some? <==> operand < 7 && Exponent(Combo(m, operand).value) < 64
  {
    if operand < 7 then
      var e := Exponent(Combo(m, operand).value);
      if e < 64 then Some(ShiftRight(m.a, e)) else None
    else None
  }

  /** a halved e times, rounding down: the integer division by 2^e that
      the division instructions perform (ShiftRightDivides). */
  function ShiftRight(a: nat, e: nat): (r: nat)
    ensures r <= a
    ensures e >= 1 && r > 0 ==> r < a
  {
    if e == 0 then a else ShiftRight(a / 2, e - 1)
  }

  /** Halving e times is dividing by 2^e. */
  lemma {:induction false} ShiftRightDivides(a: nat, e: nat)
    ensures ShiftRight(a, e) == a / Pow2(e)
  {
    ShiftRightBrackets(a, e);
    var h := ShiftRight(a, e);
    DivUnique(a, Pow2(e), h, a - Pow2(e) * h);
  }

  lemma {:induction false} ShiftRightBrackets(a: nat, e: nat)
    ensures Pow2(e) * ShiftRight(a, e) <= a < Pow2(e) * ShiftRight(a, e) + Pow2(e)
    decreases e
  {
    if e > 0 {
      ShiftRightBrackets(a / 2, e - 1);
      Doubled(a, ShiftRight(a / 2, e - 1), Pow2(e - 1));
    }
  }

  lemma Doubled(a: nat, h: nat, p: nat)
    requires p * h <= a / 2 < p * h + p
    ensures (2 * p) * h <= a < (2 * p) * h + 2 * p
  {
    assert (2 * p) * h == 2 * (p * h);
  }

  lemma DivUnique(a: nat, d: nat, q: nat, r: nat)
    requires d >= 1 && r < d && a == d * q + r
    ensures a / d == q
  {
    var q', r' := a / d, a % d;
    assert d * q' + r' == d * q + r;
    if q' < q {
      MulStep(d, q', q - q');
      assert false;
    } else if q < q' {
      MulStep(d, q, q' - q);
      assert false;
    }
  }

  lemma MulStep(d: nat, x: nat, k: nat)
    requires k >= 1
    ensures d * (x + k) >= d * x + d
  {
    assert d * (x + k) == d * x + d * (k - 1) + d;
  }

  /** `v as u32`: the low 32 bits. */
  function Exponent(v: nat): (e: nat)
    ensures e < U32Limit && (v < U32Limit ==> e == v)
  {
    v % U32Limit
  }

  /** The instruction would panic: an opcode above 7, or an invalid combo
      operand or power for an instruction that uses one. */
  predicate Panics(m: Machine, opcode: nat, operand: nat)
  {
    opcode > 7
    || ((opcode == 0 || opcode == 6 || opcode == 7) && Quotient(m, operand).None?)
    || ((opcode == 2 || opcode == 5) && Combo(m, operand).None?)
  }

  /** What executing one instruction does. */
  datatype StepResult = Stepped(next: Machine, out: Option<nat>) | Halt | Fault

  /** One instruction. Every instruction but a taken `jnz` moves the
      instruction pointer on by two; only `out` outputs. */
  function Step(m: Machine): (r: StepResult)
    ensures r.Halt? <==> Fetch(m).None?
    ensures r.Fault? <==> Fetch(m).Some? && Panics(m, Fetch(m).value.0, Fetch(m).value.1)
    ensures r.Stepped? ==> r.next.program == m.program
    ensures r.Stepped? && r.out.Some? ==> r.out.value < 8 && r.next == m.(ip := m.ip + 2)
  {
    match Fetch(m)
    case None => Halt
    case Some((opcode, operand)) =>
      if Panics(m, opcode, operand) then Fault
      else if opcode == 0 then Stepped(m.(a := Quotient(m, operand).value, ip := m.ip + 2), None)
      else if opcode == 1 then Stepped(m.(b := Xor(m.b, operand), ip := m.ip + 2), None)
      else if opcode == 2 then Stepped(m.(b := Combo(m, operand).value % 8, ip := m.ip + 2), None)
      else if opcode == 3 then
        if m.a != 0 then Stepped(m.(ip := operand), None) else Stepped(m.(ip := m.ip + 2), None)
      else if opcode == 4 then Stepped(m.(b := Xor(m.b, m.c), ip := m.ip + 2), None)
      else if opcode == 5 then Stepped(m.(ip := m.ip + 2), Some(Combo(m, operand).value % 8))
      else if opcode == 6 then Stepped(m.(b := Quotient(m, operand).value, ip := m.ip + 2), None)
      else Stepped(m.(c := Quotient(m, operand).value, ip := m.ip + 2), None)
  }

  /** Every instruction keeps the registers within `usize` and leaves the
      program alone. */
  lemma StepValid(m: Machine)
    requires Valid(m) && Step(m).Stepped?
    ensures Valid(Step(m).next)
  {
    var (opcode, operand) := Fetch(m).value;
    Pow2SixtyFour();
    if opcode == 1 {
      assert operand < Pow2(64);
      XorBelow(m.b, operand, 64);
    } else if opcode == 4 {
      XorBelow(m.b, m.c, 64);
    } else if opcode == 2 {
      assert Combo(m, operand).value % 8 < 8;
    }
  }

  // ---- Running a program ----

  /** How a run ended. */
  datatype Status = Halted | Faulted | OutOfFuel

  /** The state a run ended in and everything it output. */
  datatype Outcome = Outcome(final: Machine, output: seq<nat>, status: Status)

  function Emitted(out: Option<nat>): seq<nat>
  {
    match out
    case Some(v) => [v]
    case None => []
  }

  /** Run from m for at most `fuel` instructions (a program may jump back
      for ever, so the run is bounded). A run halts when no whole
      instruction is left at the instruction pointer. */
  function Execute(m: Machine, fuel: nat): (r: Outcome)
    ensures r.final.program == m.program
    ensures forall k :: 0 <= k < |r.output| ==> r.output[k] < 8
    ensures r.status == Halted ==> Fetch(r.final).None?
    ensures r.status == Faulted ==> Step(r.final).Fault?
    decreases fuel
  {
    match Step(m)
    case Halt => Outcome(m, [], Halted)
    case Fault => Outcome(m, [], Faulted)
    case Stepped(next, out) =>
      if fuel == 0 then Outcome(m, [], OutOfFuel)
      else
        var rest := Execute(next, fuel - 1);
        Outcome(rest.final, Emitted(out) + rest.output, rest.status)
  }

  /** A run that can take a step outputs what the step outputs, then what
      the rest of the run outputs. */
  lemma ExecuteStep(m: Machine, fuel: nat)
    requires Step(m).Stepped? && fuel > 0
    ensures var rest := Execute(Step(m).next, fuel - 1);
      Execute(m, fuel) == Outcome(rest.final, Emitted(Step(m).out) + rest.output, rest.status)
  {
  }

  /** A run that cannot take a step ends where it starts. */
  lemma ExecuteEnds(m: Machine, fuel: nat)
    ensures Step(m).Halt? ==> Execute(m, fuel) == Outcome(m, [], Halted)
    ensures Step(m).Fault? ==> Execute(m, fuel) == Outcome(m, [], Faulted)
    ensures Step(m).Stepped? && fuel == 0 ==> Execute(m, fuel) == Outcome(m, [], OutOfFuel)
  {
  }

  /** A run that ended within its fuel ends the same way with more fuel:
      the bound never changes a finished run. */
  lemma {:induction false} ExecuteMoreFuel(m: Machine, fuel: nat, more: nat)
    requires Execute(m, fuel).status != OutOfFuel
    requires fuel <= more
    ensures Execute(m, more) == Execute(m, fuel)
    decreases fuel
  {
    match Step(m)
    case Halt =>
    case Fault =>
    case Stepped(next, out) =>
      ExecuteMoreFuel(next, fuel - 1, more - 1);
  }

  /** A run from a valid state ends in a valid state. */
  lemma {:induction false} ExecuteValid(m: Machine, fuel: nat)
    requires Valid(m)
    ensures Valid(Execute(m, fuel).final)
    decreases fuel
  {
    match Step(m)
    case Halt =>
    case Fault =>
    case Stepped(next, out) =>
      if fuel > 0 {
        StepValid(m);
        ExecuteValid(next, fuel - 1);
      }
  }

  /** The computer, updated in place instruction by instruction. */
  class Computer {
    var registerA: nat
    var registerB: nat
    var registerC: nat
    var program: seq<nat>
    var instructionPointer: nat

    function State(): Machine
      reads this
    {
      Machine(registerA, registerB, registerC, program, instructionPointer)
    }

    constructor (m: Machine)
      ensures State() == m
    {
      registerA, registerB, registerC := m.a, m.b, m.c;
      program, instructionPointer := m.program, m.ip;
    }

    /** `with_register_a`: a copy of this computer with register A set. */
    method WithRegisterA(value: nat) returns (copy: Computer)
      ensures fresh(copy) && copy.State() == State().(a := value)
    {
      copy := new Computer(State().(a := value));
    }

    /** `adv`: A := A / 2^combo. */
    method Adv(operand: nat)
      requires Quotient(State(), operand).Some?
      modifies this
      ensures State() == old(State().(a := ShiftRight(registerA, Exponent(Combo(State(), operand).value)),
                                      ip := instructionPointer + 2))
    {
      registerA := ShiftRight(registerA, Exponent(Combo(State(), operand).value));
      instructionPointer := instructionPointer + 2;
    }

    /** `bxl`: B := B ^ literal operand. */
    method Bxl(operand: nat)
      modifies this
      ensures State() == old(State().(b := Xor(registerB, operand), ip := instructionPointer + 2))
    {
      registerB := Xor(registerB, operand);
      instructionPointer := instructionPointer + 2;
    }

    /** `bst`: B := combo mod 8. */
    method Bst(operand: nat)
      requires operand < 7
      modifies this
      ensures State() == old(State().(b := Combo(State(), operand).value % 8, ip := instructionPointer + 2))
    {
      registerB := Combo(State(), operand).value % 8;
      instructionPointer := instructionPointer + 2;
    }

    /** `jnz`: jump to the literal operand unless A is zero. */
    method Jnz(operand: nat)
      modifies this
      ensures old(registerA) != 0 ==> State() == old(State().(ip := operand))
      ensures old(registerA) == 0 ==> State() == old(State().(ip := instructionPointer + 2))
    {
      if registerA != 0 {
        instructionPointer := operand;
      } else {
        instructionPointer := instructionPointer + 2;
      }
    }

    /** `bxc`: B := B ^ C; the operand is read and ignored. */
    method Bxc(operand: nat)
      modifies this
      ensures State() == old(State().(b := Xor(registerB, registerC), ip := instructionPointer + 2))
    {
      registerB := Xor(registerB, registerC);
      instructionPointer := instructionPointer + 2;
    }

    /** `out`: the combo operand mod 8, a three-bit value. */
    method Out(operand: nat) returns (value: nat)
      requires operand < 7
      modifies this
      ensures value == old(Combo(State(), operand).value) % 8 && value < 8
      ensures State() == old(State().(ip := instructionPointer + 2))
    {
      instructionPointer := instructionPointer + 2;
      value := Combo(State(), operand).value % 8;
    }

    /** `bdv`: B := A / 2^combo. */
    method Bdv(operand: nat)
      requires Quotient(State(), operand).Some?
      modifies this
      ensures State() == old(State().(b := ShiftRight(registerA, Exponent(Combo(State(), operand).value)),
                                      ip := instructionPointer + 2))
    {
      registerB := ShiftRight(registerA, Exponent(Combo(State(), operand).value));
      instructionPointer := instructionPointer + 2;
    }

    /** `cdv`: C := A / 2^combo. */
    method Cdv(operand: nat)
      requires Quotient(State(), operand).Some?
      modifies this
      ensures State() == old(State().(c := ShiftRight(registerA, Exponent(Combo(State(), operand).value)),
                                      ip := instructionPointer + 2))
    {
      registerC := ShiftRight(registerA, Exponent(Combo(State(), operand).value));
      instructionPointer := instructionPointer + 2;
    }

    /** One pass of `run`'s loop: dispatch on the opcode. */
    method Perform(opcode: nat, operand: nat) returns (out: Option<nat>)
      requires Fetch(State()) == Some((opcode, operand)) && !Panics(State(), opcode, operand)
      modifies this
      ensures Step(old(State())) == Stepped(State(), out)
    {
      out := None;
      if opcode == 0 {
        Adv(operand);
      } else if opcode == 1 {
        Bxl(operand);
      } else if opcode == 2 {
        Bst(operand);
      } else if opcode == 3 {
        Jnz(operand);
      } else if opcode == 4 {
        Bxc(operand);
      } else if opcode == 5 {
        var value := Out(operand);
        out := Some(value);
      } else if opcode == 6 {
        Bdv(operand);
      } else {
        Cdv(operand);
      }
    }

    /** `run`: execute instructions until none is left at the instruction
        pointer, collecting the outputs in order. A panicking instruction
        ends the run as Faulted and running out of fuel as OutOfFuel. */
    method Run(fuel: nat) returns (output: seq<nat>, status: Status)
      modifies this
      ensures Outcome(State(), output, status) == Execute(old(State()), fuel)
    {
      hide Execute, Step;
      ghost var goal := Execute(State(), fuel);
      output := [];
      var remaining := fuel;
      while true
        invariant goal == Outcome(Execute(State(), remaining).final,
                                  output + Execute(State(), remaining).output,
                                  Execute(State(), remaining).status)
        decreases remaining
      {
        ExecuteEnds(State(), remaining);
        var instruction := Fetch(State());
        if instruction.None? {
          status := Halted;
          return;
        }
        var (opcode, operand) := instruction.value;
        if Panics(State(), opcode, operand) {
          status := Faulted;
          return;
        }
        if remaining == 0 {
          status := OutOfFuel;
          return;
        }
        ghost var before := State();
        var out := Perform(opcode, operand);
        ExecuteStep(before, remaining);
        output := output + Emitted(out);
        remaining := remaining - 1;
      }
    }
  }

  // ---- Part two: a program that outputs itself ----

  /** Run with register A set to `a` halts and outputs `digit` first. */
  predicate Matches(m: Machine, fuel: nat, a: nat, digit: nat)
  {
    var o := Execute(m.(a := a), fuel);
    o.status == Halted && o.output != [] && o.output[0] == digit
  }

  /** `a` reproduces the last k program digits one at a time: its first
      output is the k-th digit from the end, and a / 8 does the same for
      the k - 1 digits after it. */
  predicate Candidate(m: Machine, fuel: nat, a: nat, k: nat)
    requires k <= |m.program|
    decreases k
  {
    if k == 0 then a == 0
    else Matches(m, fuel, a, m.program[|m.program| - k]) && Candidate(m, fuel, a / 8, k - 1)
  }

  function Pow8(k: nat): (r: nat)
    ensures r >= 1
  {
    if k == 0 then 1 else 8 * Pow8(k - 1)
  }

  /** A candidate for k digits has at most k octal digits. */
  lemma {:induction false} CandidateBelow(m: Machine, fuel: nat, a: nat, k: nat)
    requires k <= |m.program| && Candidate(m, fuel, a, k)
    ensures a < Pow8(k)
    decreases k
  {
    if k > 0 {
      CandidateBelow(m, fuel, a / 8, k - 1);
    }
  }

  predicate Increasing(s: seq<nat>)
  {
    forall i, j :: 0 <= i < j < |s| ==> s[i] < s[j]
  }

  /** p * 8 + e for the e < d that match the digit, in order. */
  function Extend(m: Machine, fuel: nat, digit: nat, p: nat, d: nat): seq<nat>
    decreases d
  {
    if d == 0 then []
    else Extend(m, fuel, digit, p, d - 1) + (if Matches(m, fuel, p * 8 + d - 1, digit) then [p * 8 + d - 1] else [])
  }

  /** Every partial quine extended by each octal digit that matches. */
  function Expand(m: Machine, fuel: nat, digit: nat, partials: seq<nat>): seq<nat>
    decreases |partials|
  {
    if partials == [] then []
    else
      Expand(m, fuel, digit, partials[..|partials| - 1])
      + Extend(m, fuel, digit, partials[|partials| - 1], 8)
  }

  lemma ExtendStep(m: Machine, fuel: nat, digit: nat, p: nat, d: nat)
    ensures Extend(m, fuel, digit, p, d + 1)
            == Extend(m, fuel, digit, p, d) + (if Matches(m, fuel, p * 8 + d, digit) then [p * 8 + d] else [])
  {
  }

  lemma ExpandStep(m: Machine, fuel: nat, digit: nat, partials: seq<nat>, j: nat)
    requires j < |partials|
    ensures Expand(m, fuel, digit, partials[..j + 1])
            == Expand(m, fuel, digit, partials[..j]) + Extend(m, fuel, digit, partials[j], 8)
  {
    assert partials[..j + 1][..j] == partials[..j];
  }

  /** x / 8 == p exactly when x is p followed by one octal digit. */
  lemma OctalDigit(x: nat, p: nat)
    ensures x / 8 == p <==> p * 8 <= x < p * 8 + 8
  {
  }

  lemma {:induction false} ExtendMembers(m: Machine, fuel: nat, digit: nat, p: nat, d: nat)
    ensures Increasing(Extend(m, fuel, digit, p, d))
    ensures forall x: nat :: x in Extend(m, fuel, digit, p, d)
              <==> p * 8 <= x < p * 8 + d && Matches(m, fuel, x, digit)
    decreases d
  {
    ExtendIncreasing(m, fuel, digit, p, d);
    ExtendMembership(m, fuel, digit, p, d);
  }

  lemma {:induction false} ExtendMembership(m: Machine, fuel: nat, digit: nat, p: nat, d: nat)
    ensures forall x: nat :: x in Extend(m, fuel, digit, p, d)
              <==> p * 8 <= x < p * 8 + d && Matches(m, fuel, x, digit)
    decreases d
  {
    hide Matches;
    if d > 0 {
      var y := p * 8 + d - 1;
      var prev := Extend(m, fuel, digit, p, d - 1);
      var tail := if Matches(m, fuel, y, digit) then [y] else [];
      ExtendMembership(m, fuel, digit, p, d - 1);
      ExtendStep(m, fuel, digit, p, d - 1);
      hide Extend;
      forall x: nat
        ensures x in Extend(m, fuel, digit, p, d) <==> p * 8 <= x < p * 8 + d && Matches(m, fuel, x, digit)
      {
        assert x in prev + tail <==> x in prev || x in tail;
      }
    }
  }

  lemma {:induction false} ExtendIncreasing(m: Machine, fuel: nat, digit: nat, p: nat, d: nat)
    ensures Increasing(Extend(m, fuel, digit, p, d))
    ensures forall x :: x in Extend(m, fuel, digit, p, d) ==> x < p * 8 + d
    decreases d
  {
    hide Matches;
    if d > 0 {
      var y := p * 8 + d - 1;
      var prev := Extend(m, fuel, digit, p, d - 1);
      var tail := if Matches(m, fuel, y, digit) then [y] else [];
      ExtendIncreasing(m, fuel, digit, p, d - 1);
      ExtendStep(m, fuel, digit, p, d - 1);
      hide Extend;
      ConcatIncreasing(prev, tail);
      assert forall x :: x in prev + tail ==> x in prev || x in tail;
    }
  }

  lemma ConcatIncreasing(xs: seq<nat>, ys: seq<nat>)
    requires Increasing(xs) && Increasing(ys)
    requires forall x, y :: x in xs && y in ys ==> x < y
    ensures Increasing(xs + ys)
  {
    var s := xs + ys;
    forall i, j | 0 <= i < j < |s|
      ensures s[i] < s[j]
    {
      if j < |xs| {
        assert s[i] == xs[i] && s[j] == xs[j];
      } else if i >= |xs| {
        assert s[i] == ys[i - |xs|] && s[j] == ys[j - |xs|];
      } else {
        assert s[i] in xs && s[j] in ys;
      }
    }
  }

  /** The expansion holds exactly the matching x whose x / 8 is a partial
      quine, and keeps the increasing order. */
  lemma {:induction false} ExpandMembers(m: Machine, fuel: nat, digit: nat, partials: seq<nat>)
    requires Increasing(partials)
    ensures Increasing(Expand(m, fuel, digit, partials))
    ensures forall x: nat :: x in Expand(m, fuel, digit, partials)
              <==> x / 8 in partials && Matches(m, fuel, x, digit)
    decreases |partials|
  {
    hide Matches, Expand, Extend;
    var n := |partials|;
    if n == 0 {
      NothingYet(m, fuel, digit, 0);
    } else {
      var init, p := partials[..n - 1], partials[n - 1];
      ExpandStep(m, fuel, digit, partials, n - 1);
      assert partials[..n] == partials;
      ExpandMembers(m, fuel, digit, init);
      ExtendMembers(m, fuel, digit, p, 8);
      var front, back := Expand(m, fuel, digit, init), Extend(m, fuel, digit, p, 8);
      forall x | x in front
        ensures x < p * 8
      {
        EarlierBlock(partials, x);
      }
      ConcatIncreasing(front, back);
      assert partials == init + [p];
      forall x: nat
        ensures x in front + back <==> x / 8 in partials && Matches(m, fuel, x, digit)
      {
        OctalDigit(x, p);
      }
    }
  }

  /** The extension of an earlier partial quine comes before the
      extension of the last one. */
  lemma EarlierBlock(partials: seq<nat>, x: nat)
    requires Increasing(partials) && partials != []
    requires x / 8 in partials[..|partials| - 1]
    ensures x < partials[|partials| - 1] * 8
  {
    var n := |partials|;
    var i :| 0 <= i < n - 1 && partials[..n - 1][i] == x / 8;
    assert partials[i] < partials[n - 1];
    OctalDigit(x, x / 8);
  }

  lemma NothingYet(m: Machine, fuel: nat, digit: nat, p: nat)
    ensures Expand(m, fuel, digit, []) == [] && Extend(m, fuel, digit, p, 0) == []
  {
  }

  /** Before any digit is matched, 0 is the only candidate. */
  lemma CandidateNone(m: Machine, fuel: nat, a: nat)
    ensures Candidate(m, fuel, a, 0) <==> a == 0
  {
  }

  /** One more digit: a candidate for k + 1 digits matches the next digit
      from the end and drops to a candidate for k digits. */
  lemma CandidateStep(m: Machine, fuel: nat, a: nat, k: nat)
    requires k < |m.program|
    ensures Candidate(m, fuel, a, k + 1)
            <==> Matches(m, fuel, a, m.program[|m.program| - 1 - k]) && Candidate(m, fuel, a / 8, k)
  {
  }

  /** What `reverse_engineer_quine` ends with. */
  datatype Quine = Found(registerA: nat) | NoCandidate | Stuck(registerA: nat)

  /** `reverse_engineer_quine`: keep every A that reproduces the digits
      matched so far, try each of them followed by each octal digit
      against the next digit from the end, and take the first survivor.
      Found is the least A reproducing the whole program digit by digit;
      NoCandidate means there is none (the source panics on `unwrap`);
      Stuck names a run that did not halt within the fuel (the source
      would panic or run for ever). */
  method ReverseEngineerQuine(computer: Computer, fuel: nat) returns (result: Quine)
    ensures var m := computer.State();
      && (result.Found? ==> Candidate(m, fuel, result.registerA, |m.program|)
                            && forall a :: Candidate(m, fuel, a, |m.program|) ==> result.registerA <= a)
      && (result.NoCandidate? ==> forall a :: !Candidate(m, fuel, a, |m.program|))
      && (result.Stuck? ==> Execute(m.(a := result.registerA), fuel).status != Halted
                            && result.registerA < Pow8(|m.program|))
  {
    hide Candidate, Expand, Extend, Execute;
    var m := computer.State();
    var n := |m.program|;
    var partials: seq<nat> := [0];
    forall a
      ensures a in partials <==> Candidate(m, fuel, a, 0)
    {
      CandidateNone(m, fuel, a);
    }
    for k := 0 to n
      invariant computer.State() == m
      invariant Increasing(partials)
      invariant forall a :: a in partials <==> Candidate(m, fuel, a, k)
    {
      var digit := m.program[n - 1 - k];
      var next: seq<nat> := [];
      assert partials[..0] == [];
      NothingYet(m, fuel, digit, 0);
      for j := 0 to |partials|
        invariant computer.State() == m
        invariant next == Expand(m, fuel, digit, partials[..j])
      {
        var p := partials[j];
        NothingYet(m, fuel, digit, p);
        assert next + [] == next;
        for d := 0 to 8
          invariant computer.State() == m
          invariant next == Expand(m, fuel, digit, partials[..j]) + Extend(m, fuel, digit, p, d)
        {
          var a := p * 8 + d;
          var copy := computer.WithRegisterA(a);
          var output, status := copy.Run(fuel);
          if status != Halted {
            assert p in partials;
            StuckBelow(m, fuel, p, d, k);
            result := Stuck(a);
            return;
          }
          ExtendStep(m, fuel, digit, p, d);
          if output != [] && output[0] == digit {
            next := next + [a];
          }
        }
        ExpandStep(m, fuel, digit, partials, j);
      }
      assert partials[..|partials|] == partials;
      ExpandMembers(m, fuel, digit, partials);
      forall a
        ensures a in next <==> Candidate(m, fuel, a, k + 1)
      {
        CandidateStep(m, fuel, a, k);
      }
      partials := next;
    }
    if partials == [] {
      result := NoCandidate;
    } else {
      result := Found(partials[0]);
    }
  }

  /** A run tried at stage k is below 8^(k+1), within 8^n. */
  lemma StuckBelow(m: Machine, fuel: nat, p: nat, d: nat, k: nat)
    requires k < |m.program| && d < 8 && Candidate(m, fuel, p, k)
    ensures p * 8 + d < Pow8(|m.program|)
  {
    CandidateBelow(m, fuel, p, k);
    Pow8Monotone(k + 1, |m.program|);
  }

  lemma {:induction false} Pow8Monotone(a: nat, b: nat)
    requires a <= b
    ensures Pow8(a) <= Pow8(b)
    decreases b
  {
    if a < b {
      Pow8Monotone(a, b - 1);
    }
  }

  // ---- Parsing ----

  /** `parse_register`: the number after the first ": ". */
  function ParseRegister(line: string): (r: Option<nat>)
    ensures r.Some? ==> r.value < U64Limit
  {
    match SplitOnce(line, ": ")
    case None => None
    case Some((_, number)) => ParseU64(number)
  }

  /** Every piece parsed as a `u8`, or None if one does not parse. */
  function ParseBytes(pieces: seq<string>): (r: Option<seq<nat>>)
    ensures r.Some? ==> |r.value| == |pieces|
    ensures r.Some? ==> forall k :: 0 <= k < |pieces| ==> ParseU8(pieces[k]) == Some(r.value[k])
  {
    if pieces == [] then Some([])
    else
      match ParseU8(pieces[0])
      case None => None
      case Some(v) =>
        match ParseBytes(pieces[1..])
        case None => None
        case Some(rest) => Some([v] + rest)
  }

  /** `parse_program`: the comma-separated bytes after the first ": ",
      surrounding whitespace trimmed. */
  function ParseProgram(line: string): (r: Option<seq<nat>>)
    ensures r.Some? ==> r.value != [] && forall k :: 0 <= k < |r.value| ==> r.value[k] < U8Limit
  {
    match SplitOnce(line, ": ")
    case None => None
    case Some((_, list)) => ParseBytes(Split(Trim(list), ','))
  }

  /** `parse_input`: three register lines, a blank line, the program; the
      instruction pointer starts at 0. None where the source panics. */
  function ParseInput(input: string): (r: Option<Machine>)
    ensures r.Some? ==> Valid(r.value) && r.value.ip == 0
  {
    match SplitOnce(input, "\n\n")
    case None => None
    case Some((registers, program)) =>
      var lines := Lines(registers);
      if |lines| < 3 then None
      else
        match (ParseRegister(lines[0]), ParseRegister(lines[1]), ParseRegister(lines[2]), ParseProgram(program))
        case (Some(a), Some(b), Some(c), Some(p)) => Some(Machine(a, b, c, p, 0))
        case _ => None
  }

  // ---- Writing a machine out, for the round trip ----

  /** A program of single-digit entries written with commas between. */
  function ShowProgram(program: seq<nat>): string
    requires forall k :: 0 <= k < |program| ==> program[k] < 10
  {
    if program == [] then []
    else if |program| == 1 then [DecimalDigit(program[0])]
    else [DecimalDigit(program[0])] + "," + ShowProgram(program[1..])
  }

  /** The register block of the puzzle input describing a machine. */
  function RegisterText(m: Machine): string
  {
    ("Register A: " + Show(m.a)) + "\n" + ("Register B: " + Show(m.b)) + "\n" + ("Register C: " + Show(m.c))
  }

  /** The puzzle input describing a machine. */
  function ShowInput(m: Machine): string
    requires forall k :: 0 <= k < |m.program| ==> m.program[k] < 10
  {
    RegisterText(m) + "\n\n" + ("Program: " + ShowProgram(m.program))
  }

  /** The pieces a program of single digits splits into at its commas. */
  function DigitPieces(program: seq<nat>): (r: seq<string>)
    requires forall k :: 0 <= k < |program| ==> program[k] < 10
    ensures |r| == |program|
    ensures forall k :: 0 <= k < |program| ==> r[k] == [DecimalDigit(program[k])]
  {
    if program == [] then [] else [[DecimalDigit(program[0])]] + DigitPieces(program[1..])
  }

  lemma {:induction false} SplitShowProgram(program: seq<nat>)
    requires program != [] && forall k :: 0 <= k < |program| ==> program[k] < 10
    ensures Split(ShowProgram(program), ',') == DigitPieces(program)
    decreases |program|
  {
    var s := ShowProgram(program);
    var first := DecimalDigit(program[0]);
    if |program| == 1 {
      assert s == [first];
      assert s[1..] == [];
      assert Split(s, ',') == [[first] + []] + [];
      assert [first] + [] == [first];
      assert program[1..] == [];
      assert DigitPieces(program) == [[first]] + DigitPieces(program[1..]);
    } else {
      var rest := ShowProgram(program[1..]);
      SplitShowProgram(program[1..]);
      assert s == [first] + ("," + rest);
      assert s[1..] == "," + rest;
      assert ("," + rest)[1..] == rest;
      assert Split(s[1..], ',') == [[]] + Split(rest, ',');
      assert Split(s, ',') == [[first] + []] + Split(rest, ',');
      assert [first] + [] == [first];
      assert DigitPieces(program) == [[first]] + DigitPieces(program[1..]);
    }
  }

  lemma {:induction false} ParseDigitPieces(program: seq<nat>)
    requires forall k :: 0 <= k < |program| ==> program[k] < 10
    ensures ParseBytes(DigitPieces(program)) == Some(program)
    decreases |program|
  {
    if program != [] {
      var piece := [DecimalDigit(program[0])];
      ParseDigitPieces(program[1..]);
      assert DigitPieces(program)[1..] == DigitPieces(program[1..]);
      assert DecimalValue(piece) == program[0] by {
        assert piece[..0] == [];
      }
      assert ParseU8(piece) == Some(program[0]);
      assert [program[0]] + program[1..] == program;
    }
  }

  lemma ShowProgramEnds(program: seq<nat>)
    requires program != [] && forall k :: 0 <= k < |program| ==> program[k] < 10
    ensures var s := ShowProgram(program); s != [] && IsDigit(s[0]) && IsDigit(s[|s| - 1])
  {
    if |program| > 1 {
      ShowProgramEnds(program[1..]);
    }
  }

  /** A number written in decimal reads back as itself. */
  lemma ParseShown(n: nat)
    requires n < U64Limit
    ensures ParseU64(Show(n)) == Some(n)
  {
    ShowValue(n);
  }

  lemma ParseRegisterLine(name: string, n: nat)
    requires ':' !in name && n < U64Limit
    ensures ParseRegister(name + ": " + Show(n)) == Some(n)
  {
    SplitOnceAt(name, ": ", Show(n));
    ParseShown(n);
  }

  lemma ParseProgramLine(program: seq<nat>)
    requires program != [] && forall k :: 0 <= k < |program| ==> program[k] < 10
    ensures ParseProgram("Program: " + ShowProgram(program)) == Some(program)
  {
    hide ShowProgram, Split, Trim, ParseBytes, SplitOnce, DigitPieces;
    var s := ShowProgram(program);
    SplitOnceAt("Program", ": ", s);
    assert "Program" + ": " + s == "Program: " + s;
    ShowProgramEnds(program);
    TrimUnchanged(s);
    SplitShowProgram(program);
    ParseDigitPieces(program);
  }

  /** The register block holds no blank line. */
  lemma RegistersBeforeBlank(m: Machine, rest: string)
    ensures SplitOnce(RegisterText(m) + "\n\n" + rest, "\n\n") == Some((RegisterText(m), rest))
  {
    var registers := RegisterText(m);
    hide RegisterText;
    var s := registers + "\n\n" + rest;
    forall i | 0 <= i < |registers|
      ensures !OccursAt(s, "\n\n", i)
    {
      if OccursAt(s, "\n\n", i) {
        var pair := s[i..i + 2];
        assert pair == "\n\n";
        assert s[i] == pair[0] && s[i + 1] == pair[1];
        assert registers[i] == s[i];
        NewlinesApart(m, i);
      }
    }
    SplitOnceFirst(registers, "\n\n", rest);
  }

  /** Each newline in the register block starts another register line. */
  lemma NewlinesApart(m: Machine, i: nat)
    requires i < |RegisterText(m)| && RegisterText(m)[i] == '\n'
    ensures i + 1 < |RegisterText(m)| && RegisterText(m)[i + 1] == 'R'
  {
    var first, second, third := "Register A: " + Show(m.a), "Register B: " + Show(m.b), "Register C: " + Show(m.c);
    var registers := RegisterText(m);
    assert registers == first + "\n" + second + "\n" + third;
    NoNewline("Register A: ", Show(m.a));
    NoNewline("Register B: ", Show(m.b));
    NoNewline("Register C: ", Show(m.c));
    if i < |first| {
      assert false;
    } else if i == |first| {
      assert registers[i + 1] == second[0];
    } else if i < |first| + 1 + |second| {
      assert false;
    } else if i == |first| + 1 + |second| {
      assert registers[i + 1] == third[0];
    } else {
      assert false;
    }
  }

  /** A register line holds no newline, and its last character is a digit. */
  lemma NoNewline(name: string, digits: string)
    requires '\n' !in name && AllDigits(digits) && digits != []
    ensures '\n' !in name + digits && IsDigit((name + digits)[|name + digits| - 1])
  {
    forall i | 0 <= i < |digits|
      ensures digits[i] != '\n'
    {
      assert IsDigit(digits[i]);
    }
    assert (name + digits)[|name + digits| - 1] == digits[|digits| - 1];
  }

  /** Three lines joined by newlines read back as those lines. */
  lemma ThreeLines(x: string, y: string, z: string)
    requires PlainLine(x) && PlainLine(y) && PlainLine(z) && z != []
    ensures Lines(x + "\n" + y + "\n" + z) == [x, y, z]
  {
    assert StripCr(x) == x && StripCr(y) == y && StripCr(z) == z;
    SplitLeadingLine(x, y + "\n" + z);
    SplitLeadingLine(y, z);
    SplitWithout(z, '\n');
    assert x + "\n" + y + "\n" + z == x + "\n" + (y + "\n" + z);
    assert Split(x + "\n" + y + "\n" + z, '\n') == [x, y, z];
  }

  /** A register line is a plain line of text. */
  lemma RegisterLine(name: string, n: nat)
    requires '\n' !in name
    ensures PlainLine(name + ": " + Show(n))
  {
    NoNewline(name + ": ", Show(n));
  }

  /** The register block of a machine written out reads back as its
      three registers. */
  lemma ParseRegisterText(m: Machine)
    requires Valid(m)
    ensures var lines := Lines(RegisterText(m));
      |lines| == 3 && ParseRegister(lines[0]) == Some(m.a)
      && ParseRegister(lines[1]) == Some(m.b) && ParseRegister(lines[2]) == Some(m.c)
  {
    hide ParseRegister, SplitOnce, Show, Lines, Split;
    var lineA, lineB, lineC := "Register A: " + Show(m.a), "Register B: " + Show(m.b), "Register C: " + Show(m.c);
    assert lineA == "Register A" + ": " + Show(m.a);
    assert lineB == "Register B" + ": " + Show(m.b);
    assert lineC == "Register C" + ": " + Show(m.c);
    RegisterLine("Register A", m.a);
    RegisterLine("Register B", m.b);
    RegisterLine("Register C", m.c);
    ThreeLines(lineA, lineB, lineC);
    ParseRegisterLine("Register A", m.a);
    ParseRegisterLine("Register B", m.b);
    ParseRegisterLine("Register C", m.c);
  }

  /** Writing a machine out and parsing it gives it back, for any program
      of single digits (the three-bit opcodes and operands). */
  lemma ParseShowInput(m: Machine)
    requires Valid(m) && m.ip == 0 && m.program != []
    requires forall k :: 0 <= k < |m.program| ==> m.program[k] < 10
    ensures ParseInput(ShowInput(m)) == Some(m)
  {
    hide Show, ShowProgram, Lines, SplitOnce, ParseRegister, ParseProgram, RegisterText;
    RegistersBeforeBlank(m, "Program: " + ShowProgram(m.program));
    ParseRegisterText(m);
    ParseProgramLine(m.program);
  }
}
