/** Day 7: calibration equations, where operators + and * are placed
    between the numbers, evaluated left to right, to reach the target. */
module Day7 {
  import opened Common

  /** An equation partly evaluated: the running total and the numbers still
      to be combined with it. */
  datatype Equation = Equation(target: int, total: int, remaining: seq<int>)

  datatype Op = Add | Mul

  /** `checked_add` / `checked_mul` on i64: None on overflow. */
  function Checked(op: Op, a: int, b: int): (r: Option<int>)
    ensures r.Some? <==> InI64(if op == Add then a + b else a * b)
    ensures r.Some? ==> r.value == (if op == Add then a + b else a * b)
  {
    var v := if op == Add then a + b else a * b;
    if InI64(v) then Some(v) else None
  }

  /** `apply` (with `apply_add` and `apply_mul`): combine the total with the
      next number. None when no number remains, on overflow, or when the new
      total passes the target. */
  function Apply(eq: Equation, op: Op): (r: Option<Equation>)
    ensures r.Some? <==> (eq.remaining != [] && Checked(op, eq.total, eq.remaining[0]).Some?
      && Checked(op, eq.total, eq.remaining[0]).value <= eq.target)
    ensures r.Some? ==> (r.value.target == eq.target
      && r.value.total == Checked(op, eq.total, eq.remaining[0]).value
      && r.value.remaining == eq.remaining[1..])
    ensures r.Some? ==> |r.value.remaining| == |eq.remaining| - 1
  {
    if eq.remaining == [] then None
    else
      match Checked(op, eq.total, eq.remaining[0])
      case None => None
      case Some(v) => if v <= eq.target then Some(Equation(eq.target, v, eq.remaining[1..])) else None
  }

  datatype Ordering = Less | Equal | Greater

  function CompareInt(a: int, b: int): Ordering
  {
    if a < b then Less else if a > b then Greater else Equal
  }

  /** The `Ord` of equations: by the count of remaining numbers, then by how
      far the total is from the target. */
  function Compare(a: Equation, b: Equation): (r: Ordering)
    ensures |a.remaining| < |b.remaining| ==> r == Less
    ensures |a.remaining| > |b.remaining| ==> r == Greater
    ensures |a.remaining| == |b.remaining| ==> r == CompareInt(a.target - a.total, b.target - b.total)
  {
    var byCount := CompareInt(|a.remaining|, |b.remaining|);
    if byCount != Equal then byCount else CompareInt(a.target - a.total, b.target - b.total)
  }

  /** The ordering is a total preorder: opposite comparisons agree, and it
      is transitive. */
  lemma CompareConsistent(a: Equation, b: Equation, c: Equation)
    ensures Compare(a, b) == Less <==> Compare(b, a) == Greater
    ensures Compare(a, b) == Equal <==> Compare(b, a) == Equal
    ensures Compare(a, b) != Greater && Compare(b, c) != Greater ==> Compare(a, c) != Greater
  {
  }

  /** The search's answer: the equation is already solved, or adding or
      multiplying the next number leads to a solvable one. */
  function Solvable(eq: Equation): bool
    decreases |eq.remaining|
  {
    (eq.total == eq.target && eq.remaining == [])
    || (Apply(eq, Add).Some? && Solvable(Apply(eq, Add).value))
    || (Apply(eq, Mul).Some? && Solvable(Apply(eq, Mul).value))
  }

  /** The equation after applying the operators in turn; None as soon as one
      step fails. */
  function Run(eq: Equation, ops: seq<Op>): Option<Equation>
    decreases |ops|
  {
    if ops == [] then Some(eq)
    else
      match Apply(eq, ops[0])
      case None => None
      case Some(next) => Run(next, ops[1..])
  }

  /** Some left-to-right choice of + and * keeps every running total in
      range and at most the target, uses every number, and ends on the
      target. */
  predicate SolvedBy(eq: Equation, ops: seq<Op>)
  {
    |ops| == |eq.remaining| && Run(eq, ops).Some? && Run(eq, ops).value.total == eq.target
  }

  /** The search's answer agrees with the choice of operators. */
  lemma {:induction false} SolvableIsSomeChoice(eq: Equation)
    ensures Solvable(eq) <==> exists ops :: SolvedBy(eq, ops)
    decreases |eq.remaining|
  {
    if Solvable(eq) {
      if eq.total == eq.target && eq.remaining == [] {
        assert SolvedBy(eq, []);
      } else {
        var op := if Apply(eq, Add).Some? && Solvable(Apply(eq, Add).value) then Add else Mul;
        var next := Apply(eq, op).value;
        SolvableIsSomeChoice(next);
        var ops :| SolvedBy(next, ops);
        assert ([op] + ops)[1..] == ops;
        assert SolvedBy(eq, [op] + ops);
      }
    }
    if exists ops :: SolvedBy(eq, ops) {
      var ops :| SolvedBy(eq, ops);
      if ops == [] {
        assert Run(eq, ops) == Some(eq);
      } else {
        var next := Apply(eq, ops[0]).value;
        assert SolvedBy(next, ops[1..]);
        SolvableIsSomeChoice(next);
      }
    }
  }

  // ---- is_solveable ----

  /** Some equation of the heap is solvable. */
  predicate AnySolvable(heap: seq<Equation>)
  {
    exists e :: e in heap && Solvable(e)
  }

  function Pow2(n: nat): (r: nat)
    ensures r >= 1
  {
    if n == 0 then 1 else 2 * Pow2(n - 1)
  }

  /** The most equations that can still come out of the heap. */
  function Work(heap: seq<Equation>): nat
  {
    if heap == [] then 0 else Pow2(|heap[0].remaining| + 1) - 1 + Work(heap[1..])
  }

  lemma {:induction false} WorkAppend(a: seq<Equation>, b: seq<Equation>)
    ensures Work(a + b) == Work(a) + Work(b)
  {
    if a == [] {
      assert a + b == b;
    } else {
      assert (a + b)[1..] == a[1..] + b;
      WorkAppend(a[1..], b);
    }
  }

  /** `BinaryHeap::pop`: remove a greatest equation. */
  method PopMax(heap: seq<Equation>) returns (top: Equation, rest: seq<Equation>)
    requires heap != []
    ensures multiset(rest) + multiset{top} == multiset(heap)
    ensures forall k :: 0 <= k < |heap| ==> Compare(heap[k], top) != Greater
    ensures Work(heap) == Work(rest) + Pow2(|top.remaining| + 1) - 1
  {
    var best := 0;
    var k := 1;
    while k < |heap|
      invariant 1 <= k <= |heap| && best < k
      invariant forall j :: 0 <= j < k ==> Compare(heap[j], heap[best]) != Greater
    {
      if Compare(heap[k], heap[best]) == Greater {
        forall j | 0 <= j < k
          ensures Compare(heap[j], heap[k]) != Greater
        {
          CompareConsistent(heap[j], heap[best], heap[k]);
        }
        best := k;
      }
      k := k + 1;
    }
    top := heap[best];
    rest := heap[..best] + heap[best + 1..];
    assert heap == heap[..best] + [top] + heap[best + 1..];
    WorkAppend(heap[..best] + [top], heap[best + 1..]);
    WorkAppend(heap[..best], [top]);
    WorkAppend(heap[..best], heap[best + 1..]);
  }

  /** What `is_solveable` pushes for a popped equation: its sum, then its
      product, when they exist. */
  function Children(curr: Equation): seq<Equation>
  {
    (if Apply(curr, Add).Some? then [Apply(curr, Add).value] else [])
    + (if Apply(curr, Mul).Some? then [Apply(curr, Mul).value] else [])
  }

  /** An unsolved equation is solvable exactly when one of its children is. */
  lemma ChildrenSolvable(curr: Equation)
    requires !(curr.total == curr.target && curr.remaining == [])
    ensures Solvable(curr) <==> AnySolvable(Children(curr))
  {
    var pushed := Children(curr);
    if Solvable(curr) {
      var op := if Apply(curr, Add).Some? && Solvable(Apply(curr, Add).value) then Add else Mul;
      assert Apply(curr, op).value in pushed;
    }
    if AnySolvable(pushed) {
      var e :| e in pushed && Solvable(e);
      if !(Apply(curr, Add).Some? && e == Apply(curr, Add).value) {
        assert Apply(curr, Mul).Some? && e == Apply(curr, Mul).value;
      }
    }
  }

  /** The children of an equation weigh less than it. */
  lemma ChildrenWork(curr: Equation)
    ensures Work(Children(curr)) < Pow2(|curr.remaining| + 1) - 1
  {
    var pushed := Children(curr);
    var k := |curr.remaining|;
    if pushed != [] {
      assert Pow2(k + 1) == 2 * Pow2(k);
      assert |pushed[0].remaining| == k - 1;
      assert Work(pushed) == Pow2(k) - 1 + Work(pushed[1..]);
      if |pushed| == 2 {
        assert |pushed[1].remaining| == k - 1;
        assert pushed[1..][1..] == [];
        assert Work(pushed[1..]) == Pow2(k) - 1;
      } else {
        assert pushed[1..] == [];
      }
    }
  }

  /** Taking one unsolved equation out of the heap and putting its children
      in keeps the answer. */
  lemma SearchStep(heap: seq<Equation>, curr: Equation, rest: seq<Equation>)
    requires multiset(rest) + multiset{curr} == multiset(heap)
    requires !(curr.total == curr.target && curr.remaining == [])
    ensures AnySolvable(heap) <==> AnySolvable(rest + Children(curr))
  {
    var next := rest + Children(curr);
    ChildrenSolvable(curr);
    if AnySolvable(heap) {
      var e :| e in heap && Solvable(e);
      assert e in multiset(heap);
      if e != curr {
        assert e in multiset(rest);
        assert e in next;
      } else {
        var c :| c in Children(curr) && Solvable(c);
        assert c in next;
      }
    }
    if AnySolvable(next) {
      var e :| e in next && Solvable(e);
      if e in rest {
        assert e in multiset(rest);
        assert e in multiset(heap);
        assert e in heap;
      } else {
        assert e in Children(curr);
        assert curr in multiset(heap);
        assert curr in heap;
      }
    }
  }

  /** `is_solveable`: a search over partial evaluations, largest first by
      the ordering, pushing the sum and the product of each. */
  method IsSolveable(equation: Equation) returns (solved: bool)
    ensures solved <==> Solvable(equation)
  {
    var heap := [equation];
    while heap != []
      invariant Solvable(equation) <==> AnySolvable(heap)
      decreases Work(heap)
    {
      var curr, rest := PopMax(heap);
      if curr.target == curr.total && curr.remaining == [] {
        assert curr in multiset(heap);
        assert Solvable(curr);
        return true;
      }
      SearchStep(heap, curr, rest);
      ChildrenWork(curr);
      WorkAppend(rest, Children(curr));
      heap := rest;
      var added := Apply(curr, Add);
      if added.Some? {
        heap := heap + [added.value];
      }
      var multiplied := Apply(curr, Mul);
      if multiplied.Some? {
        heap := heap + [multiplied.value];
      }
      assert heap == rest + Children(curr);
      assert Work(heap) < Work(rest) + Pow2(|curr.remaining| + 1) - 1;
    }
    return false;
  }

  /** `calculate_calibration_total`, as a specification: the targets of the
      solvable equations. */
  function CalibrationTotal(equations: seq<Equation>): int
  {
    if equations == [] then 0
    else (if Solvable(equations[0]) then equations[0].target else 0) + CalibrationTotal(equations[1..])
  }

  /** `calculate_calibration_total`: runs the search on each equation and
      sums the targets of those it solves. */
  method CalculateCalibrationTotal(equations: seq<Equation>) returns (total: int)
    ensures total == CalibrationTotal(equations)
  {
    total := 0;
    var k := |equations|;
    while k > 0
      invariant 0 <= k <= |equations|
      invariant total == CalibrationTotal(equations[k..])
    {
      k := k - 1;
      var ok := IsSolveable(equations[k]);
      assert equations[k..][1..] == equations[k + 1..];
      if ok {
        total := total + equations[k].target;
      }
    }
  }

  // ---- parsing ----

  /** `parse_calibration`: "target: n0 n1 ...". The target and the first
      number become the target and the running total; the other numbers
      that parse remain. None stands for the aborts: no ": ", a target that
      is not an i64, or no number at all. */
  function ParseCalibration(line: string): (r: Option<Equation>)
    ensures r.Some? <==> (SplitOnce(line, ": ").Some?
      && ParseI64(SplitOnce(line, ": ").value.0).Some?
      && I64Pieces(Split(SplitOnce(line, ": ").value.1, ' ')) != [])
    ensures r.Some? ==> ParseI64(SplitOnce(line, ": ").value.0) == Some(r.value.target)
    ensures r.Some? ==> [r.value.total] + r.value.remaining == I64Pieces(Split(SplitOnce(line, ": ").value.1, ' '))
  {
    match SplitOnce(line, ": ")
    case None => None
    case Some((target, list)) =>
      var numbers := I64Pieces(Split(list, ' '));
      match ParseI64(target)
      case None => None
      case Some(t) => if numbers == [] then None else Some(Equation(t, numbers[0], numbers[1..]))
  }

  /** The pieces that parse as i64, in order. */
  function I64Pieces(pieces: seq<string>): (r: seq<int>)
    ensures |r| <= |pieces|
    ensures forall k :: 0 <= k < |r| ==> InI64(r[k])
  {
    if pieces == [] then []
    else (match ParseI64(pieces[0]) case Some(n) => [n] case None => []) + I64Pieces(pieces[1..])
  }

  /** `parse_input`: one equation per line; None if any line aborts. */
  function ParseInput(input: string): (r: Option<seq<Equation>>)
    ensures r.Some? <==> forall k :: 0 <= k < |Lines(input)| ==> ParseCalibration(Lines(input)[k]).Some?
    ensures r.Some? ==> (|r.value| == |Lines(input)|
      && forall k :: 0 <= k < |r.value| ==> Some(r.value[k]) == ParseCalibration(Lines(input)[k]))
  {
    var lines := Lines(input);
    if forall k :: 0 <= k < |lines| ==> ParseCalibration(lines[k]).Some? then
      Some(seq(|lines|, k requires 0 <= k < |lines| => ParseCalibration(lines[k]).value))
    else None
  }
}
