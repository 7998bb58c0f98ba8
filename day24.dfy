/** Day 24: crossed wires. A monitoring device of AND, OR and XOR gates
    pushes each new wire value through every gate that reads the wire, and
    the z wires form a binary number. */
module Day24 {
  import opened Common
  import Bits

  datatype GateType = And | Or | Xor

  /** What a gate of the type outputs for its two inputs. */
  function Op(gateType: GateType, left: bool, right: bool): bool
  {
    match gateType
    case And => left && right
    case Or => left || right
    case Xor => left != right
  }

  /** No gate type outputs true for two false inputs, so a gate nobody has
      updated agrees with its inputs. */
  lemma OpQuiet(gateType: GateType)
    ensures !Op(gateType, false, false)
  {
  }

  /** A gate with the last value seen on each input. */
  datatype Gate = Gate(gateType: GateType, leftId: string, leftValue: bool, rightId: string, rightValue: bool, outId: string)

  /** `Gate::new`: both inputs start false. */
  function NewGate(gateType: GateType, leftId: string, rightId: string, out: string): (g: Gate)
    ensures !g.leftValue && !g.rightValue && !OutValue(g)
    ensures ShapeOf(g) == Shape(gateType, leftId, rightId, out)
  {
    Gate(gateType, leftId, false, rightId, false, out)
  }

  function OutValue(gate: Gate): bool
  {
    Op(gate.gateType, gate.leftValue, gate.rightValue)
  }

  /** A gate without its input values: what running the device never changes. */
  datatype Shape = Shape(gateType: GateType, leftId: string, rightId: string, outId: string)

  function ShapeOf(gate: Gate): Shape
  {
    Shape(gate.gateType, gate.leftId, gate.rightId, gate.outId)
  }

  function Shapes(gates: seq<Gate>): (r: seq<Shape>)
    ensures |r| == |gates| && forall g :: 0 <= g < |gates| ==> r[g] == ShapeOf(gates[g])
  {
    seq(|gates|, g requires 0 <= g < |gates| => ShapeOf(gates[g]))
  }

  lemma SetKeepsShapes(gates: seq<Gate>, g: nat, gate: Gate)
    requires g < |gates| && ShapeOf(gate) == ShapeOf(gates[g])
    ensures Shapes(gates[g := gate]) == Shapes(gates)
  {
  }

  /** Where a wire's value goes: an input of a gate, or an output bit. */
  datatype Wire = GateLeft(gate: nat) | GateRight(gate: nat) | Output(index: nat)

  type Wires = map<string, seq<Wire>>

  /** The part of `MonitoringDevice` that running it changes. */
  datatype Values = Values(gates: seq<Gate>, outputs: seq<bool>)

  /** The part that stays fixed: the wiring, the gate shapes and the number
      of output bits, with a ranking of wire names that puts each gate's
      inputs below its output, which shows the circuit has no cycle and
      bounds the propagation. */
  datatype Circuit = Circuit(wires: Wires, shapes: seq<Shape>, outputCount: nat, rank: string -> nat, bound: nat)

  /** Entry w of wire id's list names an input of a gate that reads id, or
      an output bit that exists. */
  predicate Fits(c: Circuit, id: string, w: Wire)
  {
    match w
    case GateLeft(g) => g < |c.shapes| && c.shapes[g].leftId == id
    case GateRight(g) => g < |c.shapes| && c.shapes[g].rightId == id
    case Output(i) => i < c.outputCount
  }

  ghost predicate Registered(c: Circuit)
  {
    forall id, k :: id in c.wires && 0 <= k < |c.wires[id]| ==> Fits(c, id, c.wires[id][k])
  }

  ghost predicate Layered(c: Circuit)
  {
    forall g :: 0 <= g < |c.shapes| ==>
      c.rank(c.shapes[g].leftId) < c.rank(c.shapes[g].outId) && c.rank(c.shapes[g].rightId) < c.rank(c.shapes[g].outId)
      && c.rank(c.shapes[g].outId) <= c.bound
  }

  ghost predicate Valid(c: Circuit)
  {
    Registered(c) && Layered(c)
  }

  /** How far a wire is from the last gate outputs; it drops from a gate's
      inputs to its output. */
  function Height(c: Circuit, id: string): nat
  {
    if c.rank(id) <= c.bound then c.bound - c.rank(id) else 0
  }

  lemma HeightDrops(c: Circuit, g: nat)
    requires Layered(c) && g < |c.shapes|
    ensures Height(c, c.shapes[g].outId) < Height(c, c.shapes[g].leftId)
    ensures Height(c, c.shapes[g].outId) < Height(c, c.shapes[g].rightId)
  {
  }

  ghost predicate Matches(c: Circuit, vals: Values)
  {
    Shapes(vals.gates) == c.shapes && |vals.outputs| == c.outputCount
  }

  // ---- Propagation ----

  /** `apply_input`: the new value of wire id delivered to every entry of
      its list in order; None where the source panics on a wire that has
      no list. */
  ghost function Apply(c: Circuit, vals: Values, id: string, value: bool): (r: Option<Values>)
    requires Valid(c) && Matches(c, vals)
    ensures r.Some? ==> Matches(c, r.value)
    decreases Height(c, id), 2, 0
  {
    if id !in c.wires then None else ApplyFrom(c, vals, id, value, 0)
  }

  /** Delivering the value to the entries from k on. */
  ghost function ApplyFrom(c: Circuit, vals: Values, id: string, value: bool, k: nat): (r: Option<Values>)
    requires Valid(c) && Matches(c, vals) && id in c.wires && k <= |c.wires[id]|
    ensures r.Some? ==> Matches(c, r.value)
    decreases Height(c, id), 1, |c.wires[id]| - k
  {
    if k == |c.wires[id]| then Some(vals)
    else
      match Deliver(c, vals, id, value, k)
      case None => None
      case Some(next) => ApplyFrom(c, next, id, value, k + 1)
  }

  lemma ApplyFromStep(c: Circuit, vals: Values, id: string, value: bool, k: nat)
    requires Valid(c) && Matches(c, vals) && id in c.wires && k < |c.wires[id]|
    ensures Deliver(c, vals, id, value, k).None? ==> ApplyFrom(c, vals, id, value, k).None?
    ensures Deliver(c, vals, id, value, k).Some? ==>
      ApplyFrom(c, vals, id, value, k) == ApplyFrom(c, Deliver(c, vals, id, value, k).value, id, value, k + 1)
  {
  }

  lemma ApplyFromEnd(c: Circuit, vals: Values, id: string, value: bool)
    requires Valid(c) && Matches(c, vals) && id in c.wires
    ensures ApplyFrom(c, vals, id, value, |c.wires[id]|) == Some(vals)
  {
  }

  lemma ApplyStart(c: Circuit, vals: Values, id: string, value: bool)
    requires Valid(c) && Matches(c, vals) && id in c.wires
    ensures Apply(c, vals, id, value) == ApplyFrom(c, vals, id, value, 0)
  {
  }

  /** Delivering the value to entry k: a gate input, or an output bit. */
  ghost function Deliver(c: Circuit, vals: Values, id: string, value: bool, k: nat): (r: Option<Values>)
    requires Valid(c) && Matches(c, vals) && id in c.wires && k < |c.wires[id]|
    ensures r.Some? ==> Matches(c, r.value)
    decreases Height(c, id), 0, 1
  {
    assert Fits(c, id, c.wires[id][k]);
    match c.wires[id][k]
    case GateLeft(g) => Update(c, vals, g, false, value)
    case GateRight(g) => Update(c, vals, g, true, value)
    case Output(i) => Some(vals.(outputs := vals.outputs[i := value]))
  }

  lemma DeliverCases(c: Circuit, vals: Values, id: string, value: bool, k: nat)
    requires Valid(c) && Matches(c, vals) && id in c.wires && k < |c.wires[id]|
    ensures c.wires[id][k].GateLeft? ==> Deliver(c, vals, id, value, k) == Update(c, vals, c.wires[id][k].gate, false, value)
    ensures c.wires[id][k].GateRight? ==> Deliver(c, vals, id, value, k) == Update(c, vals, c.wires[id][k].gate, true, value)
    ensures c.wires[id][k].Output? ==>
      Deliver(c, vals, id, value, k) == Some(vals.(outputs := vals.outputs[c.wires[id][k].index := value]))
  {
  }

  lemma FitsAt(c: Circuit, id: string, k: nat)
    requires Registered(c) && id in c.wires && k < |c.wires[id]|
    ensures Fits(c, id, c.wires[id][k])
  {
  }

  /** `update_gate`: one input of gate g takes the value, and the gate's
      new output goes on to its out wire. */
  ghost function Update(c: Circuit, vals: Values, g: nat, isRight: bool, value: bool): (r: Option<Values>)
    requires Valid(c) && Matches(c, vals) && g < |vals.gates|
    ensures r.Some? ==> Matches(c, r.value)
    decreases Height(c, if isRight then c.shapes[g].rightId else c.shapes[g].leftId), 0, 0
  {
    var gate := if isRight then vals.gates[g].(rightValue := value) else vals.gates[g].(leftValue := value);
    SetKeepsShapes(vals.gates, g, gate);
    HeightDrops(c, g);
    Apply(c, vals.(gates := vals.gates[g := gate]), gate.outId, OutValue(gate))
  }

  /** Delivering each input value in turn, from the k-th name of order on. */
  ghost function ApplyAll(c: Circuit, vals: Values, inputs: map<string, bool>, order: seq<string>, k: nat): (r: Option<Values>)
    requires Valid(c) && Matches(c, vals) && k <= |order| && forall x :: x in order ==> x in inputs
    ensures r.Some? ==> Matches(c, r.value)
    decreases |order| - k
  {
    if k == |order| then Some(vals)
    else
      match Apply(c, vals, order[k], inputs[order[k]])
      case None => None
      case Some(next) => ApplyAll(c, next, inputs, order, k + 1)
  }

  // ---- What propagation changes ----

  /** The value at the place an entry names. */
  function Held(vals: Values, w: Wire): bool
  {
    match w
    case GateLeft(g) => g < |vals.gates| && vals.gates[g].leftValue
    case GateRight(g) => g < |vals.gates| && vals.gates[g].rightValue
    case Output(i) => i < |vals.outputs| && vals.outputs[i]
  }

  /** Some gate writes wire f. */
  ghost predicate Driven(c: Circuit, f: string)
  {
    exists g :: 0 <= g < |c.shapes| && c.shapes[g].outId == f
  }

  /** Applying a value to wire id never reaches wire f: f is another wire
      and is not below id, or no gate writes it. */
  ghost predicate Untouched(c: Circuit, id: string, f: string)
  {
    f != id && (Height(c, f) >= Height(c, id) || !Driven(c, f))
  }

  /** Every wire that entry w reads is out of reach of id. */
  ghost predicate Quiet(c: Circuit, id: string, w: Wire)
  {
    match w
    case GateLeft(g) => g < |c.shapes| && Untouched(c, id, c.shapes[g].leftId)
    case GateRight(g) => g < |c.shapes| && Untouched(c, id, c.shapes[g].rightId)
    case Output(i) => forall u :: u in c.wires && Output(i) in c.wires[u] ==> Untouched(c, id, u)
  }

  /** What is out of reach of a gate input is out of reach of the gate's
      output. */
  lemma QuietDown(c: Circuit, g: nat, isRight: bool, w: Wire)
    requires Layered(c) && g < |c.shapes|
    requires Quiet(c, if isRight then c.shapes[g].rightId else c.shapes[g].leftId, w)
    ensures Quiet(c, c.shapes[g].outId, w)
  {
    HeightDrops(c, g);
    assert Driven(c, c.shapes[g].outId);
  }

  /** Each output bit is read from one wire at most. */
  ghost predicate OutputsOnce(c: Circuit)
  {
    forall u, v, i :: u in c.wires && v in c.wires && Output(i) in c.wires[u] && Output(i) in c.wires[v] ==> u == v
  }

  /** Whatever reads a wire out of reach of wire low is itself out of
      reach of low. */
  lemma FedQuiet(c: Circuit, id: string, j: nat, low: string)
    requires Valid(c) && OutputsOnce(c) && id in c.wires && j < |c.wires[id]| && Untouched(c, low, id)
    ensures Quiet(c, low, c.wires[id][j])
  {
    assert Fits(c, id, c.wires[id][j]);
  }

  /** Propagating a value from wire id leaves every place it cannot reach
      as it was. */
  lemma {:induction false} FrameApply(c: Circuit, vals: Values, id: string, value: bool, w: Wire)
    requires Valid(c) && Matches(c, vals) && Apply(c, vals, id, value).Some? && Quiet(c, id, w)
    ensures Held(Apply(c, vals, id, value).value, w) == Held(vals, w)
    decreases Height(c, id), 2, 0
  {
    FrameFrom(c, vals, id, value, 0, w);
  }

  lemma {:induction false} FrameFrom(c: Circuit, vals: Values, id: string, value: bool, k: nat, w: Wire)
    requires Valid(c) && Matches(c, vals) && id in c.wires && k <= |c.wires[id]|
    requires ApplyFrom(c, vals, id, value, k).Some? && Quiet(c, id, w)
    ensures Held(ApplyFrom(c, vals, id, value, k).value, w) == Held(vals, w)
    decreases Height(c, id), 1, |c.wires[id]| - k
  {
    if k < |c.wires[id]| {
      ApplyFromStep(c, vals, id, value, k);
      var next := Deliver(c, vals, id, value, k).value;
      FrameDeliver(c, vals, id, value, k, w);
      FrameFrom(c, next, id, value, k + 1, w);
    }
  }

  lemma {:induction false} FrameDeliver(c: Circuit, vals: Values, id: string, value: bool, k: nat, w: Wire)
    requires Valid(c) && Matches(c, vals) && id in c.wires && k < |c.wires[id]|
    requires Deliver(c, vals, id, value, k).Some? && Quiet(c, id, w)
    ensures Held(Deliver(c, vals, id, value, k).value, w) == Held(vals, w)
    decreases Height(c, id), 0, 1
  {
    assert Fits(c, id, c.wires[id][k]);
    match c.wires[id][k]
    case GateLeft(g) =>
      FrameUpdate(c, vals, g, false, value, w);
    case GateRight(g) =>
      FrameUpdate(c, vals, g, true, value, w);
    case Output(i) =>
  }

  lemma {:induction false} FrameUpdate(c: Circuit, vals: Values, g: nat, isRight: bool, value: bool, w: Wire)
    requires Valid(c) && Matches(c, vals) && g < |vals.gates| && Update(c, vals, g, isRight, value).Some?
    requires Quiet(c, if isRight then c.shapes[g].rightId else c.shapes[g].leftId, w)
    ensures Held(Update(c, vals, g, isRight, value).value, w) == Held(vals, w)
    decreases Height(c, if isRight then c.shapes[g].rightId else c.shapes[g].leftId), 0, 0
  {
    var gate := if isRight then vals.gates[g].(rightValue := value) else vals.gates[g].(leftValue := value);
    var written := vals.(gates := vals.gates[g := gate]);
    SetKeepsShapes(vals.gates, g, gate);
    HeightDrops(c, g);
    QuietDown(c, g, isRight, w);
    FrameApply(c, written, gate.outId, OutValue(gate), w);
  }

  /** Delivering to entry k sets that place and leaves the other places
      that read wire id as they were. */
  lemma DeliverKeeps(c: Circuit, vals: Values, id: string, value: bool, k: nat)
    requires Valid(c) && OutputsOnce(c) && Matches(c, vals) && id in c.wires && k < |c.wires[id]|
    requires Deliver(c, vals, id, value, k).Some?
    ensures forall j :: 0 <= j < |c.wires[id]| ==>
      (Held(Deliver(c, vals, id, value, k).value, c.wires[id][j]) == if c.wires[id][j] == c.wires[id][k] then value else Held(vals, c.wires[id][j]))
  {
    var list := c.wires[id];
    var next := Deliver(c, vals, id, value, k).value;
    assert Fits(c, id, list[k]);
    match list[k]
    case GateLeft(g) =>
      var gate := vals.gates[g].(leftValue := value);
      var written := vals.(gates := vals.gates[g := gate]);
      SetKeepsShapes(vals.gates, g, gate);
      HeightDrops(c, g);
      forall j | 0 <= j < |list|
        ensures Held(next, list[j]) == if list[j] == list[k] then value else Held(vals, list[j])
      {
        FedQuiet(c, id, j, gate.outId);
        FrameApply(c, written, gate.outId, OutValue(gate), list[j]);
      }
    case GateRight(g) =>
      var gate := vals.gates[g].(rightValue := value);
      var written := vals.(gates := vals.gates[g := gate]);
      SetKeepsShapes(vals.gates, g, gate);
      HeightDrops(c, g);
      forall j | 0 <= j < |list|
        ensures Held(next, list[j]) == if list[j] == list[k] then value else Held(vals, list[j])
      {
        FedQuiet(c, id, j, gate.outId);
        FrameApply(c, written, gate.outId, OutValue(gate), list[j]);
      }
    case Output(i) =>
  }

  /** Delivering to the entries from k on leaves all of them, and every
      earlier one that already held the value, holding it. */
  lemma {:induction false} SetsFrom(c: Circuit, vals: Values, id: string, value: bool, k: nat)
    requires Valid(c) && OutputsOnce(c) && Matches(c, vals) && id in c.wires && k <= |c.wires[id]|
    requires ApplyFrom(c, vals, id, value, k).Some?
    ensures forall j :: 0 <= j < |c.wires[id]| && (j >= k || Held(vals, c.wires[id][j]) == value) ==>
      Held(ApplyFrom(c, vals, id, value, k).value, c.wires[id][j]) == value
    decreases |c.wires[id]| - k
  {
    if k < |c.wires[id]| {
      ApplyFromStep(c, vals, id, value, k);
      DeliverKeeps(c, vals, id, value, k);
      SetsFrom(c, Deliver(c, vals, id, value, k).value, id, value, k + 1);
    }
  }

  /** After `apply_input`, every gate input and output bit that reads the
      wire holds its value. */
  lemma ApplySets(c: Circuit, vals: Values, id: string, value: bool)
    requires Valid(c) && OutputsOnce(c) && Matches(c, vals) && Apply(c, vals, id, value).Some?
    ensures id in c.wires
    ensures forall j :: 0 <= j < |c.wires[id]| ==> Held(Apply(c, vals, id, value).value, c.wires[id][j]) == value
  {
    SetsFrom(c, vals, id, value, 0);
  }

  /** After `update_gate`, the gate has the new value on the one input and
      the old value on the other, and everything that reads its out wire
      holds the gate's output for those inputs. */
  lemma UpdateSets(c: Circuit, vals: Values, g: nat, isRight: bool, value: bool)
    requires Valid(c) && OutputsOnce(c) && Matches(c, vals) && g < |vals.gates| && Update(c, vals, g, isRight, value).Some?
    ensures var r := Update(c, vals, g, isRight, value).value;
      r.gates[g] == (if isRight then vals.gates[g].(rightValue := value) else vals.gates[g].(leftValue := value))
      && c.shapes[g].outId in c.wires
      && forall j :: 0 <= j < |c.wires[c.shapes[g].outId]| ==> Held(r, c.wires[c.shapes[g].outId][j]) == OutValue(r.gates[g])
  {
    var gate := if isRight then vals.gates[g].(rightValue := value) else vals.gates[g].(leftValue := value);
    var written := vals.(gates := vals.gates[g := gate]);
    var r := Update(c, vals, g, isRight, value).value;
    SetKeepsShapes(vals.gates, g, gate);
    HeightDrops(c, g);
    assert Driven(c, gate.outId);
    FrameApply(c, written, gate.outId, OutValue(gate), GateLeft(g));
    FrameApply(c, written, gate.outId, OutValue(gate), GateRight(g));
    assert ShapeOf(r.gates[g]) == ShapeOf(gate);
    ApplySets(c, written, gate.outId, OutValue(gate));
  }

  // ---- Settling ----

  /** Each wire is written by one gate at most. */
  ghost predicate SingleDriver(c: Circuit)
  {
    forall g, h :: 0 <= g < |c.shapes| && 0 <= h < |c.shapes| && c.shapes[g].outId == c.shapes[h].outId ==> g == h
  }

  /** Every gate is listed on both of its input wires. */
  ghost predicate Complete(c: Circuit)
  {
    forall g :: 0 <= g < |c.shapes| ==>
      c.shapes[g].leftId in c.wires && GateLeft(g) in c.wires[c.shapes[g].leftId]
      && c.shapes[g].rightId in c.wires && GateRight(g) in c.wires[c.shapes[g].rightId]
  }

  /** Everything that reads gate g's out wire holds the gate's output. */
  ghost predicate Propagated(c: Circuit, vals: Values, g: nat)
  {
    g < |c.shapes| && g < |vals.gates| &&
    (c.shapes[g].outId in c.wires ==>
      forall j :: 0 <= j < |c.wires[c.shapes[g].outId]| ==> Held(vals, c.wires[c.shapes[g].outId][j]) == OutValue(vals.gates[g]))
  }

  /** Every gate whose out wire lies below height h has propagated. */
  ghost predicate PropagatedBelow(c: Circuit, vals: Values, h: nat)
  {
    forall g :: 0 <= g < |c.shapes| && Height(c, c.shapes[g].outId) < h ==> Propagated(c, vals, g)
  }

  ghost predicate AllPropagated(c: Circuit, vals: Values)
  {
    forall g :: 0 <= g < |c.shapes| ==> Propagated(c, vals, g)
  }

  /** Propagating a value from wire id leaves every gate below id with its
      output passed on, if that held before. */
  lemma {:induction false} PropApply(c: Circuit, vals: Values, id: string, value: bool)
    requires Valid(c) && OutputsOnce(c) && SingleDriver(c) && Matches(c, vals) && Apply(c, vals, id, value).Some?
    requires PropagatedBelow(c, vals, Height(c, id))
    ensures PropagatedBelow(c, Apply(c, vals, id, value).value, Height(c, id))
    decreases Height(c, id), 2, 0
  {
    PropFrom(c, vals, id, value, 0);
  }

  lemma {:induction false} PropFrom(c: Circuit, vals: Values, id: string, value: bool, k: nat)
    requires Valid(c) && OutputsOnce(c) && SingleDriver(c) && Matches(c, vals) && id in c.wires && k <= |c.wires[id]|
    requires ApplyFrom(c, vals, id, value, k).Some? && PropagatedBelow(c, vals, Height(c, id))
    ensures PropagatedBelow(c, ApplyFrom(c, vals, id, value, k).value, Height(c, id))
    decreases Height(c, id), 1, |c.wires[id]| - k
  {
    if k < |c.wires[id]| {
      ApplyFromStep(c, vals, id, value, k);
      PropDeliver(c, vals, id, value, k);
      PropFrom(c, Deliver(c, vals, id, value, k).value, id, value, k + 1);
    }
  }

  lemma {:induction false} PropDeliver(c: Circuit, vals: Values, id: string, value: bool, k: nat)
    requires Valid(c) && OutputsOnce(c) && SingleDriver(c) && Matches(c, vals) && id in c.wires && k < |c.wires[id]|
    requires Deliver(c, vals, id, value, k).Some? && PropagatedBelow(c, vals, Height(c, id))
    ensures PropagatedBelow(c, Deliver(c, vals, id, value, k).value, Height(c, id))
    decreases Height(c, id), 0, 1
  {
    assert Fits(c, id, c.wires[id][k]);
    match c.wires[id][k]
    case GateLeft(g) =>
      PropUpdate(c, vals, g, false, value);
    case GateRight(g) =>
      PropUpdate(c, vals, g, true, value);
    case Output(i) =>
      var next := Deliver(c, vals, id, value, k).value;
      forall h | 0 <= h < |c.shapes| && Height(c, c.shapes[h].outId) < Height(c, id)
        ensures Propagated(c, next, h)
      {
        var out := c.shapes[h].outId;
        if out in c.wires {
          forall j | 0 <= j < |c.wires[out]|
            ensures Held(next, c.wires[out][j]) == Held(vals, c.wires[out][j])
          {
            assert c.wires[out][j] != Output(i);
          }
        }
      }
  }

  lemma {:induction false} PropUpdate(c: Circuit, vals: Values, g: nat, isRight: bool, value: bool)
    requires Valid(c) && OutputsOnce(c) && SingleDriver(c) && Matches(c, vals) && g < |vals.gates|
    requires Update(c, vals, g, isRight, value).Some?
    requires PropagatedBelow(c, vals, Height(c, if isRight then c.shapes[g].rightId else c.shapes[g].leftId))
    ensures PropagatedBelow(c, Update(c, vals, g, isRight, value).value, Height(c, if isRight then c.shapes[g].rightId else c.shapes[g].leftId))
    decreases Height(c, if isRight then c.shapes[g].rightId else c.shapes[g].leftId), 0, 0
  {
    var input := if isRight then c.shapes[g].rightId else c.shapes[g].leftId;
    var gate := if isRight then vals.gates[g].(rightValue := value) else vals.gates[g].(leftValue := value);
    var written := vals.(gates := vals.gates[g := gate]);
    var r := Update(c, vals, g, isRight, value).value;
    SetKeepsShapes(vals.gates, g, gate);
    HeightDrops(c, g);
    var out := gate.outId;
    assert r == Apply(c, written, out, OutValue(gate)).value;
    WrittenKeeps(c, vals, g, isRight, value, Height(c, input));
    PropApply(c, written, out, OutValue(gate));
    UpdateSets(c, vals, g, isRight, value);
    forall h | 0 <= h < |c.shapes| && Height(c, out) <= Height(c, c.shapes[h].outId) < Height(c, input) && h != g
      ensures Propagated(c, r, h)
    {
      OthersKeep(c, written, out, OutValue(gate), h);
    }
  }

  /** Setting one input of gate g disturbs no gate below g's out wire. */
  lemma WrittenKeeps(c: Circuit, vals: Values, g: nat, isRight: bool, value: bool, h: nat)
    requires Valid(c) && Matches(c, vals) && g < |vals.gates|
    requires h == Height(c, if isRight then c.shapes[g].rightId else c.shapes[g].leftId)
    requires PropagatedBelow(c, vals, h)
    ensures var gate := if isRight then vals.gates[g].(rightValue := value) else vals.gates[g].(leftValue := value);
      PropagatedBelow(c, vals.(gates := vals.gates[g := gate]), Height(c, c.shapes[g].outId))
  {
    var gate := if isRight then vals.gates[g].(rightValue := value) else vals.gates[g].(leftValue := value);
    var written := vals.(gates := vals.gates[g := gate]);
    SetKeepsShapes(vals.gates, g, gate);
    HeightDrops(c, g);
    forall f | 0 <= f < |c.shapes| && Height(c, c.shapes[f].outId) < Height(c, c.shapes[g].outId)
      ensures Propagated(c, written, f)
    {
      var out := c.shapes[f].outId;
      assert Propagated(c, vals, f);
      if out in c.wires {
        forall j | 0 <= j < |c.wires[out]|
          ensures Held(written, c.wires[out][j]) == Held(vals, c.wires[out][j])
        {
          assert Fits(c, out, c.wires[out][j]);
        }
      }
    }
  }

  /** A gate at or above out wire id, other than id's own driver, keeps its
      inputs, and whatever reads its out wire, when id propagates. */
  lemma OthersKeep(c: Circuit, vals: Values, id: string, value: bool, h: nat)
    requires Valid(c) && OutputsOnce(c) && SingleDriver(c) && Matches(c, vals) && Apply(c, vals, id, value).Some?
    requires h < |c.shapes| && c.shapes[h].outId != id && Height(c, c.shapes[h].outId) >= Height(c, id)
    requires Propagated(c, vals, h)
    ensures Propagated(c, Apply(c, vals, id, value).value, h)
  {
    var r := Apply(c, vals, id, value).value;
    var out := c.shapes[h].outId;
    HeightDrops(c, h);
    FrameApply(c, vals, id, value, GateLeft(h));
    FrameApply(c, vals, id, value, GateRight(h));
    assert ShapeOf(r.gates[h]) == ShapeOf(vals.gates[h]);
    if out in c.wires {
      forall j | 0 <= j < |c.wires[out]|
        ensures Held(r, c.wires[out][j]) == Held(vals, c.wires[out][j])
      {
        FedQuiet(c, out, j, id);
        FrameApply(c, vals, id, value, c.wires[out][j]);
      }
    }
  }

  /** Everything that reads a wire no gate writes holds its input value,
      or false if it is not among the wires applied so far. */
  ghost predicate Fed(c: Circuit, vals: Values, inputs: map<string, bool>, done: set<string>)
  {
    forall u, j :: u in c.wires && !Driven(c, u) && 0 <= j < |c.wires[u]| ==>
      Held(vals, c.wires[u][j]) == (u in done && u in inputs && inputs[u])
  }

  /** Applying one input wire that no gate writes keeps every gate's output
      passed on, and sets what reads the wire. */
  lemma FeedOne(c: Circuit, vals: Values, inputs: map<string, bool>, done: set<string>, p: string)
    requires Valid(c) && OutputsOnce(c) && SingleDriver(c) && Matches(c, vals)
    requires p in inputs && !Driven(c, p) && Apply(c, vals, p, inputs[p]).Some?
    requires AllPropagated(c, vals) && Fed(c, vals, inputs, done)
    ensures AllPropagated(c, Apply(c, vals, p, inputs[p]).value)
    ensures Fed(c, Apply(c, vals, p, inputs[p]).value, inputs, done + {p})
  {
    var value := inputs[p];
    var r := Apply(c, vals, p, value).value;
    PropApply(c, vals, p, value);
    forall h | 0 <= h < |c.shapes| && Height(c, c.shapes[h].outId) >= Height(c, p)
      ensures Propagated(c, r, h)
    {
      OthersKeep(c, vals, p, value, h);
    }
    ApplySets(c, vals, p, value);
    forall u, j | u in c.wires && !Driven(c, u) && 0 <= j < |c.wires[u]| && u != p
      ensures Held(r, c.wires[u][j]) == Held(vals, c.wires[u][j])
    {
      FedQuiet(c, u, j, p);
      FrameApply(c, vals, p, value, c.wires[u][j]);
    }
  }

  /** The names of order from the k-th on. */
  ghost function NamesFrom(order: seq<string>, k: nat): set<string>
  {
    set i | k <= i < |order| :: order[i]
  }

  /** Applying the input wires from the k-th name of order on. */
  lemma {:induction false} FeedAll(c: Circuit, vals: Values, inputs: map<string, bool>, order: seq<string>, k: nat, done: set<string>)
    requires Valid(c) && OutputsOnce(c) && SingleDriver(c) && Matches(c, vals) && k <= |order|
    requires (forall x :: x in order ==> x in inputs) && (forall x :: x in inputs ==> !Driven(c, x))
    requires ApplyAll(c, vals, inputs, order, k).Some?
    requires AllPropagated(c, vals) && Fed(c, vals, inputs, done)
    ensures AllPropagated(c, ApplyAll(c, vals, inputs, order, k).value)
    ensures Fed(c, ApplyAll(c, vals, inputs, order, k).value, inputs, done + NamesFrom(order, k))
    decreases |order| - k
  {
    if k == |order| {
      assert done + NamesFrom(order, k) == done;
    } else {
      var p := order[k];
      var next := Apply(c, vals, p, inputs[p]).value;
      FeedOne(c, vals, inputs, done, p);
      FeedAll(c, next, inputs, order, k + 1, done + {p});
      assert done + {p} + NamesFrom(order, k + 1) == done + NamesFrom(order, k);
    }
  }

  /** The value of wire u in the circuit as a formula: the gate that
      writes it applied to the values of the gate's inputs, or the input
      value (false when there is none) for a wire no gate writes. */
  ghost function Eval(c: Circuit, inputs: map<string, bool>, u: string): bool
    requires Layered(c)
    decreases c.rank(u)
  {
    if Driven(c, u) then
      var g :| 0 <= g < |c.shapes| && c.shapes[g].outId == u;
      Op(c.shapes[g].gateType, Eval(c, inputs, c.shapes[g].leftId), Eval(c, inputs, c.shapes[g].rightId))
    else u in inputs && inputs[u]
  }

  lemma EvalDriven(c: Circuit, inputs: map<string, bool>, g: nat)
    requires Layered(c) && SingleDriver(c) && g < |c.shapes|
    ensures Eval(c, inputs, c.shapes[g].outId)
      == Op(c.shapes[g].gateType, Eval(c, inputs, c.shapes[g].leftId), Eval(c, inputs, c.shapes[g].rightId))
  {
    assert Driven(c, c.shapes[g].outId);
  }

  /** Once every gate has passed its output on and every unwritten wire
      its input value, whatever reads a wire holds its formula's value. */
  lemma {:induction false} Settled(c: Circuit, vals: Values, inputs: map<string, bool>, u: string)
    requires Valid(c) && SingleDriver(c) && Complete(c) && Matches(c, vals)
    requires AllPropagated(c, vals) && Fed(c, vals, inputs, inputs.Keys)
    ensures u in c.wires ==> forall j :: 0 <= j < |c.wires[u]| ==> Held(vals, c.wires[u][j]) == Eval(c, inputs, u)
    decreases c.rank(u)
  {
    if Driven(c, u) {
      var g :| 0 <= g < |c.shapes| && c.shapes[g].outId == u;
      var left, right := c.shapes[g].leftId, c.shapes[g].rightId;
      EvalDriven(c, inputs, g);
      Settled(c, vals, inputs, left);
      Settled(c, vals, inputs, right);
      assert Propagated(c, vals, g);
      var jl :| 0 <= jl < |c.wires[left]| && c.wires[left][jl] == GateLeft(g);
      var jr :| 0 <= jr < |c.wires[right]| && c.wires[right][jr] == GateRight(g);
      assert ShapeOf(vals.gates[g]) == c.shapes[g];
    }
  }

  /** The gates and output bits of a freshly built device: all false. */
  ghost predicate AllFalse(vals: Values)
  {
    (forall g :: 0 <= g < |vals.gates| ==> !vals.gates[g].leftValue && !vals.gates[g].rightValue)
    && forall i :: 0 <= i < |vals.outputs| ==> !vals.outputs[i]
  }

  /** From a fresh device, applying every input wire leaves every gate's
      output passed on and every unwritten wire's input value delivered. */
  lemma FreshSettles(c: Circuit, vals: Values, inputs: map<string, bool>, order: seq<string>)
    requires Valid(c) && OutputsOnce(c) && SingleDriver(c) && Matches(c, vals) && AllFalse(vals)
    requires (forall x :: x in order <==> x in inputs) && (forall x :: x in inputs ==> !Driven(c, x))
    requires ApplyAll(c, vals, inputs, order, 0).Some?
    ensures AllPropagated(c, ApplyAll(c, vals, inputs, order, 0).value)
    ensures Fed(c, ApplyAll(c, vals, inputs, order, 0).value, inputs, inputs.Keys)
  {
    forall g | 0 <= g < |c.shapes|
      ensures Propagated(c, vals, g)
    {
      OpQuiet(c.shapes[g].gateType);
      assert ShapeOf(vals.gates[g]) == c.shapes[g];
      var out := c.shapes[g].outId;
      if out in c.wires {
        forall j | 0 <= j < |c.wires[out]|
          ensures !Held(vals, c.wires[out][j])
        {
        }
      }
    }
    FeedAll(c, vals, inputs, order, 0, {});
    assert {} + NamesFrom(order, 0) == inputs.Keys;
  }

  /** `apply_input_wires` computes the circuit: starting from a fresh
      device, after applying every input wire (none of them written by a
      gate) each output bit holds the value of the wire that feeds it, and
      each gate input the value of its input wire, whatever the order. */
  lemma Outcome(c: Circuit, vals: Values, inputs: map<string, bool>, order: seq<string>)
    requires Valid(c) && OutputsOnce(c) && SingleDriver(c) && Complete(c) && Matches(c, vals) && AllFalse(vals)
    requires (forall x :: x in order <==> x in inputs) && (forall x :: x in inputs ==> !Driven(c, x))
    requires ApplyAll(c, vals, inputs, order, 0).Some?
    ensures var r := ApplyAll(c, vals, inputs, order, 0).value;
      forall u, i: nat :: u in c.wires && Output(i) in c.wires[u] ==> i < |r.outputs| && r.outputs[i] == Eval(c, inputs, u)
    ensures var r := ApplyAll(c, vals, inputs, order, 0).value;
      forall g :: 0 <= g < |r.gates| ==>
        r.gates[g].leftValue == Eval(c, inputs, c.shapes[g].leftId) && r.gates[g].rightValue == Eval(c, inputs, c.shapes[g].rightId)
  {
    var r := ApplyAll(c, vals, inputs, order, 0).value;
    FreshSettles(c, vals, inputs, order);
    forall u, i: nat | u in c.wires && Output(i) in c.wires[u]
      ensures i < |r.outputs| && r.outputs[i] == Eval(c, inputs, u)
    {
      var j :| 0 <= j < |c.wires[u]| && c.wires[u][j] == Output(i);
      assert Fits(c, u, c.wires[u][j]);
      Settled(c, r, inputs, u);
    }
    forall g | 0 <= g < |r.gates|
      ensures r.gates[g].leftValue == Eval(c, inputs, c.shapes[g].leftId)
      ensures r.gates[g].rightValue == Eval(c, inputs, c.shapes[g].rightId)
    {
      var left, right := c.shapes[g].leftId, c.shapes[g].rightId;
      var jl :| 0 <= jl < |c.wires[left]| && c.wires[left][jl] == GateLeft(g);
      var jr :| 0 <= jr < |c.wires[right]| && c.wires[right][jr] == GateRight(g);
      Settled(c, r, inputs, left);
      Settled(c, r, inputs, right);
    }
  }

  // ---- Reading the output ----

  function Bit(b: bool): nat
  {
    if b then 1 else 0
  }

  /** `output_value`: the sum of each set output bit's place value 2^i,
      taken in index order. */
  function OutputValue(outputs: seq<bool>): (r: nat)
    ensures r < Bits.Pow2(|outputs|)
  {
    if outputs == [] then 0
    else OutputValue(outputs[..|outputs| - 1]) + if outputs[|outputs| - 1] then Bits.Pow2(|outputs| - 1) else 0
  }

  lemma OutputValueLast(outputs: seq<bool>)
    requires outputs != []
    ensures OutputValue(outputs) == OutputValue(outputs[..|outputs| - 1]) + if outputs[|outputs| - 1] then Bits.Pow2(|outputs| - 1) else 0
  {
  }

  /** The lowest bit counts once and the rest count double. */
  lemma {:induction false} OutputValueFront(b: bool, outputs: seq<bool>)
    ensures OutputValue([b] + outputs) == Bit(b) + 2 * OutputValue(outputs)
    decreases |outputs|
  {
    if outputs != [] {
      var n := |outputs|;
      var whole := [b] + outputs;
      assert whole[..n] == [b] + outputs[..n - 1] && whole[n] == outputs[n - 1];
      OutputValueFront(b, outputs[..n - 1]);
      assert Bits.Pow2(n) == 2 * Bits.Pow2(n - 1);
      hide *;
      OutputValueLast(whole);
      OutputValueLast(outputs);
    }
  }

  /** The first len binary digits of n, lowest first. */
  function ToBits(n: nat, len: nat): (r: seq<bool>)
    ensures |r| == len
  {
    if len == 0 then [] else [n % 2 == 1] + ToBits(n / 2, len - 1)
  }

  /** Reading the output bits as a number loses nothing: its binary digits
      are the bits. */
  lemma {:induction false} OutputValueBits(outputs: seq<bool>)
    ensures ToBits(OutputValue(outputs), |outputs|) == outputs
    decreases |outputs|
  {
    if outputs != [] {
      var rest := outputs[1..];
      assert [outputs[0]] + rest == outputs;
      OutputValueFront(outputs[0], rest);
      OutputValueBits(rest);
    }
  }

  /** Two output vectors of one length read the same only if they are equal. */
  lemma OutputValueInjective(xs: seq<bool>, ys: seq<bool>)
    requires |xs| == |ys| && OutputValue(xs) == OutputValue(ys)
    ensures xs == ys
  {
    OutputValueBits(xs);
    OutputValueBits(ys);
  }

  // ---- The device ----

  /** `MonitoringDevice`: which gate inputs and output bits read each wire,
      the gates with the last value seen on each input, and the output
      bits. */
  class MonitoringDevice {
    var wires: Wires
    var gates: seq<Gate>
    var outputs: seq<bool>

    constructor (wires: Wires, gates: seq<Gate>, outputs: seq<bool>)
      ensures this.wires == wires && this.gates == gates && this.outputs == outputs
    {
      this.wires := wires;
      this.gates := gates;
      this.outputs := outputs;
    }

    /** The device seen as a circuit, under a ranking of its wires. */
    ghost function CircuitOf(rank: string -> nat, bound: nat): Circuit
      reads this
    {
      Circuit(wires, Shapes(gates), |outputs|, rank, bound)
    }

    function ValuesOf(): Values
      reads this
    {
      Values(gates, outputs)
    }

    /** `update_gate`. */
    method UpdateGate(gateId: nat, isRight: bool, value: bool, ghost rank: string -> nat, ghost bound: nat) returns (ok: bool)
      requires Valid(CircuitOf(rank, bound)) && gateId < |gates|
      modifies this
      ensures wires == old(wires)
      ensures ok <==> Update(old(CircuitOf(rank, bound)), old(ValuesOf()), gateId, isRight, value).Some?
      ensures ok ==> Update(old(CircuitOf(rank, bound)), old(ValuesOf()), gateId, isRight, value) == Some(ValuesOf())
      decreases Height(CircuitOf(rank, bound), if isRight then gates[gateId].rightId else gates[gateId].leftId), 0, 0
    {
      ghost var c := CircuitOf(rank, bound);
      ghost var before := ValuesOf();
      var gate := gates[gateId];
      if isRight {
        gate := gate.(rightValue := value);
      } else {
        gate := gate.(leftValue := value);
      }
      gates := gates[gateId := gate];
      var outValue := Op(gate.gateType, gate.leftValue, gate.rightValue);
      SetKeepsShapes(before.gates, gateId, gate);
      HeightDrops(c, gateId);
      assert CircuitOf(rank, bound) == c;
      ok := ApplyInput(gate.outId, outValue, rank, bound);
    }

    /** `apply_input`: every gate input and output bit that reads the wire
        takes the value, in the order of the wire's list. */
    method ApplyInput(wireId: string, value: bool, ghost rank: string -> nat, ghost bound: nat) returns (ok: bool)
      requires Valid(CircuitOf(rank, bound))
      modifies this
      ensures wires == old(wires)
      ensures ok <==> Apply(old(CircuitOf(rank, bound)), old(ValuesOf()), wireId, value).Some?
      ensures ok ==> Apply(old(CircuitOf(rank, bound)), old(ValuesOf()), wireId, value) == Some(ValuesOf())
      decreases Height(CircuitOf(rank, bound), wireId), 2, 0
    {
      ghost var c := CircuitOf(rank, bound);
      ghost var start := ValuesOf();
      if wireId !in wires {
        return false;
      }
      ApplyStart(c, start, wireId, value);
      hide Apply, ApplyFrom, Update, Deliver, Registered, Layered, Matches;
      var list := wires[wireId];
      var k := 0;
      ok := true;
      while k < |list|
        invariant wires == c.wires && list == c.wires[wireId] && k <= |list|
        invariant Shapes(gates) == c.shapes && |outputs| == c.outputCount
        invariant ApplyFrom(c, start, wireId, value, 0) == ApplyFrom(c, ValuesOf(), wireId, value, k)
        decreases |list| - k
      {
        ghost var here := ValuesOf();
        FitsAt(c, wireId, k);
        assert CircuitOf(rank, bound) == c;
        ApplyFromStep(c, here, wireId, value, k);
        DeliverCases(c, here, wireId, value, k);
        match list[k] {
          case GateLeft(g) =>
            ok := UpdateGate(g, false, value, rank, bound);
          case GateRight(g) =>
            ok := UpdateGate(g, true, value, rank, bound);
          case Output(i) =>
            outputs := outputs[i := value];
        }
        if !ok {
          return;
        }
        k := k + 1;
      }
      ApplyFromEnd(c, ValuesOf(), wireId, value);
    }

    /** `apply_input_wires`: each input wire's value applied in turn, in the
        order the map lists them, which is order here. */
    method ApplyInputWires(inputs: map<string, bool>, order: seq<string>, ghost rank: string -> nat, ghost bound: nat) returns (ok: bool)
      requires Valid(CircuitOf(rank, bound)) && forall x :: x in order <==> x in inputs
      modifies this
      ensures wires == old(wires)
      ensures ok <==> ApplyAll(old(CircuitOf(rank, bound)), old(ValuesOf()), inputs, order, 0).Some?
      ensures ok ==> ApplyAll(old(CircuitOf(rank, bound)), old(ValuesOf()), inputs, order, 0) == Some(ValuesOf())
    {
      ghost var c := CircuitOf(rank, bound);
      ghost var start := ValuesOf();
      var k := 0;
      ok := true;
      while k < |order|
        invariant k <= |order| && CircuitOf(rank, bound) == c
        invariant ApplyAll(c, start, inputs, order, 0) == ApplyAll(c, ValuesOf(), inputs, order, k)
      {
        ok := ApplyInput(order[k], inputs[order[k]], rank, bound);
        if !ok {
          return;
        }
        k := k + 1;
      }
    }
  }

  // ---- Parsing ----

  /** The keyword of each gate type. */
  function TypeName(t: GateType): (r: string)
    ensures ParseType(r) == Some(t)
  {
    match t
    case And => "AND"
    case Or => "OR"
    case Xor => "XOR"
  }

  /** The gate type a keyword names; None where the source's
      `unreachable!` aborts. */
  function ParseType(name: string): (r: Option<GateType>)
    ensures r.Some? <==> name == "AND" || name == "OR" || name == "XOR"
  {
    if name == "AND" then Some(And)
    else if name == "OR" then Some(Or)
    else if name == "XOR" then Some(Xor)
    else None
  }

  /** `parse_gate`: "left TYPE right -> out" split at single spaces, the
      fourth piece skipped unread; None where the source panics: fewer than
      five pieces, or a second piece that names no gate type. */
  function ParseGate(line: string): (r: Option<Gate>)
    ensures r.Some? <==> |SplitOn(line, " ")| >= 5 && ParseType(SplitOn(line, " ")[1]).Some?
    ensures r.Some? ==> !r.value.leftValue && !r.value.rightValue
  {
    var parts := SplitOn(line, " ");
    if |parts| < 5 then None
    else
      match ParseType(parts[1])
      case None => None
      case Some(t) => Some(NewGate(t, parts[0], parts[2], parts[4]))
  }

  /** A gate written as a line of the puzzle input. */
  function FormatGate(shape: Shape): string
  {
    Join([shape.leftId, TypeName(shape.gateType), shape.rightId, "->", shape.outId], " ")
  }

  /** Reading a written gate gives it back, fresh. */
  lemma ParseFormatGate(shape: Shape)
    requires ' ' !in shape.leftId && ' ' !in shape.rightId && ' ' !in shape.outId
    ensures ParseGate(FormatGate(shape)) == Some(NewGate(shape.gateType, shape.leftId, shape.rightId, shape.outId))
  {
    var pieces := [shape.leftId, TypeName(shape.gateType), shape.rightId, "->", shape.outId];
    assert forall k :: 0 <= k < |pieces| ==> ' ' !in pieces[k] by {
      assert ' ' !in TypeName(shape.gateType);
    }
    SplitOnJoin(pieces, " ");
  }

  /** `str::replace(ch, "")`: the text with every ch taken out. */
  function Without(s: string, ch: char): (r: string)
    ensures ch !in r && |r| <= |s|
    ensures forall x :: x in r <==> x in s && x != ch
  {
    if s == [] then []
    else (if s[0] == ch then [] else [s[0]]) + Without(s[1..], ch)
  }

  lemma WithoutFirst(s: string, ch: char)
    requires s != []
    ensures Without(s, ch) == (if s[0] == ch then [] else [s[0]]) + Without(s[1..], ch)
  {
  }

  /** Taking ch out works piece by piece, so the other characters keep
      their order. */
  lemma {:induction false} WithoutAppend(a: string, b: string, ch: char)
    ensures Without(a + b, ch) == Without(a, ch) + Without(b, ch)
    decreases |a|
  {
    if a == [] {
      assert a + b == b;
    } else {
      assert (a + b)[0] == a[0] && (a + b)[1..] == a[1..] + b;
      WithoutAppend(a[1..], b, ch);
      hide Without;
      WithoutFirst(a, ch);
      WithoutFirst(a + b, ch);
    }
  }

  lemma {:induction false} WithoutAbsent(s: string, ch: char)
    requires ch !in s
    ensures Without(s, ch) == s
    decreases |s|
  {
    if s != [] {
      WithoutAbsent(s[1..], ch);
    }
  }

  /** Wires whose name starts with "z" are output bits. */
  predicate IsOutputName(name: string)
  {
    |name| > 0 && name[0] == 'z'
  }

  /** The bit an output wire feeds: its name without any "z", read as a
      `usize`. */
  function OutputIndex(name: string): Option<nat>
  {
    ParseU64(Without(name, 'z'))
  }

  /** A line `parse_device` gets through: a gate, and a readable bit
      number if it writes an output wire. */
  predicate LineOk(line: string)
  {
    ParseGate(line).Some? && (IsOutputName(ParseGate(line).value.outId) ==> OutputIndex(ParseGate(line).value.outId).Some?)
  }

  /** The number of the output bit gate g's out wire feeds, if any. */
  function GateOutput(gates: seq<Gate>, g: nat): Option<nat>
    requires g < |gates|
  {
    if IsOutputName(gates[g].outId) then OutputIndex(gates[g].outId) else None
  }

  /** The largest output bit number among the gates, 0 if there is none. */
  function MaxOut(gates: seq<Gate>): (r: nat)
    ensures forall g :: 0 <= g < |gates| && GateOutput(gates, g).Some? ==> GateOutput(gates, g).value <= r
    ensures r == 0 || exists g :: 0 <= g < |gates| && GateOutput(gates, g) == Some(r)
  {
    if gates == [] then 0
    else
      var n := |gates| - 1;
      var before := MaxOut(gates[..n]);
      assert forall g :: 0 <= g < n ==> GateOutput(gates[..n], g) == GateOutput(gates, g);
      match GateOutput(gates, n)
      case None => before
      case Some(i) => if before < i then i else before
  }

  /** Entry w of wire id's list, as `parse_device` builds the lists: gate
      g's inputs, and the output bit of a "z" out wire. */
  ghost predicate Reads(gates: seq<Gate>, id: string, w: Wire)
  {
    match w
    case GateLeft(g) => g < |gates| && gates[g].leftId == id
    case GateRight(g) => g < |gates| && gates[g].rightId == id
    case Output(i) => exists g :: 0 <= g < |gates| && gates[g].outId == id && GateOutput(gates, g) == Some(i)
  }

  lemma ReadsStep(gates: seq<Gate>, gate: Gate, id: string, w: Wire)
    ensures Reads(gates + [gate], id, w) <==>
      (Reads(gates, id, w) || (w == GateLeft(|gates|) && id == gate.leftId) || (w == GateRight(|gates|) && id == gate.rightId)
       || (w.Output? && id == gate.outId && GateOutput(gates + [gate], |gates|) == Some(w.index)))
  {
    assert forall g :: 0 <= g < |gates| ==> GateOutput(gates + [gate], g) == GateOutput(gates, g);
    if w.Output? && Reads(gates + [gate], id, w) {
      var g :| 0 <= g < |gates + [gate]| && (gates + [gate])[g].outId == id && GateOutput(gates + [gate], g) == Some(w.index);
      if g < |gates| {
        assert Reads(gates, id, w);
      }
    }
  }

  /** `entry(id).or_default().push(w)`. */
  function Push(wires: Wires, id: string, w: Wire): (r: Wires)
    ensures forall x, v :: (x in r && v in r[x]) <==> (x in wires && v in wires[x]) || (x == id && v == w)
    ensures forall x :: x in r <==> x in wires || x == id
    ensures forall x :: x in wires && x != id ==> r[x] == wires[x]
  {
    wires[id := (if id in wires then wires[id] else []) + [w]]
  }

  /** Each wire in the map lists exactly what reads it, and no list is
      empty. */
  ghost predicate Listing(wires: Wires, gates: seq<Gate>)
  {
    (forall id, w :: (id in wires && w in wires[id]) <==> Reads(gates, id, w))
    && forall id :: id in wires ==> wires[id] != []
  }

  /** The loop body of `parse_device` for gate id: it goes on the lists of
      its two input wires, and its output bit, if any, on its out wire. */
  function Register(wires: Wires, gate: Gate, id: nat, output: Option<nat>): Wires
  {
    var inputs := Push(Push(wires, gate.leftId, GateLeft(id)), gate.rightId, GateRight(id));
    if output.Some? then Push(inputs, gate.outId, Output(output.value)) else inputs
  }

  lemma RegisterListing(wires: Wires, gates: seq<Gate>, gate: Gate, output: Option<nat>)
    requires Listing(wires, gates) && output == GateOutput(gates + [gate], |gates|)
    ensures Listing(Register(wires, gate, |gates|, output), gates + [gate])
  {
    forall x, w
      ensures Reads(gates + [gate], x, w) <==>
        (Reads(gates, x, w) || (w == GateLeft(|gates|) && x == gate.leftId) || (w == GateRight(|gates|) && x == gate.rightId)
         || (w.Output? && x == gate.outId && GateOutput(gates + [gate], |gates|) == Some(w.index)))
    {
      ReadsStep(gates, gate, x, w);
    }
  }

  lemma MaxOutStep(gates: seq<Gate>, gate: Gate)
    ensures MaxOut(gates + [gate]) == match GateOutput(gates + [gate], |gates|)
      case None => MaxOut(gates)
      case Some(i) => if MaxOut(gates) < i then i else MaxOut(gates)
  {
    assert (gates + [gate])[..|gates|] == gates;
  }

  lemma GateOutputLast(gates: seq<Gate>, gate: Gate)
    ensures GateOutput(gates + [gate], |gates|) == if IsOutputName(gate.outId) then OutputIndex(gate.outId) else None
  {
  }

  /** Gate j was read from line j, and that line went through. */
  ghost predicate ReadAll(lines: seq<string>, gates: seq<Gate>)
  {
    |gates| <= |lines| && forall j :: 0 <= j < |gates| ==> LineOk(lines[j]) && ParseGate(lines[j]) == Some(gates[j])
  }

  lemma ReadAllStart(lines: seq<string>)
    ensures ReadAll(lines, [])
  {
  }

  lemma ReadAllStep(lines: seq<string>, gates: seq<Gate>, gate: Gate)
    requires ReadAll(lines, gates) && |gates| < |lines| && LineOk(lines[|gates|]) && ParseGate(lines[|gates|]) == Some(gate)
    ensures ReadAll(lines, gates + [gate])
  {
  }

  lemma DescribesIntro(lines: seq<string>, wires: Wires, gates: seq<Gate>, outputs: seq<bool>)
    requires ReadAll(lines, gates) && |gates| == |lines| && Listing(wires, gates)
    requires |outputs| == MaxOut(gates) + 1 && forall i :: 0 <= i < |outputs| ==> !outputs[i]
    ensures Describes(lines, wires, gates, outputs)
    ensures forall k :: 0 <= k < |lines| ==> LineOk(lines[k])
  {
  }

  lemma ListingEmpty()
    ensures Listing(map[], []) && MaxOut([]) == 0
  {
  }

  lemma LineOkMeans(line: string)
    ensures LineOk(line) <==> ParseGate(line).Some? && (IsOutputName(ParseGate(line).value.outId) ==> OutputIndex(ParseGate(line).value.outId).Some?)
  {
  }

  /** What `parse_device` builds from the lines: gate k from line k, each
      wire listing exactly what reads it, and one false output bit for
      each number up to the largest. */
  ghost predicate Describes(lines: seq<string>, wires: Wires, gates: seq<Gate>, outputs: seq<bool>)
  {
    |gates| == |lines| && (forall k :: 0 <= k < |lines| ==> ParseGate(lines[k]) == Some(gates[k]))
    && Listing(wires, gates)
    && |outputs| == MaxOut(gates) + 1 && (forall i :: 0 <= i < |outputs| ==> !outputs[i])
  }

  /** `parse_device`; None where the source panics on a line. */
  method ParseDevice(input: string) returns (device: Option<MonitoringDevice>)
    ensures device.None? <==> exists k :: 0 <= k < |Lines(input)| && !LineOk(Lines(input)[k])
    ensures device.Some? ==> Describes(Lines(input), device.value.wires, device.value.gates, device.value.outputs)
  {
    hide *;
    var lines := Lines(input);
    var wires: Wires := map[];
    var gates: seq<Gate> := [];
    var maxOut := 0;
    ListingEmpty();
    ReadAllStart(lines);
    var k := 0;
    while k < |lines|
      invariant k <= |lines| && |gates| == k
      invariant ReadAll(lines, gates)
      invariant Listing(wires, gates)
      invariant maxOut == MaxOut(gates)
    {
      var parsed := ParseGate(lines[k]);
      if parsed.None? {
        LineOkMeans(lines[k]);
        return None;
      }
      var gate := parsed.value;
      var output := None;
      if IsOutputName(gate.outId) {
        output := OutputIndex(gate.outId);
        if output.None? {
          LineOkMeans(lines[k]);
          return None;
        }
      }
      LineOkMeans(lines[k]);
      GateOutputLast(gates, gate);
      ReadAllStep(lines, gates, gate);
      RegisterListing(wires, gates, gate, output);
      MaxOutStep(gates, gate);
      wires := Register(wires, gate, |gates|, output);
      if output.Some? && maxOut < output.value {
        maxOut := output.value;
      }
      gates := gates + [gate];
      k := k + 1;
    }
    var built := new MonitoringDevice(wires, gates, seq(maxOut + 1, _ => false));
    device := Some(built);
    DescribesIntro(lines, wires, gates, built.outputs);
  }

  /** A parsed device is a registered, complete and fresh circuit, under
      any ranking of its wires. */
  lemma DescribedCircuit(lines: seq<string>, wires: Wires, gates: seq<Gate>, outputs: seq<bool>, rank: string -> nat, bound: nat)
    requires Describes(lines, wires, gates, outputs)
    ensures var c := Circuit(wires, Shapes(gates), |outputs|, rank, bound);
      Registered(c) && Complete(c) && Matches(c, Values(gates, outputs)) && AllFalse(Values(gates, outputs))
  {
    var c := Circuit(wires, Shapes(gates), |outputs|, rank, bound);
    forall id, k | id in wires && 0 <= k < |wires[id]|
      ensures Fits(c, id, wires[id][k])
    {
      assert Reads(gates, id, wires[id][k]);
    }
    forall g | 0 <= g < |gates|
      ensures Reads(gates, gates[g].leftId, GateLeft(g)) && Reads(gates, gates[g].rightId, GateRight(g))
      ensures !gates[g].leftValue && !gates[g].rightValue
    {
      assert ParseGate(lines[g]) == Some(gates[g]);
    }
  }

  /** Parsing and then applying the input wires computes the circuit: each
      output bit holds the formula value of the "z" wire that feeds it,
      provided no two gates write one wire, no two "z" wires name one bit,
      the gates admit a ranking with inputs below outputs, and no input
      wire is written by a gate. */
  lemma ParsedOutcome(lines: seq<string>, wires: Wires, gates: seq<Gate>, outputs: seq<bool>, c: Circuit,
                      inputs: map<string, bool>, order: seq<string>)
    requires Describes(lines, wires, gates, outputs)
    requires c.wires == wires && c.shapes == Shapes(gates) && c.outputCount == |outputs|
    requires Layered(c) && SingleDriver(c) && OutputsOnce(c) && (forall x :: x in inputs ==> !Driven(c, x))
    requires forall x :: x in order <==> x in inputs
    requires Valid(c) && ApplyAll(c, Values(gates, outputs), inputs, order, 0).Some?
    ensures var r := ApplyAll(c, Values(gates, outputs), inputs, order, 0).value;
      forall u, i: nat :: u in wires && Output(i) in wires[u] ==> i < |r.outputs| && r.outputs[i] == Eval(c, inputs, u)
  {
    DescribedCircuit(lines, wires, gates, outputs, c.rank, c.bound);
    assert c == Circuit(wires, Shapes(gates), |outputs|, c.rank, c.bound);
    Outcome(c, Values(gates, outputs), inputs, order);
  }

  /** One line of the input wire section: its name and whether the value
      is anything but "0"; None where `split_once(": ")` finds no
      separator and the source panics. */
  function InputLine(line: string): Option<(string, bool)>
  {
    match SplitOnce(line, ": ")
    case None => None
    case Some((id, value)) => Some((id, value != "0"))
  }

  /** Every input wire line read; None if one of them does not read. */
  function InputPairs(lines: seq<string>): (r: Option<seq<(string, bool)>>)
    ensures r.Some? <==> forall k :: 0 <= k < |lines| ==> InputLine(lines[k]).Some?
    ensures r.Some? ==> |r.value| == |lines| && forall k :: 0 <= k < |lines| ==> r.value[k] == InputLine(lines[k]).value
  {
    if forall k :: 0 <= k < |lines| ==> InputLine(lines[k]).Some? then
      Some(seq(|lines|, k requires 0 <= k < |lines| => InputLine(lines[k]).value))
    else None
  }

  /** `collect` into a `HashMap`: a later pair for a name replaces an
      earlier one. */
  function Collect(pairs: seq<(string, bool)>): map<string, bool>
  {
    if pairs == [] then map[]
    else Collect(pairs[..|pairs| - 1])[pairs[|pairs| - 1].0 := pairs[|pairs| - 1].1]
  }

  /** `parse_input_wires`. */
  function ParseInputWires(text: string): (r: Option<map<string, bool>>)
    ensures r.Some? <==> forall k :: 0 <= k < |Lines(text)| ==> SplitOnce(Lines(text)[k], ": ").Some?
  {
    match InputPairs(Lines(text))
    case None => None
    case Some(pairs) => Some(Collect(pairs))
  }

  /** Pair k is the last pair for name id. */
  ghost predicate LastFor(pairs: seq<(string, bool)>, k: int, id: string)
  {
    0 <= k < |pairs| && pairs[k].0 == id && forall j :: k < j < |pairs| ==> pairs[j].0 != id
  }

  /** The map holds exactly the names of the pairs. */
  lemma {:induction false} CollectNames(pairs: seq<(string, bool)>)
    ensures forall id :: id in Collect(pairs) <==> exists k :: 0 <= k < |pairs| && pairs[k].0 == id
    decreases |pairs|
  {
    if pairs != [] {
      var n := |pairs| - 1;
      var front := pairs[..n];
      CollectNames(front);
      assert forall k :: 0 <= k < n ==> front[k] == pairs[k];
    }
  }

  /** Each name has the value of its last pair. */
  lemma {:induction false} CollectLast(pairs: seq<(string, bool)>)
    ensures forall id :: id in Collect(pairs) ==> exists k :: LastFor(pairs, k, id) && Collect(pairs)[id] == pairs[k].1
    decreases |pairs|
  {
    if pairs != [] {
      var n := |pairs| - 1;
      var front := pairs[..n];
      CollectLast(front);
      var m := Collect(front);
      assert forall k :: 0 <= k < n ==> front[k] == pairs[k];
      forall id | id in m || id == pairs[n].0
        ensures exists k :: LastFor(pairs, k, id) && m[pairs[n].0 := pairs[n].1][id] == pairs[k].1
      {
        if id == pairs[n].0 {
          assert LastFor(pairs, n, id);
        } else {
          var k :| LastFor(front, k, id) && m[id] == front[k].1;
          assert LastFor(pairs, k, id);
        }
      }
    }
  }

  /** `parse_input`: the wire values before the first blank line and the
      device after it; None where the source panics. */
  method ParseInput(input: string) returns (r: Option<(map<string, bool>, MonitoringDevice)>)
    ensures r.None? <==> (SplitOnce(input, "\n\n").None?
      || ParseInputWires(SplitOnce(input, "\n\n").value.0).None?
      || exists k :: 0 <= k < |Lines(SplitOnce(input, "\n\n").value.1)| && !LineOk(Lines(SplitOnce(input, "\n\n").value.1)[k]))
    ensures r.Some? ==> r.value.0 == ParseInputWires(SplitOnce(input, "\n\n").value.0).value
    ensures r.Some? ==> var device := r.value.1;
      Describes(Lines(SplitOnce(input, "\n\n").value.1), device.wires, device.gates, device.outputs)
  {
    var halves := SplitOnce(input, "\n\n");
    if halves.None? {
      return None;
    }
    var (wiresText, deviceText) := halves.value;
    var inputs := ParseInputWires(wiresText);
    if inputs.None? {
      return None;
    }
    var device := ParseDevice(deviceText);
    if device.None? {
      return None;
    }
    r := Some((inputs.value, device.value));
  }
}
