/**
 * The low-level IR of `src/ir/low/mod.rs`: numbered registers of two classes, the machine
 * registers of the calling convention, and instructions that work on an operand stack kept on
 * the machine stack or in the frame. The compilers that emit it pass `NewArray` the register
 * holding the length and pass call arguments as `Variable`s (the declaration's
 * `CallArgumentSource`); the datatype takes those forms.
 *
 * The data-moving and integer instructions get a meaning on a `StackMachine`; the float
 * arithmetic is a parameter, since float semantics are outside the model. Every other
 * instruction (calls, checks, heap access, branches) has no meaning here.
 */
module LowIr {
  import opened Wrappers
  import opened Scalars
  import opened TypeIds
  import opened Program
  import opened StackMachines

  /** `HardwareRegister`: numbered registers of the integer and the float class. */
  datatype HardwareRegister = Int(index: nat) | Float(index: nat)

  /** `JumpCondition`. */
  datatype JumpCondition = Equal | NotEqual | LessThan | LessThanOrEqual | GreaterThan | GreaterThanOrEqual

  /** Where a call argument comes from: a register, the operand stack, or a frame slot. */
  datatype Variable = Register(register: HardwareRegister) | OperandStack | Memory(offset: int)

  datatype InstructionIR =
    | Marker(index: nat)
    | InitializeFunction
    | LoadInt32(value: I32)
    | LoadZeroToRegister(register: HardwareRegister)
    | AddToStackPointer(amount: int)
    | SubFromStackPointer(amount: int)
    | PushOperand(register: HardwareRegister)
    | PopOperand(register: HardwareRegister)
    | PushNormal(register: HardwareRegister)
    | PopNormal(register: HardwareRegister)
    | PushOperandExplicit(explicit: MachineRegister)
    | PopOperandExplicit(explicit: MachineRegister)
    | PushNormalExplicit(explicit: MachineRegister)
    | PopNormalExplicit(explicit: MachineRegister)
    | LoadMemory(register: HardwareRegister, offset: int)
    | StoreMemory(offset: int, register: HardwareRegister)
    | LoadMemoryExplicit(explicit: MachineRegister, offset: int)
    | StoreMemoryExplicit(offset: int, explicit: MachineRegister)
    | MoveImplicitToExplicit(explicit: MachineRegister, register: HardwareRegister)
    | AddInt32(destination: HardwareRegister, source: HardwareRegister)
    | SubInt32(destination: HardwareRegister, source: HardwareRegister)
    | AddFloat32(destination: HardwareRegister, source: HardwareRegister)
    | SubFloat32(destination: HardwareRegister, source: HardwareRegister)
    | MoveInt32ToMemory(offset: int, value: I32)
    | Call(signature: Signature, arguments: seq<Variable>)
    | Return
    | NullReferenceCheck(register: HardwareRegister)
    | ArrayBoundsCheck(arrayRef: HardwareRegister, arrayIndex: HardwareRegister)
    | NewArray(element: TypeId, length: HardwareRegister)
    | LoadElement(element: TypeId, arrayRef: HardwareRegister, arrayIndex: HardwareRegister)
    | StoreElement(element: TypeId, arrayRef: HardwareRegister, arrayIndex: HardwareRegister, source: HardwareRegister)
    | LoadArrayLength(arrayRef: HardwareRegister)
    | BranchLabel(labelIndex: nat)
    | Branch(labelIndex: nat)
    | BranchCondition(condition: JumpCondition, compareType: TypeId, labelIndex: nat, left: HardwareRegister, right: HardwareRegister)

  type LowMachine = StackMachine<HardwareRegister>

  /** What the float instructions compute, on bit patterns held as integers. */
  datatype FloatOps = FloatOps(add: (int, int) -> int, sub: (int, int) -> int)

  /**
   * One instruction. Markers, labels, the function entry and stack-pointer adjustments change
   * nothing the machine models; a pop of an empty operand stack is `None`, as is every
   * instruction without a meaning here.
   */
  function Effect(m: LowMachine, i: InstructionIR, float: FloatOps): Option<LowMachine> {
    match i
    case Marker(_) => Some(m)
    case BranchLabel(_) => Some(m)
    case InitializeFunction => Some(m)
    case SubFromStackPointer(_) => Some(m)
    case AddToStackPointer(_) => Some(m)
    case LoadInt32(v) => Some(m.Push(v))
    case LoadZeroToRegister(r) => Some(m.SetRegister(r, 0))
    case PushOperand(r) => Some(m.Push(m.Register(r)))
    case PushOperandExplicit(e) => Some(m.Push(m.Explicit(e)))
    case PopOperand(r) => if |m.operands| == 0 then None else Some(m.Dropped().SetRegister(r, m.Top()))
    case PopOperandExplicit(e) => if |m.operands| == 0 then None else Some(m.Dropped().SetExplicit(e, m.Top()))
    case LoadMemory(r, offset) => Some(m.SetRegister(r, m.Memory(offset)))
    case StoreMemory(offset, r) => Some(m.SetMemory(offset, m.Register(r)))
    case LoadMemoryExplicit(e, offset) => Some(m.SetExplicit(e, m.Memory(offset)))
    case StoreMemoryExplicit(offset, e) => Some(m.SetMemory(offset, m.Explicit(e)))
    case MoveInt32ToMemory(offset, v) => Some(m.SetMemory(offset, v))
    case MoveImplicitToExplicit(e, r) => Some(m.SetExplicit(e, m.Register(r)))
    case AddInt32(d, s) => Some(m.SetRegister(d, WrapI32(m.Register(d) + m.Register(s))))
    case SubInt32(d, s) => Some(m.SetRegister(d, WrapI32(m.Register(d) - m.Register(s))))
    case AddFloat32(d, s) => Some(m.SetRegister(d, float.add(m.Register(d), m.Register(s))))
    case SubFloat32(d, s) => Some(m.SetRegister(d, float.sub(m.Register(d), m.Register(s))))
    case _ => None
  }

  function Run(m: LowMachine, code: seq<InstructionIR>, float: FloatOps): Option<LowMachine>
    decreases |code|
  {
    if |code| == 0 then Some(m)
    else match Effect(m, code[0], float)
      case None => None
      case Some(next) => Run(next, code[1..], float)
  }

  /** Running two pieces of code one after the other is running their concatenation. */
  lemma {:induction false} RunAppend(m: LowMachine, a: seq<InstructionIR>, b: seq<InstructionIR>, float: FloatOps)
    ensures Run(m, a + b, float) == match Run(m, a, float) case None => None case Some(n) => Run(n, b, float)
    decreases |a|
  {
    if |a| == 0 {
      assert a + b == b;
    } else {
      assert (a + b)[0] == a[0] && (a + b)[1..] == a[1..] + b;
      match Effect(m, a[0], float)
      case None =>
      case Some(next) => RunAppend(next, a[1..], b, float);
    }
  }

  /** One instruction followed by more code. */
  lemma RunCons(m: LowMachine, i: InstructionIR, rest: seq<InstructionIR>, float: FloatOps)
    ensures Run(m, [i] + rest, float) == match Effect(m, i, float) case None => None case Some(n) => Run(n, rest, float)
  {
    assert ([i] + rest)[0] == i && ([i] + rest)[1..] == rest;
  }

  /** A pop at the head of the code moves the top of the operand stack into the register. */
  lemma RunPopOperand(m: LowMachine, r: HardwareRegister, rest: seq<InstructionIR>, float: FloatOps)
    requires |m.operands| > 0
    ensures Run(m, [PopOperand(r)] + rest, float) == Run(m.Dropped().SetRegister(r, m.Top()), rest, float)
  {
    RunCons(m, PopOperand(r), rest, float);
  }

  /** A push at the head of the code puts the register's value on the operand stack. */
  lemma RunPushOperand(m: LowMachine, r: HardwareRegister, rest: seq<InstructionIR>, float: FloatOps)
    ensures Run(m, [PushOperand(r)] + rest, float) == Run(m.Push(m.Register(r)), rest, float)
  {
    RunCons(m, PushOperand(r), rest, float);
  }

  /**
   * Code runs through a given sequence of machines when each instruction takes each machine to
   * the next.
   */
  lemma {:induction false} RunThrough(code: seq<InstructionIR>, states: seq<LowMachine>, float: FloatOps)
    requires |states| == |code| + 1
    requires forall k :: 0 <= k < |code| ==> Effect(states[k], code[k], float) == Some(states[k + 1])
    ensures Run(states[0], code, float) == Some(states[|code|])
    decreases |code|
  {
    if |code| > 0 {
      RunThrough(code[1..], states[1..], float);
    }
  }

  /**
   * The code ran and, of everything the machine models besides its registers, changed only the
   * frame slot `slot`, to `value`.
   */
  ghost predicate StoresOnly(m: LowMachine, r: Option<LowMachine>, slot: int, value: int) {
    && r.Some?
    && r.value.Memory(slot) == value
    && (forall o :: o != slot ==> r.value.Memory(o) == m.Memory(o))
    && r.value.explicit == m.explicit && r.value.operands == m.operands
  }

  /** The addition or subtraction instruction of a register class. */
  function Operation(first: HardwareRegister, second: HardwareRegister, add: bool, isFloat: bool): InstructionIR {
    if isFloat then (if add then AddFloat32(first, second) else SubFloat32(first, second))
    else if add then AddInt32(first, second) else SubInt32(first, second)
  }

  /** What that instruction computes from its two operands. */
  function OperationResult(add: bool, isFloat: bool, float: FloatOps, a: int, b: int): int {
    if isFloat then (if add then float.add(a, b) else float.sub(a, b))
    else WrapI32(if add then a + b else a - b)
  }

  /** The operation leaves its result in the first register and changes nothing else. */
  lemma OperationEffect(m: LowMachine, first: HardwareRegister, second: HardwareRegister, add: bool, isFloat: bool, float: FloatOps)
    ensures Effect(m, Operation(first, second, add, isFloat), float)
            == Some(m.SetRegister(first, OperationResult(add, isFloat, float, m.Register(first), m.Register(second))))
  {
    var a, b := m.Register(first), m.Register(second);
    if isFloat && add {
      assert Effect(m, AddFloat32(first, second), float) == Some(m.SetRegister(first, float.add(a, b)));
    } else if isFloat {
      assert Effect(m, SubFloat32(first, second), float) == Some(m.SetRegister(first, float.sub(a, b)));
    } else if add {
      assert Effect(m, AddInt32(first, second), float) == Some(m.SetRegister(first, WrapI32(a + b)));
    } else {
      assert Effect(m, SubInt32(first, second), float) == Some(m.SetRegister(first, WrapI32(a - b)));
    }
  }

  /**
   * Loading two slots into two distinct registers, combining them into the first and storing it
   * into a third slot changes that slot, to the combination, and no other slot or the operand stack.
   */
  lemma RunLoadOperateStore(m: LowMachine, first: HardwareRegister, second: HardwareRegister,
                            x: int, y: int, z: int, add: bool, isFloat: bool, float: FloatOps)
    requires first != second
    ensures StoresOnly(m, Run(m, [LoadMemory(first, x), LoadMemory(second, y), Operation(first, second, add, isFloat), StoreMemory(z, first)], float),
                       z, OperationResult(add, isFloat, float, m.Memory(x), m.Memory(y)))
  {
    var combined := OperationResult(add, isFloat, float, m.Memory(x), m.Memory(y));
    var m1 := m.SetRegister(first, m.Memory(x));
    var m2 := m1.SetRegister(second, m.Memory(y));
    assert m2.Register(first) == m.Memory(x) && m2.Register(second) == m.Memory(y);
    var m3 := m2.SetRegister(first, combined);
    var m4 := m3.SetMemory(z, combined);
    var code := [LoadMemory(first, x), LoadMemory(second, y), Operation(first, second, add, isFloat), StoreMemory(z, first)];
    var states := [m, m1, m2, m3, m4];
    assert Effect(states[0], code[0], float) == Some(states[1]);
    assert Effect(states[1], code[1], float) == Some(states[2]);
    OperationEffect(m2, first, second, add, isFloat, float);
    assert Effect(states[3], code[3], float) == Some(states[4]);
    RunThrough(code, states, float);
  }

  /** Loading a slot into a register and storing it into another slot copies the value. */
  lemma RunLoadStore(m: LowMachine, r: HardwareRegister, x: int, z: int, float: FloatOps)
    ensures StoresOnly(m, Run(m, [LoadMemory(r, x), StoreMemory(z, r)], float), z, m.Memory(x))
  {
    var m1 := m.SetRegister(r, m.Memory(x));
    var m2 := m1.SetMemory(z, m.Memory(x));
    var code := [LoadMemory(r, x), StoreMemory(z, r)];
    assert Effect(m, code[0], float) == Some(m1);
    assert Effect(m1, code[1], float) == Some(m2);
    RunThrough(code, [m, m1, m2], float);
  }

  /** Storing a constant into a slot. */
  lemma RunMoveConstant(m: LowMachine, z: int, v: I32, float: FloatOps)
    ensures StoresOnly(m, Run(m, [MoveInt32ToMemory(z, v)], float), z, v)
  {
    var code := [MoveInt32ToMemory(z, v)];
    assert Effect(m, code[0], float) == Some(m.SetMemory(z, v));
    RunThrough(code, [m, m.SetMemory(z, v)], float);
  }

  /** Loading a slot into a register. */
  lemma RunLoadOne(m: LowMachine, r: HardwareRegister, x: int, float: FloatOps)
    ensures var n := Run(m, [LoadMemory(r, x)], float);
      n.Some? && n.value.Register(r) == m.Memory(x)
  {
    var code := [LoadMemory(r, x)];
    assert Effect(m, code[0], float) == Some(m.SetRegister(r, m.Memory(x)));
    RunThrough(code, [m, m.SetRegister(r, m.Memory(x))], float);
  }

  /** Loading two slots into two distinct registers. */
  lemma RunLoadTwo(m: LowMachine, r1: HardwareRegister, x1: int, r2: HardwareRegister, x2: int, float: FloatOps)
    requires r1 != r2
    ensures var n := Run(m, [LoadMemory(r1, x1), LoadMemory(r2, x2)], float);
      n.Some? && n.value.Register(r1) == m.Memory(x1) && n.value.Register(r2) == m.Memory(x2)
  {
    var m1 := m.SetRegister(r1, m.Memory(x1));
    var m2 := m1.SetRegister(r2, m.Memory(x2));
    assert m2.Register(r1) == m.Memory(x1);
    var code := [LoadMemory(r1, x1), LoadMemory(r2, x2)];
    assert Effect(m, code[0], float) == Some(m1);
    assert Effect(m1, code[1], float) == Some(m2);
    RunThrough(code, [m, m1, m2], float);
  }

  /** Loading three slots into three distinct registers. */
  lemma RunLoadThree(m: LowMachine, r1: HardwareRegister, x1: int, r2: HardwareRegister, x2: int, r3: HardwareRegister, x3: int, float: FloatOps)
    requires r1 != r2 && r1 != r3 && r2 != r3
    ensures var n := Run(m, [LoadMemory(r1, x1), LoadMemory(r2, x2), LoadMemory(r3, x3)], float);
      n.Some? && n.value.Register(r1) == m.Memory(x1) && n.value.Register(r2) == m.Memory(x2) && n.value.Register(r3) == m.Memory(x3)
  {
    var m1 := m.SetRegister(r1, m.Memory(x1));
    RunLoadTwo(m1, r2, x2, r3, x3, float);
    RunCons(m, LoadMemory(r1, x1), [LoadMemory(r2, x2), LoadMemory(r3, x3)], float);
    assert [LoadMemory(r1, x1)] + [LoadMemory(r2, x2), LoadMemory(r3, x3)] == [LoadMemory(r1, x1), LoadMemory(r2, x2), LoadMemory(r3, x3)];
    var n := Run(m1, [LoadMemory(r2, x2), LoadMemory(r3, x3)], float).value;
    assert n.Register(r1) == m.Memory(x1) by {
      var m2 := m1.SetRegister(r2, m.Memory(x2));
      RunThrough([LoadMemory(r2, x2), LoadMemory(r3, x3)], [m1, m2, m2.SetRegister(r3, m.Memory(x3))], float);
    }
  }
}
