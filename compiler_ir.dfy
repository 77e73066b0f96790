/**
 * The register-level IR that the lowering compilers emit: hardware registers (allocatable ones
 * of two classes and one spill register per class), the machine registers of the calling
 * convention, variables (a hardware register, a machine register or a frame slot), the IR
 * instructions, and the `Variable` move helpers that append to an instruction list.
 *
 * The move helpers are given a meaning through a small machine: registers of both kinds, the
 * frame slots and the operand stack. Each helper's code is proved to move the variable's value
 * to the destination and to change nothing else except, for frame-to-frame copies, the integer
 * spill register that carries the value.
 */
module CompilerIr {
  import opened Wrappers
  import opened Scalars
  import opened TypeIds
  import opened Program

  /** `HardwareRegister`: numbered allocatable registers of each class and one spill register per class. */
  datatype HardwareRegister = Int(index: nat) | IntSpill | Float(index: nat) | FloatSpill

  /** The position of a variant in the declaration, which the derived order compares first. */
  function VariantRank(r: HardwareRegister): nat {
    match r
    case Int(_) => 0
    case IntSpill => 1
    case Float(_) => 2
    case FloatSpill => 3
  }

  /** The derived `Ord`: by variant, then by index. */
  predicate HardwareLess(a: HardwareRegister, b: HardwareRegister) {
    if VariantRank(a) != VariantRank(b) then VariantRank(a) < VariantRank(b)
    else (a.Int? && a.index < b.index) || (a.Float? && a.index < b.index)
  }

  /** The derived order is a strict total order. */
  lemma HardwareOrder(a: HardwareRegister, b: HardwareRegister, c: HardwareRegister)
    ensures !HardwareLess(a, a)
    ensures HardwareLess(a, b) && HardwareLess(b, c) ==> HardwareLess(a, c)
    ensures a != b ==> HardwareLess(a, b) || HardwareLess(b, a)
    ensures HardwareLess(a, b) ==> !HardwareLess(b, a)
  {
  }

  /** Every integer register comes before the integer spill register, which comes before every float register. */
  lemma HardwareClassesOrdered(i: nat, j: nat)
    ensures HardwareLess(Int(i), IntSpill) && HardwareLess(IntSpill, Float(j)) && HardwareLess(Float(j), FloatSpill)
    ensures HardwareLess(Int(i), Int(j)) <==> i < j
  {
  }

  /** The machine registers the calling convention names (`HardwareRegisterExplicit`). */
  datatype MachineRegister = RAX | EAX | RDI | RSI | RDX | RCX | R8 | R9 | XMM0 | XMM1 | XMM2 | XMM3 | XMM4 | XMM5 | XMM6 | XMM7

  /** Where a value lives: an allocated register, a machine register, or a frame slot at an offset from the frame base. */
  datatype Variable = Register(register: HardwareRegister) | RegisterExplicit(explicit: MachineRegister) | FrameMemory(offset: int)

  type Label = nat

  /** `InstructionIR`. Frame offsets and immediates are 32-bit in the source; offsets are unbounded here. */
  datatype InstructionIR =
    | Marker(index: nat, position: nat)
    | InitializeFunction
    | LoadZeroToRegister(register: HardwareRegister)
    | AddToStackPointer(amount: int)
    | SubFromStackPointer(amount: int)
    | Push(register: HardwareRegister)
    | Pop(register: HardwareRegister)
    | PushExplicit(explicit: MachineRegister)
    | PopExplicit(explicit: MachineRegister)
    | PopEmpty
    | PushInt32(value: I32)
    | LoadFrameMemory(register: HardwareRegister, offset: int)
    | StoreFrameMemory(offset: int, register: HardwareRegister)
    | LoadFrameMemoryExplicit(explicit: MachineRegister, offset: int)
    | StoreFrameMemoryExplicit(offset: int, explicit: MachineRegister)
    | Move(destination: HardwareRegister, source: HardwareRegister)
    | MoveExplicit(explicitDestination: MachineRegister, explicitSource: MachineRegister)
    | MoveImplicitToExplicit(explicitDestination: MachineRegister, source: HardwareRegister)
    | MoveExplicitToImplicit(destination: HardwareRegister, explicitSource: MachineRegister)
    | MoveInt32ToFrameMemory(offset: int, value: I32)
    | MoveInt32ToRegister(register: HardwareRegister, value: I32)
    | AddInt32(destination: HardwareRegister, source: HardwareRegister)
    | AddInt32FromFrameMemory(destination: HardwareRegister, offset: int)
    | AddInt32ToFrameMemory(offset: int, source: HardwareRegister)
    | AddInt32Constant(destination: HardwareRegister, value: I32)
    | AddInt32ConstantToFrameMemory(offset: int, value: I32)
    | SubInt32(destination: HardwareRegister, source: HardwareRegister)
    | SubInt32FromFrameMemory(destination: HardwareRegister, offset: int)
    | SubInt32ToFrameMemory(offset: int, source: HardwareRegister)
    | SubInt32Constant(destination: HardwareRegister, value: I32)
    | SubInt32ConstantToFrameMemory(offset: int, value: I32)
    | MultiplyInt32(destination: HardwareRegister, source: HardwareRegister)
    | MultiplyInt32FromFrameMemory(destination: HardwareRegister, offset: int)
    | DivideInt32(destination: HardwareRegister, source: HardwareRegister)
    | DivideInt32FromFrameMemory(destination: HardwareRegister, offset: int)
    | AndInt32(destination: HardwareRegister, source: HardwareRegister)
    | AndInt32FromFrameMemory(destination: HardwareRegister, offset: int)
    | AndInt32ToFrameMemory(offset: int, source: HardwareRegister)
    | AndInt32Constant(destination: HardwareRegister, value: I32)
    | AndInt32ConstantToFrameMemory(offset: int, value: I32)
    | OrInt32(destination: HardwareRegister, source: HardwareRegister)
    | OrInt32FromFrameMemory(destination: HardwareRegister, offset: int)
    | OrInt32ToFrameMemory(offset: int, source: HardwareRegister)
    | OrInt32Constant(destination: HardwareRegister, value: I32)
    | OrInt32ConstantToFrameMemory(offset: int, value: I32)
    | NotInt32(register: HardwareRegister)
    | NotInt32FrameMemory(offset: int)
    | AddFloat32(destination: HardwareRegister, source: HardwareRegister)
    | AddFloat32FromFrameMemory(destination: HardwareRegister, offset: int)
    | SubFloat32(destination: HardwareRegister, source: HardwareRegister)
    | SubFloat32FromFrameMemory(destination: HardwareRegister, offset: int)
    | MultiplyFloat32(destination: HardwareRegister, source: HardwareRegister)
    | MultiplyFloat32FromFrameMemory(destination: HardwareRegister, offset: int)
    | DivideFloat32(destination: HardwareRegister, source: HardwareRegister)
    | DivideFloat32FromFrameMemory(destination: HardwareRegister, offset: int)
    | Call(signature: Signature, arguments: seq<Variable>, index: nat)
    | Return
    | NullReferenceCheck(register: HardwareRegister)
    | ArrayBoundsCheck(arrayRef: HardwareRegister, arrayIndex: HardwareRegister)
    | NewArray(element: TypeId, length: HardwareRegister, index: nat)
    | LoadElement(element: TypeId, destination: HardwareRegister, arrayRef: HardwareRegister, arrayIndex: HardwareRegister)
    | StoreElement(element: TypeId, arrayRef: HardwareRegister, arrayIndex: HardwareRegister, source: HardwareRegister)
    | LoadArrayLength(destination: HardwareRegister, arrayRef: HardwareRegister)
    | NewObject(classType: TypeId)
    | LoadField(fieldType: TypeId, fieldOffset: nat, destination: HardwareRegister, instance: HardwareRegister)
    | StoreField(fieldType: TypeId, fieldOffset: nat, instance: HardwareRegister, source: HardwareRegister)
    | Compare(compareType: TypeId, left: HardwareRegister, right: HardwareRegister)
    | CompareFromFrameMemory(compareType: TypeId, left: HardwareRegister, offset: int)
    | CompareToFrameMemory(compareType: TypeId, offset: int, right: HardwareRegister)
    | BranchLabel(target: Label)
    | Branch(target: Label)
    | BranchCondition(condition: Condition, signed: bool, target: Label)
    | CompareResult(condition: Condition, signed: bool, register: HardwareRegister)
    | PrintStackFrame(index: nat)
    | GarbageCollect(index: nat)

  // The code each move helper appends

  /** `move_to_register`. */
  function MoveToRegister(v: Variable, destination: HardwareRegister): seq<InstructionIR> {
    match v
    case Register(source) => [Move(destination, source)]
    case RegisterExplicit(source) => [MoveExplicitToImplicit(destination, source)]
    case FrameMemory(offset) => [LoadFrameMemory(destination, offset)]
  }

  /** `move_to_explicit`. */
  function MoveToExplicit(v: Variable, destination: MachineRegister): seq<InstructionIR> {
    match v
    case Register(source) => [MoveImplicitToExplicit(destination, source)]
    case RegisterExplicit(source) => [MoveExplicit(destination, source)]
    case FrameMemory(offset) => [LoadFrameMemoryExplicit(destination, offset)]
  }

  /** `move_to_stack`: a frame slot is pushed through the integer spill register. */
  function MoveToStack(v: Variable): seq<InstructionIR> {
    match v
    case Register(source) => [Push(source)]
    case RegisterExplicit(source) => [PushExplicit(source)]
    case FrameMemory(offset) => [LoadFrameMemory(IntSpill, offset), Push(IntSpill)]
  }

  /** `move_to_stack_frame`: a frame slot is copied through the integer spill register. */
  function MoveToStackFrame(v: Variable, frameOffset: int): seq<InstructionIR> {
    match v
    case Register(source) => [StoreFrameMemory(frameOffset, source)]
    case RegisterExplicit(source) => [StoreFrameMemoryExplicit(frameOffset, source)]
    case FrameMemory(offset) => [LoadFrameMemory(IntSpill, offset), StoreFrameMemory(frameOffset, IntSpill)]
  }

  /** `move_from_explicit`. */
  function MoveFromExplicit(v: Variable, source: MachineRegister): seq<InstructionIR> {
    match v
    case Register(destination) => [MoveExplicitToImplicit(destination, source)]
    case RegisterExplicit(destination) => [MoveExplicit(destination, source)]
    case FrameMemory(offset) => [StoreFrameMemoryExplicit(offset, source)]
  }

  /** The caller's instruction list that the helpers append to. */
  class InstructionBuffer {
    var instructions: seq<InstructionIR>

    constructor ()
      ensures instructions == []
    {
      instructions := [];
    }

    method Append(code: seq<InstructionIR>)
      modifies this
      ensures instructions == old(instructions) + code
    {
      instructions := instructions + code;
    }
  }

  method MoveToRegisterInto(v: Variable, destination: HardwareRegister, buffer: InstructionBuffer)
    modifies buffer
    ensures buffer.instructions == old(buffer.instructions) + MoveToRegister(v, destination)
  {
    match v
    case Register(source) => buffer.Append([Move(destination, source)]);
    case RegisterExplicit(source) => buffer.Append([MoveExplicitToImplicit(destination, source)]);
    case FrameMemory(offset) => buffer.Append([LoadFrameMemory(destination, offset)]);
  }

  method MoveToExplicitInto(v: Variable, destination: MachineRegister, buffer: InstructionBuffer)
    modifies buffer
    ensures buffer.instructions == old(buffer.instructions) + MoveToExplicit(v, destination)
  {
    match v
    case Register(source) => buffer.Append([MoveImplicitToExplicit(destination, source)]);
    case RegisterExplicit(source) => buffer.Append([MoveExplicit(destination, source)]);
    case FrameMemory(offset) => buffer.Append([LoadFrameMemoryExplicit(destination, offset)]);
  }

  method MoveToStackInto(v: Variable, buffer: InstructionBuffer)
    modifies buffer
    ensures buffer.instructions == old(buffer.instructions) + MoveToStack(v)
  {
    match v
    case Register(source) => buffer.Append([Push(source)]);
    case RegisterExplicit(source) => buffer.Append([PushExplicit(source)]);
    case FrameMemory(offset) =>
      buffer.Append([LoadFrameMemory(IntSpill, offset)]);
      buffer.Append([Push(IntSpill)]);
  }

  method MoveToStackFrameInto(v: Variable, frameOffset: int, buffer: InstructionBuffer)
    modifies buffer
    ensures buffer.instructions == old(buffer.instructions) + MoveToStackFrame(v, frameOffset)
  {
    match v
    case Register(source) => buffer.Append([StoreFrameMemory(frameOffset, source)]);
    case RegisterExplicit(source) => buffer.Append([StoreFrameMemoryExplicit(frameOffset, source)]);
    case FrameMemory(offset) =>
      buffer.Append([LoadFrameMemory(IntSpill, offset)]);
      buffer.Append([StoreFrameMemory(frameOffset, IntSpill)]);
  }

  method MoveFromExplicitInto(v: Variable, source: MachineRegister, buffer: InstructionBuffer)
    modifies buffer
    ensures buffer.instructions == old(buffer.instructions) + MoveFromExplicit(v, source)
  {
    match v
    case Register(destination) => buffer.Append([MoveExplicitToImplicit(destination, source)]);
    case RegisterExplicit(destination) => buffer.Append([MoveExplicit(destination, source)]);
    case FrameMemory(offset) => buffer.Append([StoreFrameMemoryExplicit(offset, source)]);
  }

  // What the data-moving instructions do

  /** The registers of both kinds, the frame slots by offset, and the operand stack (top last). Unwritten locations hold 0. */
  datatype Machine = Machine(hardware: map<HardwareRegister, int>, explicit: map<MachineRegister, int>, frame: map<int, int>, stack: seq<int>)
  {
    function HardwareValue(r: HardwareRegister): int { if r in hardware then hardware[r] else 0 }
    function ExplicitValue(r: MachineRegister): int { if r in explicit then explicit[r] else 0 }
    function FrameValue(offset: int): int { if offset in frame then frame[offset] else 0 }

    /** The value a variable holds. */
    function Value(v: Variable): int {
      match v
      case Register(r) => HardwareValue(r)
      case RegisterExplicit(r) => ExplicitValue(r)
      case FrameMemory(offset) => FrameValue(offset)
    }

    /** The machine with `value` written to the variable's location. */
    function Write(v: Variable, value: int): (m: Machine)
      ensures m.Value(v) == value && m.stack == stack
    {
      match v
      case Register(r) => this.(hardware := hardware[r := value])
      case RegisterExplicit(r) => this.(explicit := explicit[r := value])
      case FrameMemory(offset) => this.(frame := frame[offset := value])
    }
  }

  /**
   * `r` is `m` with `value` stored in frame slot `slot`: no other slot, the explicit registers
   * or the operand stack differ (the implicit registers are scratch and may).
   */
  ghost predicate StoresOnly(m: Machine, r: Option<Machine>, slot: int, value: int) {
    && r.Some? && r.value.FrameValue(slot) == value
    && (forall o :: o != slot ==> r.value.FrameValue(o) == m.FrameValue(o))
    && r.value.explicit == m.explicit && r.value.stack == m.stack
  }

  /** One data-moving instruction (markers change nothing); `None` for the instructions this machine does not give a meaning, and for a pop of an empty stack. */
  function Effect(m: Machine, i: InstructionIR): Option<Machine> {
    match i
    case Marker(_, _) => Some(m)
    case LoadZeroToRegister(r) => Some(m.Write(Register(r), 0))
    case MoveInt32ToRegister(r, value) => Some(m.Write(Register(r), value))
    case MoveInt32ToFrameMemory(offset, value) => Some(m.Write(FrameMemory(offset), value))
    case Move(d, s) => Some(m.Write(Register(d), m.HardwareValue(s)))
    case MoveExplicit(d, s) => Some(m.Write(RegisterExplicit(d), m.ExplicitValue(s)))
    case MoveImplicitToExplicit(d, s) => Some(m.Write(RegisterExplicit(d), m.HardwareValue(s)))
    case MoveExplicitToImplicit(d, s) => Some(m.Write(Register(d), m.ExplicitValue(s)))
    case LoadFrameMemory(d, offset) => Some(m.Write(Register(d), m.FrameValue(offset)))
    case LoadFrameMemoryExplicit(d, offset) => Some(m.Write(RegisterExplicit(d), m.FrameValue(offset)))
    case StoreFrameMemory(offset, s) => Some(m.Write(FrameMemory(offset), m.HardwareValue(s)))
    case StoreFrameMemoryExplicit(offset, s) => Some(m.Write(FrameMemory(offset), m.ExplicitValue(s)))
    case Push(s) => Some(m.(stack := m.stack + [m.HardwareValue(s)]))
    case PushExplicit(s) => Some(m.(stack := m.stack + [m.ExplicitValue(s)]))
    case Pop(d) =>
      if |m.stack| == 0 then None
      else Some(m.(stack := m.stack[..|m.stack| - 1]).Write(Register(d), m.stack[|m.stack| - 1]))
    case PopExplicit(d) =>
      if |m.stack| == 0 then None
      else Some(m.(stack := m.stack[..|m.stack| - 1]).Write(RegisterExplicit(d), m.stack[|m.stack| - 1]))
    case _ => None
  }

  /** The instructions one after the other. */
  function Run(m: Machine, code: seq<InstructionIR>): Option<Machine>
    decreases |code|
  {
    if |code| == 0 then Some(m)
    else match Effect(m, code[0])
      case None => None
      case Some(next) => Run(next, code[1..])
  }

  /** Running two pieces of code one after the other is running their concatenation. */
  lemma {:induction false} RunAppend(m: Machine, a: seq<InstructionIR>, b: seq<InstructionIR>)
    ensures Run(m, a + b) == match Run(m, a) case None => None case Some(n) => Run(n, b)
    decreases |a|
  {
    if |a| > 0 {
      assert (a + b)[0] == a[0] && (a + b)[1..] == a[1..] + b;
      match Effect(m, a[0])
      case None =>
      case Some(next) => RunAppend(next, a[1..], b);
    } else {
      assert a + b == b;
    }
  }

  /** `move_to_register` leaves the variable's value in the destination and changes nothing else. */
  lemma MoveToRegisterMoves(m: Machine, v: Variable, destination: HardwareRegister)
    ensures |MoveToRegister(v, destination)| == 1
    ensures Run(m, MoveToRegister(v, destination)) == Some(m.Write(Register(destination), m.Value(v)))
  {
  }

  /** `move_to_explicit` leaves the variable's value in the machine register and changes nothing else. */
  lemma MoveToExplicitMoves(m: Machine, v: Variable, destination: MachineRegister)
    ensures |MoveToExplicit(v, destination)| == 1
    ensures Run(m, MoveToExplicit(v, destination)) == Some(m.Write(RegisterExplicit(destination), m.Value(v)))
  {
  }

  /** `move_to_stack` pushes the variable's value; a frame slot passes through the integer spill register. */
  lemma MoveToStackPushes(m: Machine, v: Variable)
    ensures |MoveToStack(v)| == if v.FrameMemory? then 2 else 1
    ensures Run(m, MoveToStack(v)) ==
      var carried := if v.FrameMemory? then m.Write(Register(IntSpill), m.Value(v)) else m;
      Some(carried.(stack := m.stack + [m.Value(v)]))
  {
    if v.FrameMemory? {
      var after := m.Write(Register(IntSpill), m.Value(v));
      assert Effect(m, LoadFrameMemory(IntSpill, v.offset)) == Some(after);
      assert Effect(after, Push(IntSpill)) == Some(after.(stack := m.stack + [m.Value(v)]));
      assert MoveToStack(v)[1..] == [Push(IntSpill)];
      var pushed := after.(stack := m.stack + [m.Value(v)]);
      assert Run(after, [Push(IntSpill)]) == Run(pushed, []) == Some(pushed);
    }
  }

  /** `move_to_stack_frame` stores the variable's value at the frame offset; a frame slot passes through the integer spill register. */
  lemma MoveToStackFrameStores(m: Machine, v: Variable, frameOffset: int)
    ensures |MoveToStackFrame(v, frameOffset)| == if v.FrameMemory? then 2 else 1
    ensures Run(m, MoveToStackFrame(v, frameOffset)) ==
      var carried := if v.FrameMemory? then m.Write(Register(IntSpill), m.Value(v)) else m;
      Some(carried.Write(FrameMemory(frameOffset), m.Value(v)))
  {
    if v.FrameMemory? {
      var after := m.Write(Register(IntSpill), m.Value(v));
      assert Effect(m, LoadFrameMemory(IntSpill, v.offset)) == Some(after);
      assert Effect(after, StoreFrameMemory(frameOffset, IntSpill)) == Some(after.Write(FrameMemory(frameOffset), m.Value(v)));
      assert MoveToStackFrame(v, frameOffset)[1..] == [StoreFrameMemory(frameOffset, IntSpill)];
      var stored := after.Write(FrameMemory(frameOffset), m.Value(v));
      assert Run(after, [StoreFrameMemory(frameOffset, IntSpill)]) == Run(stored, []) == Some(stored);
    }
  }

  /** `move_from_explicit` writes the machine register's value to the variable and changes nothing else. */
  lemma MoveFromExplicitWrites(m: Machine, v: Variable, source: MachineRegister)
    ensures |MoveFromExplicit(v, source)| == 1
    ensures Run(m, MoveFromExplicit(v, source)) == Some(m.Write(v, m.ExplicitValue(source)))
  {
  }

  /** Moving to a machine register and back restores the variable and leaves the value in the machine register. */
  lemma ExplicitRoundTrip(m: Machine, v: Variable, through: MachineRegister)
    ensures var there := m.Write(RegisterExplicit(through), m.Value(v));
      Run(m, MoveToExplicit(v, through) + MoveFromExplicit(v, through)) == Some(there.Write(v, m.Value(v)))
  {
    RunAppend(m, MoveToExplicit(v, through), MoveFromExplicit(v, through));
    MoveToExplicitMoves(m, v, through);
    var there := m.Write(RegisterExplicit(through), m.Value(v));
    MoveFromExplicitWrites(there, v, through);
  }
}
