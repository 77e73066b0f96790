/**
 * The mid-level IR of the later revision: three-address instructions over typed virtual
 * registers, each tagged with the index of the bytecode instruction it came from, and their
 * definition/use tables. The variants after those of the table in `src/mir/mod.rs` (multiply,
 * divide, the Boolean operators, compare, the constant-operand forms, instance calls and the
 * stack-frame dump) are the ones the later compilers emit and consume; their definition/use
 * entries follow the same pattern.
 */
module Mir {
  import opened Wrappers
  import opened Scalars
  import opened TypeIds
  import opened Program

  /** A register of the mid-level IR: its number and the type of the value it holds. */
  datatype RegisterMir = RegisterMir(number: nat, valueType: TypeId)

  /** The register identity the analyses work with; it carries the same number and type. */
  datatype VirtualRegister = VirtualRegister(number: nat, valueType: TypeId)

  function ToVirtual(r: RegisterMir): (v: VirtualRegister)
    ensures v.number == r.number && v.valueType == r.valueType
  {
    VirtualRegister(r.number, r.valueType)
  }

  datatype MirData =
    | LoadInt32(dest: RegisterMir, value: I32)
    | LoadFloat32(dest: RegisterMir, fvalue: Float32Bits)
    | LoadBool(dest: RegisterMir, bvalue: bool)
    | Move(dest: RegisterMir, source: RegisterMir)
    | AddInt32(dest: RegisterMir, op1: RegisterMir, op2: RegisterMir)
    | AddInt32Constant(dest: RegisterMir, op1: RegisterMir, constant: I32)
    | SubInt32(dest: RegisterMir, op1: RegisterMir, op2: RegisterMir)
    | SubInt32Constant(dest: RegisterMir, op1: RegisterMir, constant: I32)
    | MultiplyInt32(dest: RegisterMir, op1: RegisterMir, op2: RegisterMir)
    | DivideInt32(dest: RegisterMir, op1: RegisterMir, op2: RegisterMir)
    | AddFloat32(dest: RegisterMir, op1: RegisterMir, op2: RegisterMir)
    | SubFloat32(dest: RegisterMir, op1: RegisterMir, op2: RegisterMir)
    | MultiplyFloat32(dest: RegisterMir, op1: RegisterMir, op2: RegisterMir)
    | DivideFloat32(dest: RegisterMir, op1: RegisterMir, op2: RegisterMir)
    | AndBool(dest: RegisterMir, op1: RegisterMir, op2: RegisterMir)
    | AndBoolConstant(dest: RegisterMir, op1: RegisterMir, bconstant: bool)
    | OrBool(dest: RegisterMir, op1: RegisterMir, op2: RegisterMir)
    | OrBoolConstant(dest: RegisterMir, op1: RegisterMir, bconstant: bool)
    | NotBool(dest: RegisterMir, source: RegisterMir)
    | Compare(condition: Condition, compareType: TypeId, dest: RegisterMir, op1: RegisterMir, op2: RegisterMir)
    | Return(returnValue: Option<RegisterMir>)
    | Call(signature: Signature, callResult: Option<RegisterMir>, arguments: seq<RegisterMir>)
    | CallInstance(signature: Signature, callResult: Option<RegisterMir>, arguments: seq<RegisterMir>)
    | LoadArgument(argument: nat, dest: RegisterMir)
    | LoadNull(dest: RegisterMir)
    | NewArray(element: TypeId, dest: RegisterMir, size: RegisterMir)
    | LoadElement(element: TypeId, dest: RegisterMir, arrayRef: RegisterMir, index: RegisterMir)
    | StoreElement(element: TypeId, arrayRef: RegisterMir, index: RegisterMir, stored: RegisterMir)
    | LoadArrayLength(dest: RegisterMir, arrayRef: RegisterMir)
    | NewObject(classType: TypeId, dest: RegisterMir)
    | LoadField(classType: TypeId, field: string, dest: RegisterMir, objectRef: RegisterMir)
    | StoreField(classType: TypeId, field: string, objectRef: RegisterMir, stored: RegisterMir)
    | GarbageCollect
    | PrintStackFrame
    | BranchLabel(branchLabel: nat)
    | Branch(branchLabel: nat)
    | BranchCondition(condition: Condition, compareType: TypeId, branchLabel: nat, op1: RegisterMir, op2: RegisterMir)
  {
    /** The variant's own name. */
    function Name(): string {
      match this
      case LoadInt32(_, _) => "LoadInt32"
      case LoadFloat32(_, _) => "LoadFloat32"
      case LoadBool(_, _) => "LoadBool"
      case Move(_, _) => "Move"
      case AddInt32(_, _, _) => "AddInt32"
      case AddInt32Constant(_, _, _) => "AddInt32Constant"
      case SubInt32(_, _, _) => "SubInt32"
      case SubInt32Constant(_, _, _) => "SubInt32Constant"
      case MultiplyInt32(_, _, _) => "MultiplyInt32"
      case DivideInt32(_, _, _) => "DivideInt32"
      case AddFloat32(_, _, _) => "AddFloat32"
      case SubFloat32(_, _, _) => "SubFloat32"
      case MultiplyFloat32(_, _, _) => "MultiplyFloat32"
      case DivideFloat32(_, _, _) => "DivideFloat32"
      case AndBool(_, _, _) => "AndBool"
      case AndBoolConstant(_, _, _) => "AndBoolConstant"
      case OrBool(_, _, _) => "OrBool"
      case OrBoolConstant(_, _, _) => "OrBoolConstant"
      case NotBool(_, _) => "NotBool"
      case Compare(_, _, _, _, _) => "Compare"
      case Return(_) => "Return"
      case Call(_, _, _) => "Call"
      case CallInstance(_, _, _) => "CallInstance"
      case LoadArgument(_, _) => "LoadArgument"
      case LoadNull(_) => "LoadNull"
      case NewArray(_, _, _) => "NewArray"
      case LoadElement(_, _, _, _) => "LoadElement"
      case StoreElement(_, _, _, _) => "StoreElement"
      case LoadArrayLength(_, _) => "LoadArrayLength"
      case NewObject(_, _) => "NewObject"
      case LoadField(_, _, _, _) => "LoadField"
      case StoreField(_, _, _, _) => "StoreField"
      case GarbageCollect => "GarbageCollect"
      case PrintStackFrame => "PrintStackFrame"
      case BranchLabel(_) => "BranchLabel"
      case Branch(_) => "Branch"
      case BranchCondition(_, _, _, _, _) => "BranchCondition"
    }

    /** The register the instruction writes, if any. */
    function AssignRegister(): Option<RegisterMir> {
      match this
      case Return(_) => None
      case Call(_, r, _) => r
      case CallInstance(_, r, _) => r
      case StoreElement(_, _, _, _) => None
      case StoreField(_, _, _, _) => None
      case GarbageCollect => None
      case PrintStackFrame => None
      case BranchLabel(_) => None
      case Branch(_) => None
      case BranchCondition(_, _, _, _, _) => None
      case _ => Some(dest)
    }

    /** The registers the instruction reads, in operand order. */
    function UseRegisters(): seq<RegisterMir> {
      match this
      case Move(_, op) => [op]
      case AddInt32(_, op1, op2) => [op1, op2]
      case AddInt32Constant(_, op1, _) => [op1]
      case SubInt32(_, op1, op2) => [op1, op2]
      case SubInt32Constant(_, op1, _) => [op1]
      case MultiplyInt32(_, op1, op2) => [op1, op2]
      case DivideInt32(_, op1, op2) => [op1, op2]
      case AddFloat32(_, op1, op2) => [op1, op2]
      case SubFloat32(_, op1, op2) => [op1, op2]
      case MultiplyFloat32(_, op1, op2) => [op1, op2]
      case DivideFloat32(_, op1, op2) => [op1, op2]
      case AndBool(_, op1, op2) => [op1, op2]
      case AndBoolConstant(_, op1, _) => [op1]
      case OrBool(_, op1, op2) => [op1, op2]
      case OrBoolConstant(_, op1, _) => [op1]
      case NotBool(_, op) => [op]
      case Compare(_, _, _, op1, op2) => [op1, op2]
      case Return(r) => if r.Some? then [r.value] else []
      case Call(_, _, arguments) => arguments
      case CallInstance(_, _, arguments) => arguments
      case NewArray(_, _, op) => [op]
      case LoadElement(_, _, op1, op2) => [op1, op2]
      case StoreElement(_, op1, op2, op3) => [op1, op2, op3]
      case LoadArrayLength(_, op) => [op]
      case LoadField(_, _, _, op) => [op]
      case StoreField(_, _, op1, op2) => [op1, op2]
      case BranchCondition(_, _, _, op1, op2) => [op1, op2]
      case _ => []
    }

    /** Every register operand of the instruction, in field order. */
    function Registers(): seq<RegisterMir> {
      match this
      case LoadInt32(d, _) => [d]
      case LoadFloat32(d, _) => [d]
      case LoadBool(d, _) => [d]
      case Move(d, s) => [d, s]
      case AddInt32(d, a, b) => [d, a, b]
      case AddInt32Constant(d, a, _) => [d, a]
      case SubInt32(d, a, b) => [d, a, b]
      case SubInt32Constant(d, a, _) => [d, a]
      case MultiplyInt32(d, a, b) => [d, a, b]
      case DivideInt32(d, a, b) => [d, a, b]
      case AddFloat32(d, a, b) => [d, a, b]
      case SubFloat32(d, a, b) => [d, a, b]
      case MultiplyFloat32(d, a, b) => [d, a, b]
      case DivideFloat32(d, a, b) => [d, a, b]
      case AndBool(d, a, b) => [d, a, b]
      case AndBoolConstant(d, a, _) => [d, a]
      case OrBool(d, a, b) => [d, a, b]
      case OrBoolConstant(d, a, _) => [d, a]
      case NotBool(d, a) => [d, a]
      case Compare(_, _, d, a, b) => [d, a, b]
      case Return(r) => if r.Some? then [r.value] else []
      case Call(_, r, arguments) => (if r.Some? then [r.value] else []) + arguments
      case CallInstance(_, r, arguments) => (if r.Some? then [r.value] else []) + arguments
      case LoadArgument(_, d) => [d]
      case LoadNull(d) => [d]
      case NewArray(_, d, s) => [d, s]
      case LoadElement(_, d, a, i) => [d, a, i]
      case StoreElement(_, a, i, v) => [a, i, v]
      case LoadArrayLength(d, a) => [d, a]
      case NewObject(_, d) => [d]
      case LoadField(_, _, d, o) => [d, o]
      case StoreField(_, _, o, v) => [o, v]
      case GarbageCollect => []
      case PrintStackFrame => []
      case BranchLabel(_) => []
      case Branch(_) => []
      case BranchCondition(_, _, _, a, b) => [a, b]
    }

    /**
     * The written register as the table in the original code gives it: for `LoadArrayLength` it
     * names the array operand instead of the destination.
     */
    function AssignRegisterAsWritten(): Option<RegisterMir> {
      if this.LoadArrayLength? then Some(arrayRef) else AssignRegister()
    }

    /** The read registers as the table in the original code gives them: none for `LoadArrayLength`. */
    function UseRegistersAsWritten(): seq<RegisterMir> {
      if this.LoadArrayLength? then [] else UseRegisters()
    }

    /** The written register as an analysis register. */
    function AssignVirtualRegister(): (r: Option<VirtualRegister>)
      ensures r.Some? <==> AssignRegister().Some?
      ensures r.Some? ==> r.value == ToVirtual(AssignRegister().value)
    {
      if AssignRegister().Some? then Some(ToVirtual(AssignRegister().value)) else None
    }

    /** The read registers as analysis registers, in the same order. */
    function UseVirtualRegisters(): (r: seq<VirtualRegister>)
      ensures |r| == |UseRegisters()|
      ensures forall i :: 0 <= i < |r| ==> r[i] == ToVirtual(UseRegisters()[i])
    {
      seq(|UseRegisters()|, i requires 0 <= i < |UseRegisters()| => ToVirtual(UseRegisters()[i]))
    }
  }

  /** A mid-level instruction tagged with the bytecode instruction it came from. */
  datatype InstructionMir = InstructionMir(index: nat, data: MirData)

  /** The written register followed by the read ones are exactly the register operands, in field order. */
  ghost predicate Partitioned(d: MirData) {
    OptionToSeq(d.AssignRegister()) + d.UseRegisters() == d.Registers()
  }

  predicate IsSimple(d: MirData) {
    d.LoadInt32? || d.LoadFloat32? || d.LoadBool? || d.Move? || d.LoadArgument? || d.LoadNull? || d.NewObject? || d.NotBool?
  }

  predicate IsThreeRegister(d: MirData) {
    || d.AddInt32? || d.SubInt32? || d.MultiplyInt32? || d.DivideInt32?
    || d.AddFloat32? || d.SubFloat32? || d.MultiplyFloat32? || d.DivideFloat32?
    || d.AndBool? || d.OrBool? || d.Compare?
  }

  predicate IsConstantOperand(d: MirData) {
    d.AddInt32Constant? || d.SubInt32Constant? || d.AndBoolConstant? || d.OrBoolConstant?
  }

  predicate IsCallOrReturn(d: MirData) {
    d.Return? || d.Call? || d.CallInstance?
  }

  predicate IsMemoryAccess(d: MirData) {
    d.NewArray? || d.LoadElement? || d.StoreElement? || d.LoadArrayLength? || d.LoadField? || d.StoreField?
  }

  lemma SimplePartitioned(d: MirData)
    requires IsSimple(d)
    ensures Partitioned(d)
  {
  }

  lemma ThreeRegisterPartitioned(d: MirData)
    requires IsThreeRegister(d)
    ensures Partitioned(d)
  {
  }

  lemma ConstantOperandPartitioned(d: MirData)
    requires IsConstantOperand(d)
    ensures Partitioned(d)
  {
  }

  lemma CallOrReturnPartitioned(d: MirData)
    requires IsCallOrReturn(d)
    ensures Partitioned(d)
  {
    match d
    case Call(_, r, arguments) =>
    case CallInstance(_, r, arguments) =>
    case Return(r) =>
  }

  lemma MemoryAccessPartitioned(d: MirData)
    requires IsMemoryAccess(d)
    ensures Partitioned(d)
  {
  }

  /** For every instruction, the written register followed by the read ones are its register operands. */
  lemma DefUsePartition(d: MirData)
    ensures OptionToSeq(d.AssignRegister()) + d.UseRegisters() == d.Registers()
  {
    if IsSimple(d) {
      SimplePartitioned(d);
    } else if IsThreeRegister(d) {
      ThreeRegisterPartitioned(d);
    } else if IsConstantOperand(d) {
      ConstantOperandPartitioned(d);
    } else if IsCallOrReturn(d) {
      CallOrReturnPartitioned(d);
    } else if IsMemoryAccess(d) {
      MemoryAccessPartitioned(d);
    }
  }

  /**
   * The table as written misreports `LoadArrayLength(dest, arrayRef)`: it names the array as the
   * written register and records no read, so the register the length goes to is never written
   * and the array is never read, as far as an analysis can tell.
   */
  lemma LoadArrayLengthAsWritten(dest: RegisterMir, arrayRef: RegisterMir)
    requires dest != arrayRef
    ensures var d := MirData.LoadArrayLength(dest, arrayRef);
      && d.AssignRegisterAsWritten() == Some(arrayRef) && d.AssignRegisterAsWritten() != Some(dest)
      && d.UseRegistersAsWritten() == []
      && OptionToSeq(d.AssignRegisterAsWritten()) + d.UseRegistersAsWritten() != d.Registers()
  {
    var d := MirData.LoadArrayLength(dest, arrayRef);
    assert d.Registers()[0] == dest;
  }

  /** On every other instruction the table as written agrees with the corrected one. */
  lemma AsWrittenElsewhere(d: MirData)
    requires !d.LoadArrayLength?
    ensures d.AssignRegisterAsWritten() == d.AssignRegister() && d.UseRegistersAsWritten() == d.UseRegisters()
  {
  }

  /** Exactly the value-producing variants write a register (a call only when it returns one). */
  lemma AssignRegisterPresence(d: MirData)
    ensures d.AssignRegister().None? <==>
      || d.Return? || d.StoreElement? || d.StoreField? || d.GarbageCollect? || d.PrintStackFrame?
      || d.BranchLabel? || d.Branch? || d.BranchCondition?
      || ((d.Call? || d.CallInstance?) && d.callResult.None?)
  {
  }

  /** The label markers of compiled code, as the label-mapping pass reads them. */
  function LabelOf(instruction: InstructionMir): Option<nat> {
    if instruction.data.BranchLabel? then Some(instruction.data.branchLabel) else None
  }
}
