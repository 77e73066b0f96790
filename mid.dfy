/**
 * The older mid-level IR: instructions over typed virtual registers, each tagged with the index
 * of the bytecode instruction it came from, with their definition/use tables. The Marker-based
 * encoding that the older MIR compiler emits is `Marked`: a `Marker(i)` opens the code of bytecode
 * instruction `i` and every other entry carries an instruction of the older IR.
 */
module Mid {
  import opened Wrappers
  import opened Scalars
  import opened TypeIds
  import opened Program

  /** A virtual register: its number and the type of the value it holds. */
  datatype VirtualRegister = VirtualRegister(number: nat, valueType: TypeId)

  datatype MidData =
    | LoadInt32(dest: VirtualRegister, value: I32)
    | LoadFloat32(dest: VirtualRegister, fvalue: Float32Bits)
    | Move(dest: VirtualRegister, source: VirtualRegister)
    | AddInt32(dest: VirtualRegister, op1: VirtualRegister, op2: VirtualRegister)
    | SubInt32(dest: VirtualRegister, op1: VirtualRegister, op2: VirtualRegister)
    | AddFloat32(dest: VirtualRegister, op1: VirtualRegister, op2: VirtualRegister)
    | SubFloat32(dest: VirtualRegister, op1: VirtualRegister, op2: VirtualRegister)
    | Return(returnValue: Option<VirtualRegister>)
    | Call(signature: Signature, callResult: Option<VirtualRegister>, arguments: seq<VirtualRegister>)
    | LoadArgument(argument: nat, dest: VirtualRegister)
    | LoadNull(dest: VirtualRegister)
    | NewArray(element: TypeId, dest: VirtualRegister, size: VirtualRegister)
    | LoadElement(element: TypeId, dest: VirtualRegister, arrayRef: VirtualRegister, index: VirtualRegister)
    | StoreElement(element: TypeId, arrayRef: VirtualRegister, index: VirtualRegister, stored: VirtualRegister)
    | LoadArrayLength(dest: VirtualRegister, arrayRef: VirtualRegister)
    | BranchLabel(branchLabel: nat)
    | Branch(branchLabel: nat)
    | BranchCondition(condition: Condition, compareType: TypeId, branchLabel: nat, op1: VirtualRegister, op2: VirtualRegister)
  {
    /** The variant's own name. */
    function Name(): string {
      match this
      case LoadInt32(_, _) => "LoadInt32"
      case LoadFloat32(_, _) => "LoadFloat32"
      case Move(_, _) => "Move"
      case AddInt32(_, _, _) => "AddInt32"
      case SubInt32(_, _, _) => "SubInt32"
      case AddFloat32(_, _, _) => "AddFloat32"
      case SubFloat32(_, _, _) => "SubFloat32"
      case Return(_) => "Return"
      case Call(_, _, _) => "Call"
      case LoadArgument(_, _) => "LoadArgument"
      case LoadNull(_) => "LoadNull"
      case NewArray(_, _, _) => "NewArray"
      case LoadElement(_, _, _, _) => "LoadElement"
      case StoreElement(_, _, _, _) => "StoreElement"
      case LoadArrayLength(_, _) => "LoadArrayLength"
      case BranchLabel(_) => "BranchLabel"
      case Branch(_) => "Branch"
      case BranchCondition(_, _, _, _, _) => "BranchCondition"
    }

    /** The register the instruction writes, if any. */
    function AssignRegister(): Option<VirtualRegister> {
      match this
      case Return(_) => None
      case Call(_, r, _) => r
      case StoreElement(_, _, _, _) => None
      case BranchLabel(_) => None
      case Branch(_) => None
      case BranchCondition(_, _, _, _, _) => None
      case _ => Some(dest)
    }

    /** The registers the instruction reads, in operand order. */
    function UseRegisters(): seq<VirtualRegister> {
      match this
      case Move(_, op) => [op]
      case AddInt32(_, op1, op2) => [op1, op2]
      case SubInt32(_, op1, op2) => [op1, op2]
      case AddFloat32(_, op1, op2) => [op1, op2]
      case SubFloat32(_, op1, op2) => [op1, op2]
      case Return(r) => if r.Some? then [r.value] else []
      case Call(_, _, arguments) => arguments
      case NewArray(_, _, op) => [op]
      case LoadElement(_, _, op1, op2) => [op1, op2]
      case StoreElement(_, op1, op2, op3) => [op1, op2, op3]
      case LoadArrayLength(_, op) => [op]
      case BranchCondition(_, _, _, op1, op2) => [op1, op2]
      case _ => []
    }

    /** Every register operand of the instruction, in field order. */
    function Registers(): seq<VirtualRegister> {
      match this
      case LoadInt32(d, _) => [d]
      case LoadFloat32(d, _) => [d]
      case Move(d, s) => [d, s]
      case AddInt32(d, a, b) => [d, a, b]
      case SubInt32(d, a, b) => [d, a, b]
      case AddFloat32(d, a, b) => [d, a, b]
      case SubFloat32(d, a, b) => [d, a, b]
      case Return(r) => if r.Some? then [r.value] else []
      case Call(_, r, arguments) => (if r.Some? then [r.value] else []) + arguments
      case LoadArgument(_, d) => [d]
      case LoadNull(d) => [d]
      case NewArray(_, d, s) => [d, s]
      case LoadElement(_, d, a, i) => [d, a, i]
      case StoreElement(_, a, i, v) => [a, i, v]
      case LoadArrayLength(d, a) => [d, a]
      case BranchLabel(_) => []
      case Branch(_) => []
      case BranchCondition(_, _, _, a, b) => [a, b]
    }

    /** The written register as the older table gives it: the array operand for `LoadArrayLength`. */
    function AssignRegisterAsWritten(): Option<VirtualRegister> {
      if this.LoadArrayLength? then Some(arrayRef) else AssignRegister()
    }

    /** The read registers as the older table gives them: none for `LoadArrayLength`. */
    function UseRegistersAsWritten(): seq<VirtualRegister> {
      if this.LoadArrayLength? then [] else UseRegisters()
    }

    /** A position in the variant list, to say when two instructions are the same variant. */
    function Tag(): nat {
      match this
      case LoadInt32(_, _) => 0
      case LoadFloat32(_, _) => 1
      case Move(_, _) => 2
      case AddInt32(_, _, _) => 3
      case SubInt32(_, _, _) => 4
      case AddFloat32(_, _, _) => 5
      case SubFloat32(_, _, _) => 6
      case Return(_) => 7
      case Call(_, _, _) => 8
      case LoadArgument(_, _) => 9
      case LoadNull(_) => 10
      case NewArray(_, _, _) => 11
      case LoadElement(_, _, _, _) => 12
      case StoreElement(_, _, _, _) => 13
      case LoadArrayLength(_, _) => 14
      case BranchLabel(_) => 15
      case Branch(_) => 16
      case BranchCondition(_, _, _, _, _) => 17
    }
  }

  /** For every instruction, the written register followed by the read ones are its register operands. */
  lemma DefUsePartition(d: MidData)
    ensures OptionToSeq(d.AssignRegister()) + d.UseRegisters() == d.Registers()
  {
    match d
    case Call(_, r, arguments) =>
    case Return(r) =>
    case _ =>
  }

  /** The older table as written names the array as `LoadArrayLength`'s written register and records no read. */
  lemma LoadArrayLengthAsWritten(dest: VirtualRegister, arrayRef: VirtualRegister)
    requires dest != arrayRef
    ensures var d := MidData.LoadArrayLength(dest, arrayRef);
      && d.AssignRegisterAsWritten() == Some(arrayRef) && d.AssignRegisterAsWritten() != Some(dest)
      && d.UseRegistersAsWritten() == []
      && OptionToSeq(d.AssignRegisterAsWritten()) + d.UseRegistersAsWritten() != d.Registers()
  {
    var d := MidData.LoadArrayLength(dest, arrayRef);
    assert d.Registers()[0] == dest;
  }

  /** Exactly the value-producing variants write a register (a call only when it returns one). */
  lemma AssignRegisterPresence(d: MidData)
    ensures d.AssignRegister().None? <==>
      (d.Return? || d.StoreElement? || d.BranchLabel? || d.Branch? || d.BranchCondition? || (d.Call? && d.callResult.None?))
  {
  }

  /** Distinct variants have distinct names. */
  lemma NameIdentifiesVariant(a: MidData, b: MidData)
    requires a.Name() == b.Name()
    ensures a.Tag() == b.Tag()
  {
  }

  /** The instruction entries of the older MIR compiler: markers and instructions. */
  datatype Marked = Marker(index: nat) | Instr(data: MidData)

  /** An older-IR instruction tagged with the bytecode instruction it came from. */
  datatype MidInstruction = MidInstruction(index: nat, data: MidData)
}
