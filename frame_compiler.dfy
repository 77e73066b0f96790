/**
 * The frame-memory lowering of MIR into the register-level IR (`src/compiler/ir/compiler.rs`).
 * Every MIR register lives in its own frame slot: an instruction loads its operands from their
 * slots into fixed registers, operates on them and stores the result into the destination's
 * slot. A function starts by reserving its frame, copying its arguments into their slots and
 * zeroing the slots of the registers that need it; each MIR instruction's code starts with a
 * marker of its bytecode index and its position.
 *
 * What the compiler reads but this revision of the repository does not define is an input: the
 * frame size (`stack_size` over the compilation result), the field layouts (`get_field` with its
 * type and offset), and the null statuses recorded before each instruction. A register's slot is
 * `IrHelpers.VirtualRegisterStackOffset`. Every `unwrap`, `assert!` or `panic!` the code reaches
 * gives `None`, and so does a MIR variant the compiler has no case for (`DivideInt32`,
 * `NotBool`, `CallInstance`).
 */
module FrameCompiler {
  import opened Wrappers
  import opened Scalars
  import opened TypeIds
  import opened Program
  import opened Mir
  import opened CompilerIr
  import opened StackLayout
  import CallingConventions
  import IrHelpers
  import MirCompiler

  /** A field as the compiler reads it: its type and its offset in the object. */
  datatype FieldLayout = FieldLayout(fieldType: TypeId, offset: nat)

  /** Everything the translation of an instruction reads besides the instruction. */
  datatype Env = Env(
    declaration: Declaration,
    functions: map<Signature, Declaration>,
    fields: map<(TypeId, string), FieldLayout>,
    nullStatus: seq<map<RegisterMir, bool>>,
    stackSize: int)

  /** `get_register_stack_offset`. */
  function Slot(env: Env, r: RegisterMir): int {
    IrHelpers.VirtualRegisterStackOffset(|env.declaration.parameters|, r.number)
  }

  /** The register the runtime helpers return a new reference in. */
  const ReturnValue: MachineRegister := CallingConventions.IntReturnValue

  // ---------------------------------------------------------------------------------------------
  // The code of each part.

  /** A store of the zeroed register `zero` into each register's slot, in order (this file zeroes through `IntSpill`). */
  function ZeroStores(env: Env, zero: HardwareRegister, registers: seq<RegisterMir>): (code: seq<InstructionIR>)
    ensures |code| == |registers|
    decreases |registers|
  {
    if |registers| == 0 then []
    else ZeroStores(env, zero, registers[..|registers| - 1]) + [StoreFrameMemory(Slot(env, registers[|registers| - 1]), zero)]
  }

  /** The function entry and the frame reservation, when the frame is not empty. */
  function HeaderCode(env: Env): seq<InstructionIR> {
    [InitializeFunction] + if env.stackSize > 0 then [SubFromStackPointer(env.stackSize)] else []
  }

  /** Zeroing `zero` once, then storing it into each slot; nothing when no register needs it. */
  function ZeroingCode(env: Env, zero: HardwareRegister, needZero: seq<RegisterMir>): seq<InstructionIR> {
    if |needZero| > 0 then [LoadZeroToRegister(zero)] + ZeroStores(env, zero, needZero) else []
  }

  /** `compile_initialize_function`. */
  function PrologueCode(env: Env, needZero: seq<RegisterMir>): seq<InstructionIR> {
    HeaderCode(env) + CallingConventions.ArgumentsToFrameCode(env.declaration.parameters, 0) + ZeroingCode(env, IntSpill, needZero)
  }

  /** The first and second operand registers of a class. */
  function First(float: bool): HardwareRegister { if float then Float(0) else Int(0) }
  function Second(float: bool): HardwareRegister { if float then Float(1) else Int(1) }

  /** The MIR instructions that combine two registers, and the operation each lowers to. */
  function BinaryOperatorOf(d: MirData): (op: Option<IrHelpers.BinaryOperator>)
    ensures op.Some? <==> d.AddInt32? || d.SubInt32? || d.MultiplyInt32? || d.AddFloat32? || d.SubFloat32?
                          || d.MultiplyFloat32? || d.DivideFloat32? || d.AndBool? || d.OrBool?
    ensures op.Some? ==> (IsFloatOperator(op.value) <==> d.AddFloat32? || d.SubFloat32? || d.MultiplyFloat32? || d.DivideFloat32?)
  {
    match d
    case AddInt32(_, _, _) => Some(IrHelpers.AddInt32Op)
    case SubInt32(_, _, _) => Some(IrHelpers.SubInt32Op)
    case MultiplyInt32(_, _, _) => Some(IrHelpers.MultiplyInt32Op)
    case AddFloat32(_, _, _) => Some(IrHelpers.AddFloat32Op)
    case SubFloat32(_, _, _) => Some(IrHelpers.SubFloat32Op)
    case MultiplyFloat32(_, _, _) => Some(IrHelpers.MultiplyFloat32Op)
    case DivideFloat32(_, _, _) => Some(IrHelpers.DivideFloat32Op)
    case AndBool(_, _, _) => Some(IrHelpers.AndInt32Op)
    case OrBool(_, _, _) => Some(IrHelpers.OrInt32Op)
    case _ => None
  }

  predicate IsFloatOperator(op: IrHelpers.BinaryOperator) {
    op.AddFloat32Op? || op.SubFloat32Op? || op.MultiplyFloat32Op? || op.DivideFloat32Op?
  }

  /** Both operands into the first two registers of the operation's class, operate, store the first. */
  function BinaryCode(env: Env, op: IrHelpers.BinaryOperator, dest: RegisterMir, op1: RegisterMir, op2: RegisterMir): seq<InstructionIR> {
    var float := IsFloatOperator(op);
    [LoadFrameMemory(First(float), Slot(env, op1)),
     LoadFrameMemory(Second(float), Slot(env, op2)),
     IrHelpers.RegReg(op, First(float), Second(float)),
     StoreFrameMemory(Slot(env, dest), First(float))]
  }

  /** The MIR instructions that combine a register with a constant, the operation and the 32-bit constant. */
  function ConstantOperatorOf(d: MirData): (r: Option<(IrHelpers.ConstantOperator, I32)>)
    ensures r.Some? <==> d.AddInt32Constant? || d.SubInt32Constant? || d.AndBoolConstant? || d.OrBoolConstant?
    ensures d.AndBoolConstant? || d.OrBoolConstant? ==> r.value.1 == if d.bconstant then 1 else 0
  {
    match d
    case AddInt32Constant(_, _, c) => Some((IrHelpers.AddConstant, c))
    case SubInt32Constant(_, _, c) => Some((IrHelpers.SubConstant, c))
    case AndBoolConstant(_, _, b) => Some((IrHelpers.AndConstant, if b then 1 else 0))
    case OrBoolConstant(_, _, b) => Some((IrHelpers.OrConstant, if b then 1 else 0))
    case _ => None
  }

  function ConstantCode(env: Env, op: IrHelpers.ConstantOperator, value: I32, dest: RegisterMir, op1: RegisterMir): seq<InstructionIR> {
    [LoadFrameMemory(Int(0), Slot(env, op1)), IrHelpers.RegConst(op, Int(0), value), StoreFrameMemory(Slot(env, dest), Int(0))]
  }

  /** The instructions that only put a value into the destination's slot. */
  predicate IsValueMove(d: MirData) {
    d.LoadInt32? || d.LoadFloat32? || d.LoadBool? || d.LoadNull? || d.Move? || d.LoadArgument?
  }

  /** Constants are stored directly (a float as its bit pattern, a Boolean as 1 or 0, null as 0); copies go through `Int(0)`. */
  function ValueMoveCode(env: Env, d: MirData): seq<InstructionIR>
    requires IsValueMove(d)
  {
    match d
    case LoadInt32(dest, v) => [MoveInt32ToFrameMemory(Slot(env, dest), v)]
    case LoadFloat32(dest, v) => [MoveInt32ToFrameMemory(Slot(env, dest), AsI32(v.bits))]
    case LoadBool(dest, b) => [MoveInt32ToFrameMemory(Slot(env, dest), if b then 1 else 0)]
    case LoadNull(dest) => [MoveInt32ToFrameMemory(Slot(env, dest), 0)]
    case Move(dest, source) => [LoadFrameMemory(Int(0), Slot(env, source)), StoreFrameMemory(Slot(env, dest), Int(0))]
    case LoadArgument(i, dest) => [LoadFrameMemory(Int(0), ArgumentStackOffset(i)), StoreFrameMemory(Slot(env, dest), Int(0))]
  }

  /** `Return`: the value, if any, into the return register, then the return. */
  function ReturnCode(env: Env, returnValue: Option<RegisterMir>): seq<InstructionIR> {
    (if returnValue.Some? then CallingConventions.MakeReturnCode(env.declaration.returnType, FrameMemory(Slot(env, returnValue.value))) else [])
    + [InstructionIR.Return]
  }

  /** Every argument is read from its register's slot. */
  function ArgumentSlots(env: Env, arguments: seq<RegisterMir>): (sources: seq<Variable>)
    ensures |sources| == |arguments|
    decreases |arguments|
  {
    if |arguments| == 0 then [] else ArgumentSlots(env, arguments[..|arguments| - 1]) + [FrameMemory(Slot(env, arguments[|arguments| - 1]))]
  }

  /** `Call`: the callee must be bound; its result, if kept, is taken from the return register. */
  function CallCode(env: Env, signature: Signature, callResult: Option<RegisterMir>, arguments: seq<RegisterMir>): Option<seq<InstructionIR>> {
    if signature !in env.functions then None
    else
      Some([InstructionIR.Call(signature, ArgumentSlots(env, arguments), 0)]
           + if callResult.Some? then CallingConventions.HandleReturnCode(env.functions[signature].returnType, FrameMemory(Slot(env, callResult.value))) else [])
  }

  /**
   * `can_be_null`: the register must hold a reference; a register without a recorded status may
   * be null. The statuses are indexed by position, which must be in range.
   */
  function CanBeNull(env: Env, position: nat, r: RegisterMir): (c: Option<bool>)
    ensures c.None? <==> !r.valueType.IsReference() || position >= |env.nullStatus|
    ensures c.Some? && r !in env.nullStatus[position] ==> c.value
  {
    if !r.valueType.IsReference() || position >= |env.nullStatus| then None
    else Some(if r in env.nullStatus[position] then env.nullStatus[position][r] else true)
  }

  function NullCheck(canBeNull: bool): seq<InstructionIR> {
    if canBeNull then [NullReferenceCheck(Int(0))] else []
  }

  /** The register a value of the type is carried in: the float class for `Float32`. */
  function ValueRegister(t: TypeId, index: nat): HardwareRegister {
    if t == Float32 then Float(index) else Int(index)
  }

  /** The heap instructions. */
  predicate IsHeap(d: MirData) {
    d.NewArray? || d.NewObject? || d.LoadElement? || d.StoreElement? || d.LoadArrayLength? || d.LoadField? || d.StoreField?
  }

  /** The heap instructions that dereference a register, and that register. */
  predicate Dereferences(d: MirData) {
    d.LoadElement? || d.StoreElement? || d.LoadArrayLength? || d.LoadField? || d.StoreField?
  }

  function Dereferenced(d: MirData): RegisterMir
    requires Dereferences(d)
  {
    if d.LoadField? || d.StoreField? then d.objectRef else d.arrayRef
  }

  /** Element and length access, given whether the reference may be null: the bounds check always precedes the access. */
  function ArrayCode(env: Env, d: MirData, canBeNull: bool): seq<InstructionIR>
    requires d.LoadElement? || d.StoreElement? || d.LoadArrayLength?
  {
    match d
    case LoadElement(element, dest, arrayRef, index) =>
      [LoadFrameMemory(Int(1), Slot(env, index)), LoadFrameMemory(Int(0), Slot(env, arrayRef))] + NullCheck(canBeNull)
      + [ArrayBoundsCheck(Int(0), Int(1)),
         InstructionIR.LoadElement(element, ValueRegister(element, 2), Int(0), Int(1)),
         StoreFrameMemory(Slot(env, dest), ValueRegister(element, 2))]
    case StoreElement(element, arrayRef, index, stored) =>
      [LoadFrameMemory(ValueRegister(element, 2), Slot(env, stored)),
       LoadFrameMemory(Int(1), Slot(env, index)),
       LoadFrameMemory(Int(0), Slot(env, arrayRef))] + NullCheck(canBeNull)
      + [ArrayBoundsCheck(Int(0), Int(1)), InstructionIR.StoreElement(element, Int(0), Int(1), ValueRegister(element, 2))]
    case LoadArrayLength(dest, arrayRef) =>
      [LoadFrameMemory(Int(0), Slot(env, arrayRef))] + NullCheck(canBeNull)
      + [InstructionIR.LoadArrayLength(IntSpill, Int(0)), StoreFrameMemory(Slot(env, dest), IntSpill)]
  }

  /** Field access, given the field's layout and whether the reference may be null. */
  function FieldCode(env: Env, d: MirData, field: FieldLayout, canBeNull: bool): seq<InstructionIR>
    requires d.LoadField? || d.StoreField?
  {
    var carrier := ValueRegister(field.fieldType, 1);
    match d
    case LoadField(_, _, dest, objectRef) =>
      [LoadFrameMemory(Int(0), Slot(env, objectRef))] + NullCheck(canBeNull)
      + [InstructionIR.LoadField(field.fieldType, field.offset, carrier, Int(0)), StoreFrameMemory(Slot(env, dest), carrier)]
    case StoreField(_, _, objectRef, stored) =>
      [LoadFrameMemory(carrier, Slot(env, stored)), LoadFrameMemory(Int(0), Slot(env, objectRef))] + NullCheck(canBeNull)
      + [InstructionIR.StoreField(field.fieldType, field.offset, Int(0), carrier)]
  }

  /** A new array or object; its reference comes back in the return register. */
  function AllocationCode(env: Env, d: MirData): seq<InstructionIR>
    requires d.NewArray? || d.NewObject?
  {
    match d
    case NewArray(element, dest, size) =>
      [LoadFrameMemory(Int(0), Slot(env, size)), InstructionIR.NewArray(element, Int(0), 0), StoreFrameMemoryExplicit(Slot(env, dest), ReturnValue)]
    case NewObject(classType, dest) =>
      [InstructionIR.NewObject(classType), StoreFrameMemoryExplicit(Slot(env, dest), ReturnValue)]
  }

  /** A field access: the field must exist and the reference's null status must be known. */
  function FieldAccessCode(env: Env, position: nat, d: MirData): Option<seq<InstructionIR>>
    requires d.LoadField? || d.StoreField?
  {
    if (d.classType, d.field) !in env.fields then None
    else match CanBeNull(env, position, d.objectRef)
      case None => None
      case Some(c) => Some(FieldCode(env, d, env.fields[(d.classType, d.field)], c))
  }

  /** An element or length access: the reference's null status must be known. */
  function ArrayAccessCode(env: Env, position: nat, d: MirData): Option<seq<InstructionIR>>
    requires d.LoadElement? || d.StoreElement? || d.LoadArrayLength?
  {
    match CanBeNull(env, position, d.arrayRef)
    case None => None
    case Some(c) => Some(ArrayCode(env, d, c))
  }

  /** The heap instructions. */
  function HeapCode(env: Env, position: nat, d: MirData): Option<seq<InstructionIR>>
    requires IsHeap(d)
  {
    if d.NewArray? || d.NewObject? then Some(AllocationCode(env, d))
    else if d.LoadField? || d.StoreField? then FieldAccessCode(env, position, d)
    else ArrayAccessCode(env, position, d)
  }

  /** A comparison is signed except between floats. */
  function Signed(compareType: TypeId): bool { compareType != Float32 }

  /** Both operands into the first two registers of their class, and the compare; `Void` cannot be compared. */
  function CompareOperandsCode(env: Env, compareType: TypeId, op1: RegisterMir, op2: RegisterMir): seq<InstructionIR>
    requires compareType != Void
  {
    var float := compareType == Float32;
    [LoadFrameMemory(First(float), Slot(env, op1)),
     LoadFrameMemory(Second(float), Slot(env, op2)),
     InstructionIR.Compare(if float then Float32 else Int32, First(float), Second(float))]
  }

  /** The runtime calls, labels, branches and compares. */
  predicate IsControl(d: MirData) {
    d.GarbageCollect? || d.PrintStackFrame? || d.BranchLabel? || d.Branch? || d.BranchCondition? || d.Compare?
  }

  function ControlCode(env: Env, position: nat, d: MirData): Option<seq<InstructionIR>>
    requires IsControl(d)
  {
    match d
    case GarbageCollect => Some([InstructionIR.GarbageCollect(position)])
    case PrintStackFrame => Some([InstructionIR.PrintStackFrame(position)])
    case BranchLabel(l) => Some([InstructionIR.BranchLabel(l)])
    case Branch(l) => Some([InstructionIR.Branch(l)])
    case BranchCondition(condition, compareType, l, op1, op2) =>
      if compareType == Void then None
      else Some(CompareOperandsCode(env, compareType, op1, op2) + [InstructionIR.BranchCondition(condition, Signed(compareType), l)])
    case Compare(condition, compareType, dest, op1, op2) =>
      if compareType == Void then None
      else Some(CompareOperandsCode(env, compareType, op1, op2)
                + [CompareResult(condition, Signed(compareType), Int(2)), StoreFrameMemory(Slot(env, dest), Int(2))])
  }

  /** The code of one MIR instruction after its marker. */
  function Body(env: Env, position: nat, d: MirData): Option<seq<InstructionIR>> {
    if BinaryOperatorOf(d).Some? then Some(BinaryCode(env, BinaryOperatorOf(d).value, d.dest, d.op1, d.op2))
    else if ConstantOperatorOf(d).Some? then Some(ConstantCode(env, ConstantOperatorOf(d).value.0, ConstantOperatorOf(d).value.1, d.dest, d.op1))
    else if IsValueMove(d) then Some(ValueMoveCode(env, d))
    else if d.Return? then Some(ReturnCode(env, d.returnValue))
    else if d.Call? then CallCode(env, d.signature, d.callResult, d.arguments)
    else if IsHeap(d) then HeapCode(env, position, d)
    else if IsControl(d) then ControlCode(env, position, d)
    else None
  }

  /** `compile_instruction`: the marker, then the body. */
  function InstructionCode(env: Env, position: nat, instruction: InstructionMir): Option<seq<InstructionIR>> {
    match Body(env, position, instruction.data)
    case None => None
    case Some(body) => Some([Marker(instruction.index, position)] + body)
  }

  /** The code of the first `k` instructions. */
  function InstructionsCode(env: Env, instructions: seq<InstructionMir>, k: nat): Option<seq<InstructionIR>>
    requires k <= |instructions|
    decreases k
  {
    if k == 0 then Some([])
    else match InstructionsCode(env, instructions, k - 1)
      case None => None
      case Some(code) =>
        match InstructionCode(env, k - 1, instructions[k - 1])
        case None => None
        case Some(more) => Some(code + more)
  }

  /** `compile` on a fresh compiler: the prologue, then every instruction in order; `None` if one panics. */
  function Compiled(env: Env, result: MirCompiler.MirCompilationResult): Option<seq<InstructionIR>> {
    match InstructionsCode(env, result.instructions, |result.instructions|)
    case None => None
    case Some(code) => Some(PrologueCode(env, result.needZeroInitializeRegisters) + code)
  }

  // ---------------------------------------------------------------------------------------------
  // The compiler object.

  /** `InstructionIRCompiler`: the borrowed inputs and the instruction list being built. */
  class InstructionIRCompiler {
    const env: Env
    const compilationResult: MirCompiler.MirCompilationResult
    const buffer: InstructionBuffer

    /** `new`: no instructions yet. */
    constructor (env: Env, compilationResult: MirCompiler.MirCompilationResult)
      ensures this.env == env && this.compilationResult == compilationResult
      ensures fresh(buffer) && buffer.instructions == []
    {
      this.env := env;
      this.compilationResult := compilationResult;
      buffer := new InstructionBuffer();
    }

    /** `compile_initialize_function`. */
    method CompileInitializeFunction()
      modifies buffer
      ensures buffer.instructions == old(buffer.instructions) + PrologueCode(env, compilationResult.needZeroInitializeRegisters)
    {
      ghost var start := buffer.instructions;
      buffer.Append([InitializeFunction]);
      if env.stackSize > 0 {
        buffer.Append([SubFromStackPointer(env.stackSize)]);
      }
      ghost var header := buffer.instructions;
      assert header == start + HeaderCode(env);
      var _ := CallingConventions.MoveArgumentsToStack(env.declaration.parameters, buffer);
      ghost var moved := buffer.instructions;
      CompileZeroing(IntSpill, compilationResult.needZeroInitializeRegisters);
      AppendAssociates(start, HeaderCode(env), CallingConventions.ArgumentsToFrameCode(env.declaration.parameters, 0));
      AppendAssociates(start, HeaderCode(env) + CallingConventions.ArgumentsToFrameCode(env.declaration.parameters, 0),
                       ZeroingCode(env, IntSpill, compilationResult.needZeroInitializeRegisters));
    }

    /** The zeroing part of the prologue. */
    method CompileZeroing(zero: HardwareRegister, needZero: seq<RegisterMir>)
      modifies buffer
      ensures buffer.instructions == old(buffer.instructions) + ZeroingCode(env, zero, needZero)
    {
      if |needZero| > 0 {
        ghost var start := buffer.instructions;
        buffer.Append([LoadZeroToRegister(zero)]);
        ghost var zeroed := buffer.instructions;
        for k := 0 to |needZero|
          invariant buffer.instructions == zeroed + ZeroStores(env, zero, needZero[..k])
        {
          assert needZero[..k + 1][..k] == needZero[..k];
          buffer.Append([StoreFrameMemory(Slot(env, needZero[k]), zero)]);
        }
        assert needZero[..|needZero|] == needZero;
        AppendAssociates(start, [LoadZeroToRegister(zero)], ZeroStores(env, zero, needZero));
      }
    }

    /** The arithmetic and logic instructions. */
    method CompileArithmetic(d: MirData)
      requires BinaryOperatorOf(d).Some? || ConstantOperatorOf(d).Some?
      modifies buffer
      ensures BinaryOperatorOf(d).Some? ==> buffer.instructions == old(buffer.instructions) + BinaryCode(env, BinaryOperatorOf(d).value, d.dest, d.op1, d.op2)
      ensures BinaryOperatorOf(d).None? ==>
        buffer.instructions == old(buffer.instructions) + ConstantCode(env, ConstantOperatorOf(d).value.0, ConstantOperatorOf(d).value.1, d.dest, d.op1)
    {
      var op := BinaryOperatorOf(d);
      if op.Some? {
        var float := IsFloatOperator(op.value);
        buffer.Append([LoadFrameMemory(First(float), Slot(env, d.op1)), LoadFrameMemory(Second(float), Slot(env, d.op2))]);
        buffer.Append([IrHelpers.RegReg(op.value, First(float), Second(float)), StoreFrameMemory(Slot(env, d.dest), First(float))]);
      } else {
        var constant := ConstantOperatorOf(d).value;
        buffer.Append([LoadFrameMemory(Int(0), Slot(env, d.op1))]);
        buffer.Append([IrHelpers.RegConst(constant.0, Int(0), constant.1), StoreFrameMemory(Slot(env, d.dest), Int(0))]);
      }
    }

    /** The constants, copies and argument loads. */
    method CompileValueMove(d: MirData)
      requires IsValueMove(d)
      modifies buffer
      ensures buffer.instructions == old(buffer.instructions) + ValueMoveCode(env, d)
    {
      match d {
        case LoadInt32(dest, v) => buffer.Append([MoveInt32ToFrameMemory(Slot(env, dest), v)]);
        case LoadFloat32(dest, v) => buffer.Append([MoveInt32ToFrameMemory(Slot(env, dest), AsI32(v.bits))]);
        case LoadBool(dest, b) => buffer.Append([MoveInt32ToFrameMemory(Slot(env, dest), if b then 1 else 0)]);
        case LoadNull(dest) => buffer.Append([MoveInt32ToFrameMemory(Slot(env, dest), 0)]);
        case Move(dest, source) =>
          buffer.Append([LoadFrameMemory(Int(0), Slot(env, source)), StoreFrameMemory(Slot(env, dest), Int(0))]);
        case LoadArgument(i, dest) =>
          buffer.Append([LoadFrameMemory(Int(0), ArgumentStackOffset(i)), StoreFrameMemory(Slot(env, dest), Int(0))]);
      }
    }

    /** `Return`. */
    method CompileReturn(returnValue: Option<RegisterMir>)
      modifies buffer
      ensures buffer.instructions == old(buffer.instructions) + ReturnCode(env, returnValue)
    {
      ghost var start := buffer.instructions;
      if returnValue.Some? {
        CallingConventions.MakeReturnValue(env.declaration.returnType, FrameMemory(Slot(env, returnValue.value)), buffer);
      }
      ghost var made := buffer.instructions;
      buffer.Append([InstructionIR.Return]);
      AppendAssociates(start, made[|start|..], [InstructionIR.Return]);
    }

    /** `Call`: `false` iff the callee is unbound. */
    method CompileCall(signature: Signature, callResult: Option<RegisterMir>, arguments: seq<RegisterMir>) returns (ok: bool)
      modifies buffer
      ensures ok <==> CallCode(env, signature, callResult, arguments).Some?
      ensures ok ==> buffer.instructions == old(buffer.instructions) + CallCode(env, signature, callResult, arguments).value
    {
      if signature !in env.functions {
        return false;
      }
      ghost var start := buffer.instructions;
      var callee := env.functions[signature];
      var sources := ArgumentSources(arguments);
      buffer.Append([InstructionIR.Call(signature, sources, 0)]);
      ghost var called := buffer.instructions;
      if callResult.Some? {
        CallingConventions.HandleReturnValue(callee.returnType, FrameMemory(Slot(env, callResult.value)), buffer);
      }
      AppendAssociates(start, [InstructionIR.Call(signature, sources, 0)], buffer.instructions[|called|..]);
      return true;
    }

    /** The `map` over the arguments to their slots. */
    method ArgumentSources(arguments: seq<RegisterMir>) returns (sources: seq<Variable>)
      ensures sources == ArgumentSlots(env, arguments)
    {
      sources := [];
      for k := 0 to |arguments|
        invariant sources == ArgumentSlots(env, arguments[..k])
      {
        assert arguments[..k + 1][..k] == arguments[..k];
        sources := sources + [FrameMemory(Slot(env, arguments[k]))];
      }
      assert arguments[..|arguments|] == arguments;
    }

    /** `can_be_null`. */
    method CanBeNullAt(position: nat, r: RegisterMir) returns (c: Option<bool>)
      ensures c == CanBeNull(env, position, r)
    {
      if !r.valueType.IsReference() || position >= |env.nullStatus| {
        return None;
      }
      var status := env.nullStatus[position];
      c := Some(if r in status then status[r] else true);
    }

    /** The null check emitted iff the reference may be null. */
    method CompileNullCheck(canBeNull: bool)
      modifies buffer
      ensures buffer.instructions == old(buffer.instructions) + NullCheck(canBeNull)
    {
      if canBeNull {
        buffer.Append([NullReferenceCheck(Int(0))]);
      }
    }

    /** A new array or object. */
    method CompileAllocation(d: MirData)
      requires d.NewArray? || d.NewObject?
      modifies buffer
      ensures buffer.instructions == old(buffer.instructions) + AllocationCode(env, d)
    {
      match d {
        case NewArray(element, dest, size) =>
          buffer.Append([LoadFrameMemory(Int(0), Slot(env, size)), InstructionIR.NewArray(element, Int(0), 0)]);
          buffer.Append([StoreFrameMemoryExplicit(Slot(env, dest), ReturnValue)]);
        case NewObject(classType, dest) =>
          buffer.Append([InstructionIR.NewObject(classType)]);
          buffer.Append([StoreFrameMemoryExplicit(Slot(env, dest), ReturnValue)]);
      }
    }

    /** Element and length access, once the null status is known. */
    method CompileArrayCode(d: MirData, canBeNull: bool)
      requires d.LoadElement? || d.StoreElement? || d.LoadArrayLength?
      modifies buffer
      ensures buffer.instructions == old(buffer.instructions) + ArrayCode(env, d, canBeNull)
    {
      ghost var start := buffer.instructions;
      var before: seq<InstructionIR>;
      var after: seq<InstructionIR>;
      match d {
        case LoadElement(element, dest, arrayRef, index) =>
          var returnValue := ValueRegister(element, 2);
          before := [LoadFrameMemory(Int(1), Slot(env, index)), LoadFrameMemory(Int(0), Slot(env, arrayRef))];
          after := [ArrayBoundsCheck(Int(0), Int(1)), InstructionIR.LoadElement(element, returnValue, Int(0), Int(1)),
                    StoreFrameMemory(Slot(env, dest), returnValue)];
        case StoreElement(element, arrayRef, index, stored) =>
          var valueRegister := ValueRegister(element, 2);
          before := [LoadFrameMemory(valueRegister, Slot(env, stored)), LoadFrameMemory(Int(1), Slot(env, index)),
                     LoadFrameMemory(Int(0), Slot(env, arrayRef))];
          after := [ArrayBoundsCheck(Int(0), Int(1)), InstructionIR.StoreElement(element, Int(0), Int(1), valueRegister)];
        case LoadArrayLength(dest, arrayRef) =>
          before := [LoadFrameMemory(Int(0), Slot(env, arrayRef))];
          after := [InstructionIR.LoadArrayLength(IntSpill, Int(0)), StoreFrameMemory(Slot(env, dest), IntSpill)];
      }
      assert ArrayCode(env, d, canBeNull) == before + NullCheck(canBeNull) + after;
      buffer.Append(before);
      CompileNullCheck(canBeNull);
      buffer.Append(after);
      AppendAssociates(start, before, NullCheck(canBeNull));
      AppendAssociates(start, before + NullCheck(canBeNull), after);
    }

    /** Field access, once the layout and the null status are known. */
    method CompileFieldCode(d: MirData, field: FieldLayout, canBeNull: bool)
      requires d.LoadField? || d.StoreField?
      modifies buffer
      ensures buffer.instructions == old(buffer.instructions) + FieldCode(env, d, field, canBeNull)
    {
      ghost var start := buffer.instructions;
      var carrier := ValueRegister(field.fieldType, 1);
      var before: seq<InstructionIR>;
      var after: seq<InstructionIR>;
      match d {
        case LoadField(_, _, dest, objectRef) =>
          before := [LoadFrameMemory(Int(0), Slot(env, objectRef))];
          after := [InstructionIR.LoadField(field.fieldType, field.offset, carrier, Int(0)), StoreFrameMemory(Slot(env, dest), carrier)];
        case StoreField(_, _, objectRef, stored) =>
          before := [LoadFrameMemory(carrier, Slot(env, stored)), LoadFrameMemory(Int(0), Slot(env, objectRef))];
          after := [InstructionIR.StoreField(field.fieldType, field.offset, Int(0), carrier)];
      }
      assert FieldCode(env, d, field, canBeNull) == before + NullCheck(canBeNull) + after;
      buffer.Append(before);
      CompileNullCheck(canBeNull);
      buffer.Append(after);
      AppendAssociates(start, before, NullCheck(canBeNull));
      AppendAssociates(start, before + NullCheck(canBeNull), after);
    }

    /** The heap instructions: `false` iff a field is missing or a null status is unknown. */
    method CompileHeap(position: nat, d: MirData) returns (ok: bool)
      requires IsHeap(d)
      modifies buffer
      ensures ok <==> HeapCode(env, position, d).Some?
      ensures ok ==> buffer.instructions == old(buffer.instructions) + HeapCode(env, position, d).value
    {
      if d.NewArray? || d.NewObject? {
        CompileAllocation(d);
        return true;
      }
      var c: Option<bool>;
      if d.LoadField? || d.StoreField? {
        if (d.classType, d.field) !in env.fields {
          return false;
        }
        c := CanBeNullAt(position, d.objectRef);
        if c.None? {
          return false;
        }
        CompileFieldCode(d, env.fields[(d.classType, d.field)], c.value);
        return true;
      }
      c := CanBeNullAt(position, d.arrayRef);
      if c.None? {
        return false;
      }
      CompileArrayCode(d, c.value);
      return true;
    }

    /** The compare shared by conditional branches and compares. */
    method CompileCompareOperands(compareType: TypeId, op1: RegisterMir, op2: RegisterMir) returns (signed: bool)
      requires compareType != Void
      modifies buffer
      ensures signed == Signed(compareType)
      ensures buffer.instructions == old(buffer.instructions) + CompareOperandsCode(env, compareType, op1, op2)
    {
      if compareType == Float32 {
        buffer.Append([LoadFrameMemory(Float(0), Slot(env, op1)), LoadFrameMemory(Float(1), Slot(env, op2)),
                       InstructionIR.Compare(Float32, Float(0), Float(1))]);
        signed := false;
      } else {
        buffer.Append([LoadFrameMemory(Int(0), Slot(env, op1)), LoadFrameMemory(Int(1), Slot(env, op2)),
                       InstructionIR.Compare(Int32, Int(0), Int(1))]);
        signed := true;
      }
    }

    /** The runtime calls, labels, branches and compares: `false` iff a `Void` comparison. */
    method CompileControl(position: nat, d: MirData) returns (ok: bool)
      requires IsControl(d)
      modifies buffer
      ensures ok <==> ControlCode(env, position, d).Some?
      ensures ok ==> buffer.instructions == old(buffer.instructions) + ControlCode(env, position, d).value
    {
      ghost var start := buffer.instructions;
      match d {
        case GarbageCollect => buffer.Append([InstructionIR.GarbageCollect(position)]);
        case PrintStackFrame => buffer.Append([InstructionIR.PrintStackFrame(position)]);
        case BranchLabel(l) => buffer.Append([InstructionIR.BranchLabel(l)]);
        case Branch(l) => buffer.Append([InstructionIR.Branch(l)]);
        case BranchCondition(condition, compareType, l, op1, op2) =>
          if compareType == Void { return false; }
          var signed := CompileCompareOperands(compareType, op1, op2);
          buffer.Append([InstructionIR.BranchCondition(condition, signed, l)]);
          AppendAssociates(start, CompareOperandsCode(env, compareType, op1, op2), [InstructionIR.BranchCondition(condition, signed, l)]);
        case Compare(condition, compareType, dest, op1, op2) =>
          if compareType == Void { return false; }
          var signed := CompileCompareOperands(compareType, op1, op2);
          buffer.Append([CompareResult(condition, signed, Int(2)), StoreFrameMemory(Slot(env, dest), Int(2))]);
          AppendAssociates(start, CompareOperandsCode(env, compareType, op1, op2),
                           [CompareResult(condition, signed, Int(2)), StoreFrameMemory(Slot(env, dest), Int(2))]);
      }
      return true;
    }

    /** The match of `compile_instruction` after the marker. */
    method CompileBody(position: nat, d: MirData) returns (ok: bool)
      modifies buffer
      ensures ok <==> Body(env, position, d).Some?
      ensures ok ==> buffer.instructions == old(buffer.instructions) + Body(env, position, d).value
    {
      if BinaryOperatorOf(d).Some? || ConstantOperatorOf(d).Some? {
        CompileArithmetic(d);
        ok := true;
      } else if IsValueMove(d) {
        CompileValueMove(d);
        ok := true;
      } else if d.Return? {
        CompileReturn(d.returnValue);
        ok := true;
      } else if d.Call? {
        ok := CompileCall(d.signature, d.callResult, d.arguments);
      } else if IsHeap(d) {
        ok := CompileHeap(position, d);
      } else if IsControl(d) {
        ok := CompileControl(position, d);
      } else {
        ok := false;
      }
    }

    /** `compile_instruction`: `true` iff the instruction does not panic, and then its code is appended. */
    method CompileInstruction(position: nat, instruction: InstructionMir) returns (ok: bool)
      modifies buffer
      ensures ok <==> InstructionCode(env, position, instruction).Some?
      ensures ok ==> buffer.instructions == old(buffer.instructions) + InstructionCode(env, position, instruction).value
    {
      ghost var start := buffer.instructions;
      buffer.Append([Marker(instruction.index, position)]);
      ok := CompileBody(position, instruction.data);
      if ok {
        AppendAssociates(start, [Marker(instruction.index, position)], Body(env, position, instruction.data).value);
      }
    }

    /** `compile`: `true` iff no instruction panics, and then the code is the prologue and every instruction's code. */
    method Compile() returns (ok: bool)
      modifies buffer
      ensures ok <==> Compiled(env, compilationResult).Some?
      ensures ok ==> buffer.instructions == old(buffer.instructions) + Compiled(env, compilationResult).value
    {
      ghost var start := buffer.instructions;
      CompileInitializeFunction();
      ghost var prologue := buffer.instructions;
      ok := CompileInstructions();
      if ok {
        AppendAssociates(start, PrologueCode(env, compilationResult.needZeroInitializeRegisters),
                         InstructionsCode(env, compilationResult.instructions, |compilationResult.instructions|).value);
      }
    }

    /** The loop of `compile` over the instructions. */
    method CompileInstructions() returns (ok: bool)
      modifies buffer
      ensures ok <==> InstructionsCode(env, compilationResult.instructions, |compilationResult.instructions|).Some?
      ensures ok ==> buffer.instructions == old(buffer.instructions) + InstructionsCode(env, compilationResult.instructions, |compilationResult.instructions|).value
    {
      ghost var start := buffer.instructions;
      var instructions := compilationResult.instructions;
      for position := 0 to |instructions|
        invariant InstructionsCode(env, instructions, position).Some?
        invariant buffer.instructions == start + InstructionsCode(env, instructions, position).value
      {
        ok := CompileNext(instructions, position, start);
        if !ok {
          return;
        }
      }
      ok := true;
    }

    /** One turn of the loop: instruction `position` extends the code, or its panic ends the compilation. */
    method CompileNext(instructions: seq<InstructionMir>, position: nat, ghost start: seq<InstructionIR>) returns (ok: bool)
      requires position < |instructions| && InstructionsCode(env, instructions, position).Some?
      requires buffer.instructions == start + InstructionsCode(env, instructions, position).value
      modifies buffer
      ensures ok ==> InstructionsCode(env, instructions, position + 1).Some?
      ensures ok ==> buffer.instructions == start + InstructionsCode(env, instructions, position + 1).value
      ensures !ok ==> InstructionsCode(env, instructions, |instructions|).None?
    {
      ok := CompileInstruction(position, instructions[position]);
      if !ok {
        CodeStopsAtPanic(env, instructions, position + 1, |instructions|);
        return;
      }
      ghost var more := InstructionCode(env, position, instructions[position]).value;
      CodeGrows(env, instructions, position, more);
      AppendAssociates(start, InstructionsCode(env, instructions, position).value, more);
    }

    /** `done`. */
    function Done(): (code: seq<InstructionIR>)
      reads buffer
      ensures code == buffer.instructions
    {
      buffer.instructions
    }
  }

  lemma AppendAssociates(a: seq<InstructionIR>, b: seq<InstructionIR>, c: seq<InstructionIR>)
    ensures (a + b) + c == a + (b + c)
  {
  }

  /** The code of one more instruction extends the code of the prefix. */
  lemma CodeGrows(env: Env, instructions: seq<InstructionMir>, k: nat, more: seq<InstructionIR>)
    requires k < |instructions| && InstructionsCode(env, instructions, k).Some? && InstructionCode(env, k, instructions[k]) == Some(more)
    ensures InstructionsCode(env, instructions, k + 1) == Some(InstructionsCode(env, instructions, k).value + more)
  {
  }

  /** A panic at instruction `k - 1` leaves every longer prefix without code. */
  lemma {:induction false} CodeStopsAtPanic(env: Env, instructions: seq<InstructionMir>, k: nat, n: nat)
    requires 0 < k <= n <= |instructions| && InstructionCode(env, k - 1, instructions[k - 1]).None?
    ensures InstructionsCode(env, instructions, n).None?
    decreases n
  {
    if n > k {
      CodeStopsAtPanic(env, instructions, k, n - 1);
    }
  }

  /** Compiling with a fresh compiler gives `Compiled`. */
  method CompileFunction(env: Env, compilationResult: MirCompiler.MirCompilationResult) returns (code: Option<seq<InstructionIR>>)
    ensures code == Compiled(env, compilationResult)
  {
    var compiler := new InstructionIRCompiler(env, compilationResult);
    var ok := compiler.Compile();
    assert ok ==> compiler.buffer.instructions == Compiled(env, compilationResult).value;
    code := if ok then Some(compiler.Done()) else None;
  }

  // ---------------------------------------------------------------------------------------------
  // What the code does.

  /** The zeroing stores are one store of `zero` per register, in the given order. */
  lemma {:induction false} ZeroStoresAt(env: Env, zero: HardwareRegister, registers: seq<RegisterMir>)
    ensures forall k :: 0 <= k < |registers| ==> ZeroStores(env, zero, registers)[k] == StoreFrameMemory(Slot(env, registers[k]), zero)
    decreases |registers|
  {
    if |registers| > 0 {
      var init := registers[..|registers| - 1];
      ZeroStoresAt(env, zero, init);
      assert forall k :: 0 <= k < |init| ==> registers[k] == init[k];
    }
  }

  /** The zeroing code: `zero` zeroed once, then one store per register, in order. */
  lemma ZeroingShape(env: Env, zero: HardwareRegister, needZero: seq<RegisterMir>)
    ensures var z := ZeroingCode(env, zero, needZero);
      && |z| == (if |needZero| > 0 then |needZero| + 1 else 0)
      && (|needZero| > 0 ==> z[0] == LoadZeroToRegister(zero))
      && (forall k :: 0 <= k < |needZero| ==> z[k + 1] == StoreFrameMemory(Slot(env, needZero[k]), zero))
      && (forall k :: 0 <= k < |z| ==> !z[k].SubFromStackPointer?)
  {
    ZeroStoresAt(env, zero, needZero);
  }

  /**
   * The prologue enters the function and reserves the frame exactly when it is not empty, right
   * after the entry and at no other point.
   */
  lemma PrologueReserves(env: Env, needZero: seq<RegisterMir>)
    ensures var code := PrologueCode(env, needZero);
      && code[0] == InitializeFunction
      && (env.stackSize > 0 <==> |code| > 1 && code[1] == SubFromStackPointer(env.stackSize))
      && (forall k :: 1 < k < |code| ==> !code[k].SubFromStackPointer?)
  {
    var header := HeaderCode(env);
    var rest := CallingConventions.ArgumentsToFrameCode(env.declaration.parameters, 0) + ZeroingCode(env, IntSpill, needZero);
    var code := PrologueCode(env, needZero);
    assert code == header + rest;
    ArgumentsNeverReserve(env.declaration.parameters, 0);
    ZeroingShape(env, IntSpill, needZero);
    NoReserveAppend(CallingConventions.ArgumentsToFrameCode(env.declaration.parameters, 0), ZeroingCode(env, IntSpill, needZero));
    assert forall k :: |header| <= k < |code| ==> code[k] == rest[k - |header|];
  }

  /** Two pieces of code that never reserve the frame, one after the other, never do either. */
  lemma NoReserveAppend(a: seq<InstructionIR>, b: seq<InstructionIR>)
    requires forall k :: 0 <= k < |a| ==> !a[k].SubFromStackPointer?
    requires forall k :: 0 <= k < |b| ==> !b[k].SubFromStackPointer?
    ensures forall k :: 0 <= k < |a + b| ==> !(a + b)[k].SubFromStackPointer?
  {
    assert forall k :: |a| <= k < |a + b| ==> (a + b)[k] == b[k - |a|];
  }

  /**
   * The prologue ends, after the argument copies, with zeroing the spill register once and
   * storing it into the slot of each register that needs it, in order; with no such register it
   * ends with the argument copies.
   */
  lemma PrologueEndsZeroing(env: Env, needZero: seq<RegisterMir>)
    ensures var code := PrologueCode(env, needZero);
      var zeroing := if |needZero| > 0 then |needZero| + 1 else 0;
      && |code| >= zeroing + 1
      && code[..|code| - zeroing] == HeaderCode(env) + CallingConventions.ArgumentsToFrameCode(env.declaration.parameters, 0)
      && (|needZero| > 0 ==> code[|code| - zeroing] == LoadZeroToRegister(IntSpill))
      && (forall k :: 0 <= k < |needZero| ==> code[|code| - |needZero| + k] == StoreFrameMemory(Slot(env, needZero[k]), IntSpill))
  {
    var front := HeaderCode(env) + CallingConventions.ArgumentsToFrameCode(env.declaration.parameters, 0);
    var z := ZeroingCode(env, IntSpill, needZero);
    var code := PrologueCode(env, needZero);
    assert code == front + z;
    ZeroingShape(env, IntSpill, needZero);
    assert forall k :: 0 <= k < |z| ==> code[|front| + k] == z[k];
    assert code[..|front|] == front;
  }

  /** The argument copies are loads, stores and register moves: none of them reserves the frame. */
  lemma {:induction false} ArgumentsNeverReserve(parameters: seq<TypeId>, from: nat)
    ensures forall k :: 0 <= k < |CallingConventions.ArgumentsToFrameCode(parameters, from)| ==>
      !CallingConventions.ArgumentsToFrameCode(parameters, from)[k].SubFromStackPointer?
    decreases |parameters| - from
  {
    if from < |parameters| {
      ArgumentsNeverReserve(parameters, from + 1);
    }
  }

  /**
   * Running the zeroing stores with `zero` holding 0 writes 0 into every listed
   * register's slot and leaves every other slot, every register and the operand stack as they were.
   */
  lemma {:induction false} ZeroStoresZero(m: Machine, env: Env, zero: HardwareRegister, registers: seq<RegisterMir>)
    requires m.HardwareValue(zero) == 0
    ensures var r := Run(m, ZeroStores(env, zero, registers));
      && r.Some?
      && (forall k :: 0 <= k < |registers| ==> r.value.FrameValue(Slot(env, registers[k])) == 0)
      && (forall o :: (forall k :: 0 <= k < |registers| ==> Slot(env, registers[k]) != o) ==> r.value.FrameValue(o) == m.FrameValue(o))
      && r.value.hardware == m.hardware && r.value.explicit == m.explicit && r.value.stack == m.stack
    decreases |registers|
  {
    if |registers| > 0 {
      var init := registers[..|registers| - 1];
      var last := StoreFrameMemory(Slot(env, registers[|registers| - 1]), zero);
      ZeroStoresZero(m, env, zero, init);
      var n := Run(m, ZeroStores(env, zero, init)).value;
      RunAppend(m, ZeroStores(env, zero, init), [last]);
      assert [last][1..] == [];
      var final := n.Write(FrameMemory(Slot(env, registers[|registers| - 1])), 0);
      assert Run(m, ZeroStores(env, zero, registers)) == Some(final);
      assert forall k :: 0 <= k < |init| ==> registers[k] == init[k];
    }
  }

  /**
   * The zeroing part of the prologue leaves 0 in the slot of every register that needs it and
   * changes no other slot; the only register it changes is `zero`, to 0.
   */
  lemma ZeroingZeroes(m: Machine, env: Env, zero: HardwareRegister, needZero: seq<RegisterMir>)
    ensures var r := Run(m, ZeroingCode(env, zero, needZero));
      && r.Some?
      && (forall k :: 0 <= k < |needZero| ==> r.value.FrameValue(Slot(env, needZero[k])) == 0)
      && (forall o :: (forall k :: 0 <= k < |needZero| ==> Slot(env, needZero[k]) != o) ==> r.value.FrameValue(o) == m.FrameValue(o))
      && r.value.hardware == (if |needZero| > 0 then m.hardware[zero := 0] else m.hardware)
      && r.value.explicit == m.explicit && r.value.stack == m.stack
  {
    if |needZero| > 0 {
      var zeroed := m.Write(Register(zero), 0);
      RunAppend(m, [LoadZeroToRegister(zero)], ZeroStores(env, zero, needZero));
      assert [LoadZeroToRegister(zero)][1..] == [];
      assert Run(m, [LoadZeroToRegister(zero)]) == Some(zeroed);
      ZeroStoresZero(zeroed, env, zero, needZero);
    }
  }

  /** Four instructions, one after the other. */
  lemma RunWithFour(m: Machine, a: InstructionIR, b: InstructionIR, c: InstructionIR, d: InstructionIR, f: (int, int) -> int)
    ensures IrHelpers.RunWith(m, [a, b, c, d], f) ==
      match IrHelpers.RunWith(m, [a, b], f) case None => None case Some(n) => IrHelpers.RunWith(n, [c, d], f)
  {
    assert [a, b, c, d] == [a, b] + [c, d];
    IrHelpers.RunWithAppend(m, [a, b], [c, d], f);
  }

  /**
   * A two-register operation: with `f` for what the operation computes, the destination's slot
   * ends up holding `f` of the two operands' slots, and no other slot, machine register or the
   * operand stack changes.
   */
  lemma BinaryComputes(m: Machine, env: Env, op: IrHelpers.BinaryOperator, dest: RegisterMir, op1: RegisterMir, op2: RegisterMir, f: (int, int) -> int)
    ensures StoresOnly(m, IrHelpers.RunWith(m, BinaryCode(env, op, dest, op1, op2), f), Slot(env, dest),
                       f(m.FrameValue(Slot(env, op1)), m.FrameValue(Slot(env, op2))))
  {
    var float := IsFloatOperator(op);
    var x := m.FrameValue(Slot(env, op1));
    var y := m.FrameValue(Slot(env, op2));
    var load1 := LoadFrameMemory(First(float), Slot(env, op1));
    var load2 := LoadFrameMemory(Second(float), Slot(env, op2));
    var operate := IrHelpers.RegReg(op, First(float), Second(float));
    var store := StoreFrameMemory(Slot(env, dest), First(float));
    var m2 := m.Write(Register(First(float)), x).Write(Register(Second(float)), y);
    var m4 := m2.Write(Register(First(float)), f(x, y)).Write(FrameMemory(Slot(env, dest)), f(x, y));
    LoadOperands(m, float, Slot(env, op1), Slot(env, op2), f);
    OperateAndStore(m2, op, float, Slot(env, dest), f);
    RunWithFour(m, load1, load2, operate, store, f);
    assert BinaryCode(env, op, dest, op1, op2) == [load1, load2, operate, store];
  }

  /** Loading the two operand slots into the first two registers of their class. */
  lemma LoadOperands(m: Machine, float: bool, s1: int, s2: int, f: (int, int) -> int)
    ensures var n := IrHelpers.RunWith(m, [LoadFrameMemory(First(float), s1), LoadFrameMemory(Second(float), s2)], f);
      && n == Some(m.Write(Register(First(float)), m.FrameValue(s1)).Write(Register(Second(float)), m.FrameValue(s2)))
      && n.value.HardwareValue(First(float)) == m.FrameValue(s1) && n.value.HardwareValue(Second(float)) == m.FrameValue(s2)
  {
    IrHelpers.RunWithTwo(m, LoadFrameMemory(First(float), s1), LoadFrameMemory(Second(float), s2), f);
  }

  /** Combining the first two registers into the first and storing it into the slot. */
  lemma OperateAndStore(m: Machine, op: IrHelpers.BinaryOperator, float: bool, slot: int, f: (int, int) -> int)
    ensures var v := f(m.HardwareValue(First(float)), m.HardwareValue(Second(float)));
      var n := IrHelpers.RunWith(m, [IrHelpers.RegReg(op, First(float), Second(float)), StoreFrameMemory(slot, First(float))], f);
      && n == Some(m.Write(Register(First(float)), v).Write(FrameMemory(slot), v))
      && StoresOnly(m, n, slot, v)
  {
    var operate := IrHelpers.RegReg(op, First(float), Second(float));
    IrHelpers.RunWithTwo(m, operate, StoreFrameMemory(slot, First(float)), f);
    assert IrHelpers.EffectWith(m, operate, f) == Some(m.Write(Register(First(float)), f(m.HardwareValue(First(float)), m.HardwareValue(Second(float)))));
  }

  /**
   * An operation with a constant: with `f` for what the operation computes, the destination's
   * slot ends up holding `f` of the operand's slot and the constant, and no other slot changes.
   */
  lemma ConstantComputes(m: Machine, env: Env, op: IrHelpers.ConstantOperator, value: I32, dest: RegisterMir, op1: RegisterMir, f: (int, int) -> int)
    ensures StoresOnly(m, IrHelpers.RunWith(m, ConstantCode(env, op, value, dest, op1), f), Slot(env, dest), f(m.FrameValue(Slot(env, op1)), value))
  {
    var x := m.FrameValue(Slot(env, op1));
    var load := LoadFrameMemory(Int(0), Slot(env, op1));
    var operate := IrHelpers.RegConst(op, Int(0), value);
    var store := StoreFrameMemory(Slot(env, dest), Int(0));
    var m1 := m.Write(Register(Int(0)), x);
    var m2 := m1.Write(Register(Int(0)), f(x, value));
    var m3 := m2.Write(FrameMemory(Slot(env, dest)), f(x, value));
    IrHelpers.RunWithThree(m, load, operate, store, f);
    IrHelpers.RunWithTwo(m1, operate, store, f);
    assert IrHelpers.EffectWith(m1, operate, f) == Some(m2);
  }

  /** The value a constant, copy or argument load puts into its destination, read from the machine before it. */
  function MovedValue(m: Machine, env: Env, d: MirData): int
    requires IsValueMove(d)
  {
    match d
    case LoadInt32(_, v) => v
    case LoadFloat32(_, v) => AsI32(v.bits)
    case LoadBool(_, b) => if b then 1 else 0
    case LoadNull(_) => 0
    case Move(_, source) => m.FrameValue(Slot(env, source))
    case LoadArgument(i, _) => m.FrameValue(ArgumentStackOffset(i))
  }

  /**
   * A constant, copy or argument load stores its value into the destination's slot and changes
   * no other slot, no machine register and not the operand stack; null is 0, a Boolean 1 or 0,
   * and a float its bit pattern.
   */
  lemma ValueMoveStores(m: Machine, env: Env, d: MirData)
    requires IsValueMove(d)
    ensures StoresOnly(m, Run(m, ValueMoveCode(env, d)), Slot(env, d.dest), MovedValue(m, env, d))
  {
    var code := ValueMoveCode(env, d);
    if |code| == 2 {
      var m1 := m.Write(Register(Int(0)), m.FrameValue(code[0].offset));
      var m2 := m1.Write(FrameMemory(Slot(env, d.dest)), MovedValue(m, env, d));
      assert Effect(m, code[0]) == Some(m1);
      assert code[1..][1..] == [];
      assert Run(m1, code[1..]) == Some(m2);
    } else {
      assert code[1..] == [];
    }
  }

  /**
   * `Return` moves the value, if there is one and the function does not return `Void`, from its
   * slot into the return register of its class, changing nothing else, and then returns.
   */
  lemma ReturnMovesValue(m: Machine, env: Env, returnValue: RegisterMir)
    ensures var code := ReturnCode(env, Some(returnValue));
      && code[|code| - 1] == InstructionIR.Return
      && (env.declaration.returnType == Void ==> |code| == 1)
      && (env.declaration.returnType != Void ==>
            var r := CallingConventions.ReturnRegister(env.declaration.returnType).value;
            Run(m, code[..|code| - 1]) == Some(m.Write(RegisterExplicit(r), m.FrameValue(Slot(env, returnValue)))))
  {
    var t := env.declaration.returnType;
    var made := CallingConventions.MakeReturnCode(t, FrameMemory(Slot(env, returnValue)));
    assert ReturnCode(env, Some(returnValue))[..|made|] == made;
    if t != Void {
      var r := CallingConventions.ReturnRegister(t).value;
      assert made == MoveToExplicit(FrameMemory(Slot(env, returnValue)), r);
      MoveToExplicitMoves(m, FrameMemory(Slot(env, returnValue)), r);
    }
  }

  /** The call passes every argument from its register's slot, in order. */
  lemma {:induction false} ArgumentSlotsAt(env: Env, arguments: seq<RegisterMir>)
    ensures forall k :: 0 <= k < |arguments| ==> ArgumentSlots(env, arguments)[k] == FrameMemory(Slot(env, arguments[k]))
    decreases |arguments|
  {
    if |arguments| > 0 {
      var init := arguments[..|arguments| - 1];
      ArgumentSlotsAt(env, init);
      assert forall k :: 0 <= k < |init| ==> arguments[k] == init[k];
    }
  }

  /**
   * A call panics exactly when its callee is unbound; otherwise it is the call itself, with every
   * argument read from its slot, followed, when the result is kept, by its move from the return
   * register of the callee's return type into the result's slot.
   */
  lemma CallShape(m: Machine, env: Env, signature: Signature, callResult: Option<RegisterMir>, arguments: seq<RegisterMir>)
    ensures CallCode(env, signature, callResult, arguments).None? <==> signature !in env.functions
    ensures signature in env.functions ==>
      var code := CallCode(env, signature, callResult, arguments).value;
      var t := env.functions[signature].returnType;
      && code[0].Call? && code[0].signature == signature && |code[0].arguments| == |arguments|
      && (forall k :: 0 <= k < |arguments| ==> code[0].arguments[k] == FrameMemory(Slot(env, arguments[k])))
      && (callResult.None? || t == Void ==> |code| == 1)
      && (callResult.Some? && t != Void ==>
            var r := CallingConventions.ReturnRegister(t).value;
            Run(m, code[1..]) == Some(m.Write(FrameMemory(Slot(env, callResult.value)), m.ExplicitValue(r))))
  {
    ArgumentSlotsAt(env, arguments);
    if signature in env.functions && callResult.Some? {
      var t := env.functions[signature].returnType;
      var code := CallCode(env, signature, callResult, arguments).value;
      assert code[1..] == CallingConventions.HandleReturnCode(t, FrameMemory(Slot(env, callResult.value)));
      if t != Void {
        var r := CallingConventions.ReturnRegister(t).value;
        assert code[1..] == MoveFromExplicit(FrameMemory(Slot(env, callResult.value)), r);
        MoveFromExplicitWrites(m, FrameMemory(Slot(env, callResult.value)), r);
      }
    }
  }

  // ---------------------------------------------------------------------------------------------
  // Checks, signedness and panics.

  /**
   * A dereferencing instruction checks its reference for null exactly when the null status says
   * it may be null (a register with no recorded status may be); it cannot be compiled when the
   * register is not a reference or the position has no statuses, nor a field access whose field
   * is unknown.
   */
  lemma NullCheckIffMayBeNull(env: Env, position: nat, d: MirData)
    requires Dereferences(d)
    ensures HeapCode(env, position, d).None? <==>
      CanBeNull(env, position, Dereferenced(d)).None? || ((d.LoadField? || d.StoreField?) && (d.classType, d.field) !in env.fields)
    ensures HeapCode(env, position, d).Some? ==>
      (NullReferenceCheck(Int(0)) in HeapCode(env, position, d).value <==> CanBeNull(env, position, Dereferenced(d)).value)
  {
  }

  /**
   * An element access is guarded: the instruction right before it is the bounds check of the
   * reference and index registers, and right before that comes the null check exactly when the
   * reference may be null.
   */
  lemma ElementAccessGuarded(env: Env, position: nat, d: MirData)
    requires d.LoadElement? || d.StoreElement?
    requires HeapCode(env, position, d).Some?
    ensures Guarded(HeapCode(env, position, d).value, d, CanBeNull(env, position, d.arrayRef).value)
  {
    var c := CanBeNull(env, position, d.arrayRef).value;
    assert HeapCode(env, position, d).value == ArrayCode(env, d, c);
    ArrayCodeGuarded(env, d, c);
  }

  /**
   * The element access of `d` sits at its place in `code` (second to last for a load, last for a
   * store) right after the bounds check of `Int(0)` against `Int(1)`, and the instruction before
   * that is the null check exactly when `canBeNull` holds.
   */
  predicate Guarded(code: seq<InstructionIR>, d: MirData, canBeNull: bool)
    requires d.LoadElement? || d.StoreElement?
  {
    var j := if d.LoadElement? then |code| - 2 else |code| - 1;
    && 2 <= j < |code|
    && (d.LoadElement? ==> code[j] == InstructionIR.LoadElement(d.element, ValueRegister(d.element, 2), Int(0), Int(1)))
    && (d.StoreElement? ==> code[j] == InstructionIR.StoreElement(d.element, Int(0), Int(1), ValueRegister(d.element, 2)))
    && code[j - 1] == ArrayBoundsCheck(Int(0), Int(1))
    && (code[j - 2] == NullReferenceCheck(Int(0)) <==> canBeNull)
  }

  lemma ArrayCodeGuarded(env: Env, d: MirData, c: bool)
    requires d.LoadElement? || d.StoreElement?
    ensures Guarded(ArrayCode(env, d, c), d, c)
  {
    var loads := if d.LoadElement? then [LoadFrameMemory(Int(1), Slot(env, d.index)), LoadFrameMemory(Int(0), Slot(env, d.arrayRef))]
      else [LoadFrameMemory(ValueRegister(d.element, 2), Slot(env, d.stored)), LoadFrameMemory(Int(1), Slot(env, d.index)), LoadFrameMemory(Int(0), Slot(env, d.arrayRef))];
    var tail := if d.LoadElement? then
        [ArrayBoundsCheck(Int(0), Int(1)), InstructionIR.LoadElement(d.element, ValueRegister(d.element, 2), Int(0), Int(1)),
         StoreFrameMemory(Slot(env, d.dest), ValueRegister(d.element, 2))]
      else [ArrayBoundsCheck(Int(0), Int(1)), InstructionIR.StoreElement(d.element, Int(0), Int(1), ValueRegister(d.element, 2))];
    assert ArrayCode(env, d, c) == loads + NullCheck(c) + tail;
  }

  /**
   * A comparison of `Void` panics; any other is of the float registers for `Float32` and of the
   * integer registers otherwise, and its condition is signed exactly when the operands are not
   * floats.
   */
  lemma ComparisonSignedness(env: Env, position: nat, d: MirData)
    requires d.BranchCondition? || d.Compare?
    ensures ControlCode(env, position, d).None? <==> d.compareType == Void
    ensures ControlCode(env, position, d).Some? ==>
      var code := ControlCode(env, position, d).value;
      var float := d.compareType == Float32;
      && |code| >= 4
      && code[2] == InstructionIR.Compare(if float then Float32 else Int32, First(float), Second(float))
      && code[3].condition == d.condition
      && (code[3].BranchCondition? || code[3].CompareResult?)
      && (code[3].signed <==> !float)
  {
  }

  /** The instructions whose compilation panics at `position`. */
  predicate Panics(env: Env, position: nat, d: MirData) {
    || d.DivideInt32? || d.NotBool? || d.CallInstance?
    || (d.Call? && d.signature !in env.functions)
    || ((d.LoadField? || d.StoreField?) && (d.classType, d.field) !in env.fields)
    || (Dereferences(d) && (!Dereferenced(d).valueType.IsReference() || position >= |env.nullStatus|))
    || ((d.BranchCondition? || d.Compare?) && d.compareType == Void)
  }

  /** An instruction compiles exactly when it does not panic, and its code then starts with its marker. */
  lemma InstructionCompilesUnlessPanic(env: Env, position: nat, instruction: InstructionMir)
    ensures InstructionCode(env, position, instruction).None? <==> Panics(env, position, instruction.data)
    ensures InstructionCode(env, position, instruction).Some? ==>
      InstructionCode(env, position, instruction).value[0] == Marker(instruction.index, position)
  {
  }

  /** The first `k` instructions compile exactly when each of them does. */
  lemma {:induction false} CompilesIffEachCompiles(env: Env, instructions: seq<InstructionMir>, k: nat)
    requires k <= |instructions|
    ensures InstructionsCode(env, instructions, k).Some? <==> forall p :: 0 <= p < k ==> InstructionCode(env, p, instructions[p]).Some?
    decreases k
  {
    if k > 0 {
      CompilesIffEachCompiles(env, instructions, k - 1);
      var last := InstructionCode(env, k - 1, instructions[k - 1]);
      assert InstructionsCode(env, instructions, k).Some? <==> InstructionsCode(env, instructions, k - 1).Some? && last.Some?;
      assert (forall p :: 0 <= p < k ==> InstructionCode(env, p, instructions[p]).Some?)
        <==> (forall p :: 0 <= p < k - 1 ==> InstructionCode(env, p, instructions[p]).Some?) && last.Some?;
    }
  }

  /** A function compiles exactly when none of its instructions panics at its position. */
  lemma CompilesUnlessSomePanic(env: Env, instructions: seq<InstructionMir>, k: nat)
    requires k <= |instructions|
    ensures InstructionsCode(env, instructions, k).Some? <==> forall p :: 0 <= p < k ==> !Panics(env, p, instructions[p].data)
  {
    CompilesIffEachCompiles(env, instructions, k);
    forall p | 0 <= p < k
      ensures InstructionCode(env, p, instructions[p]).Some? <==> !Panics(env, p, instructions[p].data)
    {
      InstructionCompilesUnlessPanic(env, p, instructions[p]);
    }
  }
}
