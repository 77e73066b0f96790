/**
 * The translation of stack bytecode into the low-level IR (`src/ir/low/compiler.rs`). Operands
 * stay on the machine's operand stack: each bytecode instruction pops what it uses into numbered
 * registers and pushes its result. A function starts with its frame set up and its locals
 * zeroed; each instruction's code starts with a marker of its index and, at a branch target,
 * the target's label.
 *
 * The argument moves and the return-value handling come from calling-convention code of the
 * same revision that is not part of this model; they are given as code in `Conventions`. The
 * instruction set and the operand-type records (value type and non-null flag) follow their uses
 * in this file. An instruction this revision's bytecode lacks, and every input on which the code
 * panics, gives `None`.
 */
module LowCompiler {
  import opened Wrappers
  import opened Scalars
  import opened TypeIds
  import opened Program
  import opened StackLayout
  import opened StackMachines
  import opened Branches
  import opened LowIr
  import CallingConventions

  /** One operand-type record: the value's type and whether it is known not to be null. */
  datatype OperandEntry = OperandEntry(valueType: TypeId, nonNull: bool)

  /** What the compiler reads of the function being compiled. */
  datatype FunctionInfo = FunctionInfo(
    declaration: Declaration,
    locals: seq<TypeId>,
    operandTypes: seq<seq<OperandEntry>>,
    operandStackSize: nat)
  {
    function ParameterCount(): nat { |declaration.parameters| }
  }

  /**
   * The calling-convention code this compiler splices in: `move_arguments_to_stack` for the
   * function, `make_return_value` from the operand stack, and `handle_return_value` of a call
   * to a given callee onto the operand stack.
   */
  datatype Conventions = Conventions(
    argumentMoves: seq<InstructionIR>,
    makeReturnValue: seq<InstructionIR>,
    handleReturnValue: Declaration -> seq<InstructionIR>)

  /** Everything an instruction's translation reads. */
  datatype Env = Env(
    source: FunctionInfo,
    functions: map<Signature, Declaration>,
    labels: map<nat, nat>,
    conventions: Conventions)

  const R0: HardwareRegister := Int(0)
  const R1: HardwareRegister := Int(1)
  const R2: HardwareRegister := Int(2)
  const F0: HardwareRegister := Float(0)
  const F1: HardwareRegister := Float(1)

  /** The register the runtime helpers return their result in. */
  const ReturnValue: MachineRegister := CallingConventions.IntReturnValue

  /** A store of the zero register into each of the first `count` locals, in index order. */
  function ZeroLocals(parameterCount: nat, count: nat): (code: seq<InstructionIR>)
    ensures |code| == count
    decreases count
  {
    if count == 0 then [] else ZeroLocals(parameterCount, count - 1) + [StoreMemory(LocalStackOffset(parameterCount, count - 1), R0)]
  }

  /** `compile_initialize_function`. */
  function PrologueCode(source: FunctionInfo, conventions: Conventions): seq<InstructionIR> {
    var stackSize := AlignSize(StackSize(source.ParameterCount(), |source.locals|, source.operandStackSize));
    [InitializeFunction]
    + (if stackSize > 0 then [SubFromStackPointer(stackSize)] else [])
    + conventions.argumentMoves
    + (if |source.locals| > 0 then [LoadZeroToRegister(R0)] + ZeroLocals(source.ParameterCount(), |source.locals|) else [])
  }

  /** The marker of the instruction index, then the label when the index is a branch target. */
  function Header(env: Env, index: nat): seq<InstructionIR> {
    [Marker(index)] + if index in env.labels then [BranchLabel(env.labels[index])] else []
  }

  /** The condition a conditional branch jumps on. */
  function JumpConditionOf(c: Condition): JumpCondition {
    match c
    case Equal => JumpCondition.Equal
    case NotEqual => JumpCondition.NotEqual
    case GreaterThan => JumpCondition.GreaterThan
    case GreaterThanOrEqual => JumpCondition.GreaterThanOrEqual
    case LessThan => JumpCondition.LessThan
    case LessThanOrEqual => JumpCondition.LessThanOrEqual
  }

  /** Pops the right operand then the left, applies the operation, and pushes the result. */
  function ArithmeticCode(op: Op, valueType: TypeId): Option<seq<InstructionIR>>
    requires op.Add? || op.Sub?
  {
    match valueType
    case Int32 => Some([PopOperand(R1), PopOperand(R0), if op.Add? then AddInt32(R0, R1) else SubInt32(R0, R1), PushOperand(R0)])
    case Float32 => Some([PopOperand(F1), PopOperand(F0), if op.Add? then AddFloat32(F0, F1) else SubFloat32(F0, F1), PushOperand(F0)])
    case _ => None
  }

  /** A null check of the array reference in `R0`, unless the operand is known not to be null. */
  function NullCheck(nonNull: bool): seq<InstructionIR> {
    if nonNull then [] else [NullReferenceCheck(R0)]
  }

  /**
   * Array access pops the value (for a store), the index and the reference, checks the reference
   * and the index, and pushes the helper's result (for a load, a new array and the length).
   */
  function ArrayCode(op: Op, nonNull: bool): seq<InstructionIR>
    requires op.NewArray? || op.LoadElement? || op.StoreElement? || op.LoadArrayLength?
  {
    match op
    case NewArray(element) => [PopOperand(R0), InstructionIR.NewArray(element, R0), PushOperandExplicit(ReturnValue)]
    case LoadElement(element) =>
      [PopOperand(R1), PopOperand(R0)] + NullCheck(nonNull)
      + [ArrayBoundsCheck(R0, R1), InstructionIR.LoadElement(element, R0, R1), PushOperandExplicit(ReturnValue)]
    case StoreElement(element) =>
      [PopOperand(R2), PopOperand(R1), PopOperand(R0)] + NullCheck(nonNull)
      + [ArrayBoundsCheck(R0, R1), InstructionIR.StoreElement(element, R0, R1, R2)]
    case LoadArrayLength => [PopOperand(R0)] + NullCheck(nonNull) + [InstructionIR.LoadArrayLength(R0), PushOperandExplicit(ReturnValue)]
  }

  /** Pops the right operand then the left and jumps on the condition; only `Int32` and `Float32` compare. */
  function BranchConditionCode(condition: Condition, valueType: TypeId, branchLabel: nat): Option<seq<InstructionIR>> {
    match valueType
    case Int32 => Some([PopOperand(R1), PopOperand(R0), BranchCondition(JumpConditionOf(condition), Int32, branchLabel, R0, R1)])
    case Float32 => Some([PopOperand(F1), PopOperand(F0), BranchCondition(JumpConditionOf(condition), Float32, branchLabel, F0, F1)])
    case _ => None
  }

  /** Constants: a float is pushed as its bit pattern, null as zero. */
  function ConstantCode(op: Op): seq<InstructionIR>
    requires op.LoadInt32? || op.LoadFloat32? || op.LoadNull?
  {
    match op
    case LoadInt32(v) => [InstructionIR.LoadInt32(v)]
    case LoadFloat32(v) => [InstructionIR.LoadInt32(AsI32(v.bits))]
    case LoadNull(_) => [InstructionIR.LoadInt32(0)]
  }

  /** Locals and arguments move between their frame slot and the operand stack through `R0`. */
  function SlotCode(parameterCount: nat, op: Op): seq<InstructionIR>
    requires op.LoadLocal? || op.StoreLocal? || op.LoadArgument?
  {
    match op
    case LoadLocal(i) => [LoadMemory(R0, LocalStackOffset(parameterCount, i)), PushOperand(R0)]
    case StoreLocal(i) => [PopOperand(R0), StoreMemory(LocalStackOffset(parameterCount, i), R0)]
    case LoadArgument(i) => [LoadMemory(R0, ArgumentStackOffset(i)), PushOperand(R0)]
  }

  /** `n` arguments, each taken from the operand stack. */
  function StackArguments(n: nat): (r: seq<Variable>)
    ensures |r| == n
    decreases n
  {
    if n == 0 then [] else StackArguments(n - 1) + [OperandStack]
  }

  lemma {:induction false} StackArgumentsAll(n: nat)
    ensures forall i :: 0 <= i < n ==> StackArguments(n)[i] == OperandStack
    decreases n
  {
    if n > 0 {
      StackArgumentsAll(n - 1);
    }
  }

  /** A call of a bound function takes every argument from the operand stack, then handles the result. */
  function CallCode(env: Env, signature: Signature): Option<seq<InstructionIR>> {
    if signature !in env.functions then None
    else
      var callee := env.functions[signature];
      Some([InstructionIR.Call(signature, StackArguments(|callee.parameters|))] + env.conventions.handleReturnValue(callee))
  }

  /** The instructions whose code only moves values: constants, slots, arithmetic, calls, returns. */
  predicate IsValueOp(op: Op) {
    || op.LoadInt32? || op.LoadFloat32? || op.LoadNull?
    || op.LoadLocal? || op.StoreLocal? || op.LoadArgument?
    || op.Add? || op.Sub? || op.Call? || op.Return?
  }

  /** The code of one instruction after its header, given its operand-type records. */
  function Body(env: Env, op: Op, operands: seq<OperandEntry>): Option<seq<InstructionIR>> {
    if IsValueOp(op) then ValueBody(env, op, operands) else ControlBody(env, op, operands)
  }

  /** `Body` for the value-moving instructions. */
  function ValueBody(env: Env, op: Op, operands: seq<OperandEntry>): Option<seq<InstructionIR>>
    requires IsValueOp(op)
  {
    match op
    case LoadInt32(_) => Some(ConstantCode(op))
    case LoadFloat32(_) => Some(ConstantCode(op))
    case LoadNull(_) => Some(ConstantCode(op))
    case LoadLocal(_) => Some(SlotCode(env.source.ParameterCount(), op))
    case StoreLocal(_) => Some(SlotCode(env.source.ParameterCount(), op))
    case LoadArgument(_) => Some(SlotCode(env.source.ParameterCount(), op))
    case Add => if |operands| == 0 then None else ArithmeticCode(op, operands[0].valueType)
    case Sub => if |operands| == 0 then None else ArithmeticCode(op, operands[0].valueType)
    case Call(signature) => CallCode(env, signature)
    case Return => Some(env.conventions.makeReturnValue + [InstructionIR.Return])
  }

  /** The array instructions. */
  predicate IsArrayOp(op: Op) {
    op.NewArray? || op.LoadElement? || op.StoreElement? || op.LoadArrayLength?
  }

  /** `Body` for the rest: arrays, branches, and `None` for what this revision does not compile. */
  function ControlBody(env: Env, op: Op, operands: seq<OperandEntry>): Option<seq<InstructionIR>> {
    if IsArrayOp(op) then ArrayBody(op, operands) else BranchBody(env, op, operands)
  }

  /** `Body` for the array instructions: only a new array's reference is known to be non-null. */
  function ArrayBody(op: Op, operands: seq<OperandEntry>): Option<seq<InstructionIR>>
    requires IsArrayOp(op)
  {
    if op.NewArray? then Some(ArrayCode(op, true))
    else if |operands| == 0 then None
    else Some(ArrayCode(op, operands[0].nonNull))
  }

  /** `Body` for the branches, whose targets must have labels. */
  function BranchBody(env: Env, op: Op, operands: seq<OperandEntry>): Option<seq<InstructionIR>> {
    match op
    case Branch(target) => if target !in env.labels then None else Some([InstructionIR.Branch(env.labels[target])])
    case BranchIf(condition, target) =>
      if target !in env.labels || |operands| == 0 then None
      else BranchConditionCode(condition, operands[0].valueType, env.labels[target])
    case _ => None
  }

  /** `compile_instruction`: the header and the body; the operand types are fetched for every instruction. */
  function InstructionCode(env: Env, index: nat, op: Op): Option<seq<InstructionIR>> {
    if index >= |env.source.operandTypes| then None
    else match Body(env, op, env.source.operandTypes[index])
      case None => None
      case Some(body) => Some(Header(env, index) + body)
  }

  /** The code of the first `k` instructions after the prologue. */
  function InstructionsCode(env: Env, ops: seq<Op>, k: nat): Option<seq<InstructionIR>>
    requires k <= |ops|
    decreases k
  {
    if k == 0 then Some([])
    else match InstructionsCode(env, ops, k - 1)
      case None => None
      case Some(code) =>
        match InstructionCode(env, k - 1, ops[k - 1])
        case None => None
        case Some(more) => Some(code + more)
  }

  /** The labels `define_branch_labels` gives the targets of `ops`. */
  function LabelsOf(ops: seq<Op>): map<nat, nat> {
    LabelTargets(map[], 0, TargetsOf(ops)).0
  }

  /** `compile` on a fresh compiler: the prologue, then every instruction in order. */
  function Compiled(source: FunctionInfo, functions: map<Signature, Declaration>, conventions: Conventions, ops: seq<Op>): Option<seq<InstructionIR>> {
    match InstructionsCode(Env(source, functions, LabelsOf(ops), conventions), ops, |ops|)
    case None => None
    case Some(code) => Some(PrologueCode(source, conventions) + code)
  }

  // ---------------------------------------------------------------------------------------------
  // The compiler object.

  /** `InstructionIRCompiler`: the code built so far and the branch labels of the function. */
  class InstructionIRCompiler {
    const functions: map<Signature, Declaration>
    const source: FunctionInfo
    const conventions: Conventions
    var instructions: seq<InstructionIR>
    const branchManager: BranchManager

    /** The translation environment as the compiler's current labels describe it. */
    function CurrentEnv(): Env
      reads this, branchManager
    {
      Env(source, functions, branchManager.branchLabels, conventions)
    }

    /** `new`: no code and no branch labels yet. */
    constructor (functions: map<Signature, Declaration>, source: FunctionInfo, conventions: Conventions)
      ensures this.functions == functions && this.source == source && this.conventions == conventions
      ensures instructions == [] && fresh(branchManager) && branchManager.Valid()
      ensures branchManager.branchLabels == map[] && branchManager.nextBranchLabel == 0
    {
      this.functions := functions;
      this.source := source;
      this.conventions := conventions;
      instructions := [];
      branchManager := new BranchManager();
    }

    method Push(instruction: InstructionIR)
      modifies this`instructions
      ensures instructions == old(instructions) + [instruction]
    {
      instructions := instructions + [instruction];
    }

    method PushAll(code: seq<InstructionIR>)
      modifies this`instructions
      ensures instructions == old(instructions) + code
    {
      instructions := instructions + code;
    }

    /** `compile_initialize_function`. */
    method CompileInitializeFunction()
      modifies this`instructions
      ensures instructions == old(instructions) + PrologueCode(source, conventions)
    {
      ghost var start := instructions;
      Push(InitializeFunction);
      var stackSize := AlignSize(StackSize(source.ParameterCount(), |source.locals|, source.operandStackSize));
      if stackSize > 0 {
        Push(SubFromStackPointer(stackSize));
      }
      PushAll(conventions.argumentMoves);
      var numLocals := |source.locals|;
      if numLocals > 0 {
        Push(LoadZeroToRegister(R0));
        ghost var zeroed := instructions;
        for localIndex := 0 to numLocals
          invariant instructions == zeroed + ZeroLocals(source.ParameterCount(), localIndex)
        {
          Push(StoreMemory(LocalStackOffset(source.ParameterCount(), localIndex), R0));
        }
      }
    }

    /** The arithmetic cases: the operand type picks the register class. */
    method CompileArithmetic(op: Op, valueType: TypeId) returns (ok: bool)
      requires op.Add? || op.Sub?
      modifies this`instructions
      ensures ok <==> ArithmeticCode(op, valueType).Some?
      ensures ok ==> instructions == old(instructions) + ArithmeticCode(op, valueType).value
    {
      var r0, r1;
      match valueType {
        case Int32 => r0, r1 := R0, R1;
        case Float32 => r0, r1 := F0, F1;
        case _ => return false;
      }
      Push(PopOperand(r1));
      Push(PopOperand(r0));
      if valueType == Int32 {
        Push(if op.Add? then AddInt32(r0, r1) else SubInt32(r0, r1));
      } else {
        Push(if op.Add? then AddFloat32(r0, r1) else SubFloat32(r0, r1));
      }
      Push(PushOperand(r0));
      return true;
    }

    /** The array cases. */
    method CompileArray(op: Op, nonNull: bool)
      requires op.NewArray? || op.LoadElement? || op.StoreElement? || op.LoadArrayLength?
      modifies this`instructions
      ensures instructions == old(instructions) + ArrayCode(op, nonNull)
    {
      ghost var start := instructions;
      var pops, rest;
      match op {
        case NewArray(element) =>
          PushAll([PopOperand(R0), InstructionIR.NewArray(element, R0), PushOperandExplicit(ReturnValue)]);
          return;
        case LoadElement(element) =>
          pops := [PopOperand(R1), PopOperand(R0)];
          rest := [ArrayBoundsCheck(R0, R1), InstructionIR.LoadElement(element, R0, R1), PushOperandExplicit(ReturnValue)];
        case StoreElement(element) =>
          pops := [PopOperand(R2), PopOperand(R1), PopOperand(R0)];
          rest := [ArrayBoundsCheck(R0, R1), InstructionIR.StoreElement(element, R0, R1, R2)];
        case LoadArrayLength =>
          pops := [PopOperand(R0)];
          rest := [InstructionIR.LoadArrayLength(R0), PushOperandExplicit(ReturnValue)];
      }
      PushAll(pops);
      CompileNullCheck(nonNull);
      PushAll(rest);
      AppendAssociates(start, pops, NullCheck(nonNull));
      AppendAssociates(start, pops + NullCheck(nonNull), rest);
    }

    /** `if !is_non_null { NullReferenceCheck }`. */
    method CompileNullCheck(nonNull: bool)
      modifies this`instructions
      ensures instructions == old(instructions) + NullCheck(nonNull)
    {
      if !nonNull {
        Push(NullReferenceCheck(R0));
      }
    }

    /** The conditional branches: the label first, then the operands by their type. */
    method CompileBranchCondition(condition: Condition, target: nat, operands: seq<OperandEntry>) returns (ok: bool)
      modifies this`instructions
      ensures ok <==> target in branchManager.branchLabels && |operands| > 0 &&
                      BranchConditionCode(condition, operands[0].valueType, branchManager.branchLabels[target]).Some?
      ensures ok ==> instructions == old(instructions) + BranchConditionCode(condition, operands[0].valueType, branchManager.branchLabels[target]).value
    {
      var jump := JumpConditionOf(condition);
      var branchLabel := branchManager.GetLabel(target);
      if branchLabel.None? || |operands| == 0 {
        return false;
      }
      match operands[0].valueType {
        case Int32 =>
          Push(PopOperand(R1));
          Push(PopOperand(R0));
          Push(BranchCondition(jump, Int32, branchLabel.value, R0, R1));
        case Float32 =>
          Push(PopOperand(F1));
          Push(PopOperand(F0));
          Push(BranchCondition(jump, Float32, branchLabel.value, F0, F1));
        case _ => return false;
      }
      return true;
    }

    /** The constants. */
    method CompileConstant(op: Op)
      requires op.LoadInt32? || op.LoadFloat32? || op.LoadNull?
      modifies this`instructions
      ensures instructions == old(instructions) + ConstantCode(op)
    {
      match op {
        case LoadInt32(v) => Push(InstructionIR.LoadInt32(v));
        case LoadFloat32(v) => Push(InstructionIR.LoadInt32(AsI32(v.bits)));
        case LoadNull(_) => Push(InstructionIR.LoadInt32(0));
      }
    }

    /** Locals and arguments. */
    method CompileSlot(op: Op)
      requires op.LoadLocal? || op.StoreLocal? || op.LoadArgument?
      modifies this`instructions
      ensures instructions == old(instructions) + SlotCode(source.ParameterCount(), op)
    {
      var parameterCount := source.ParameterCount();
      match op {
        case LoadLocal(i) =>
          Push(LoadMemory(R0, LocalStackOffset(parameterCount, i)));
          Push(PushOperand(R0));
        case StoreLocal(i) =>
          Push(PopOperand(R0));
          Push(StoreMemory(LocalStackOffset(parameterCount, i), R0));
        case LoadArgument(i) =>
          Push(LoadMemory(R0, ArgumentStackOffset(i)));
          Push(PushOperand(R0));
      }
    }

    /** A call: the binder lookup (which panics on an unknown signature), the call, the result. */
    method CompileCall(signature: Signature) returns (ok: bool)
      modifies this`instructions
      ensures ok <==> CallCode(CurrentEnv(), signature).Some?
      ensures ok ==> instructions == old(instructions) + CallCode(CurrentEnv(), signature).value
    {
      if signature !in functions {
        return false;
      }
      var callee := functions[signature];
      Push(InstructionIR.Call(signature, StackArguments(|callee.parameters|)));
      PushAll(conventions.handleReturnValue(callee));
      return true;
    }

    /** The body of one instruction. */
    method CompileBody(op: Op, operands: seq<OperandEntry>) returns (ok: bool)
      modifies this`instructions
      ensures ok <==> Body(CurrentEnv(), op, operands).Some?
      ensures ok ==> instructions == old(instructions) + Body(CurrentEnv(), op, operands).value
    {
      if IsValueOp(op) {
        ok := CompileValueBody(op, operands);
      } else {
        ok := CompileControlBody(op, operands);
      }
    }

    /** The value-moving instructions. */
    method CompileValueBody(op: Op, operands: seq<OperandEntry>) returns (ok: bool)
      requires IsValueOp(op)
      modifies this`instructions
      ensures ok <==> ValueBody(CurrentEnv(), op, operands).Some?
      ensures ok ==> instructions == old(instructions) + ValueBody(CurrentEnv(), op, operands).value
    {
      match op {
        case LoadInt32(_) => CompileConstant(op);
        case LoadFloat32(_) => CompileConstant(op);
        case LoadNull(_) => CompileConstant(op);
        case LoadLocal(_) => CompileSlot(op);
        case StoreLocal(_) => CompileSlot(op);
        case LoadArgument(_) => CompileSlot(op);
        case Add =>
          if |operands| == 0 { return false; }
          ok := CompileArithmetic(op, operands[0].valueType);
          return;
        case Sub =>
          if |operands| == 0 { return false; }
          ok := CompileArithmetic(op, operands[0].valueType);
          return;
        case Call(signature) =>
          ok := CompileCall(signature);
          return;
        case Return =>
          PushAll(conventions.makeReturnValue);
          Push(InstructionIR.Return);
      }
      return true;
    }

    /** Arrays and branches. */
    method CompileControlBody(op: Op, operands: seq<OperandEntry>) returns (ok: bool)
      modifies this`instructions
      ensures ok <==> ControlBody(CurrentEnv(), op, operands).Some?
      ensures ok ==> instructions == old(instructions) + ControlBody(CurrentEnv(), op, operands).value
    {
      if IsArrayOp(op) {
        if op.NewArray? {
          CompileArray(op, true);
        } else if |operands| == 0 {
          return false;
        } else {
          CompileArray(op, operands[0].nonNull);
        }
        return true;
      }
      ok := CompileBranch(op, operands);
    }

    /** The branches. */
    method CompileBranch(op: Op, operands: seq<OperandEntry>) returns (ok: bool)
      modifies this`instructions
      ensures ok <==> BranchBody(CurrentEnv(), op, operands).Some?
      ensures ok ==> instructions == old(instructions) + BranchBody(CurrentEnv(), op, operands).value
    {
      match op {
        case Branch(target) =>
          var branchLabel := branchManager.GetLabel(target);
          if branchLabel.None? { return false; }
          Push(InstructionIR.Branch(branchLabel.value));
          return true;
        case BranchIf(condition, target) =>
          ok := CompileBranchCondition(condition, target, operands);
        case _ => return false;
      }
    }

    /** `compile_instruction`: the marker, the label at a branch target, then the body. */
    method CompileInstruction(index: nat, op: Op) returns (ok: bool)
      requires branchManager.Valid()
      modifies this`instructions
      ensures ok <==> InstructionCode(CurrentEnv(), index, op).Some?
      ensures ok ==> instructions == old(instructions) + InstructionCode(CurrentEnv(), index, op).value
    {
      ghost var start := instructions;
      CompileHeader(index);
      if index < |source.operandTypes| {
        ghost var header := instructions[|start|..];
        assert instructions == start + header;
        ok := CompileBody(op, source.operandTypes[index]);
        if ok {
          AppendAssociates(start, header, Body(CurrentEnv(), op, source.operandTypes[index]).value);
        }
      } else {
        ok := false;
      }
    }

    /** The marker of instruction `index`, and its label when it is a branch target. */
    method CompileHeader(index: nat)
      requires branchManager.Valid()
      modifies this`instructions
      ensures instructions == old(instructions) + Header(CurrentEnv(), index)
    {
      Push(Marker(index));
      var branchLabel := branchManager.IsBranch(index);
      if branchLabel.Some? {
        Push(BranchLabel(branchLabel.value));
      }
    }

    /**
     * `compile` on a fresh compiler: `true` iff no instruction panics, and then the code is the
     * prologue followed by every instruction's code in order.
     */
    method Compile(ops: seq<Op>) returns (ok: bool)
      requires branchManager.Valid() && branchManager.branchLabels == map[] && branchManager.nextBranchLabel == 0
      modifies this`instructions, branchManager
      ensures ok <==> Compiled(source, functions, conventions, ops).Some?
      ensures ok ==> instructions == old(instructions) + Compiled(source, functions, conventions, ops).value
    {
      ghost var env := Env(source, functions, LabelsOf(ops), conventions);
      CompileInitializeFunction();
      ghost var prologue := instructions;
      branchManager.DefineBranchLabels(ops);
      assert CurrentEnv() == env;
      ok := CompileInstructions(ops);
      assert ok <==> InstructionsCode(env, ops, |ops|).Some?;
      assert ok ==> instructions == prologue + InstructionsCode(env, ops, |ops|).value;
    }

    /** The loop of `compile` over the instructions, with the labels defined. */
    method CompileInstructions(ops: seq<Op>) returns (ok: bool)
      requires branchManager.Valid()
      modifies this`instructions
      ensures ok <==> InstructionsCode(CurrentEnv(), ops, |ops|).Some?
      ensures ok ==> instructions == old(instructions) + InstructionsCode(CurrentEnv(), ops, |ops|).value
    {
      ghost var start := instructions;
      for i := 0 to |ops|
        invariant InstructionsCode(CurrentEnv(), ops, i).Some?
        invariant instructions == start + InstructionsCode(CurrentEnv(), ops, i).value
      {
        ok := CompileNext(ops, i, start);
        if !ok {
          return;
        }
      }
      ok := true;
    }

    /** One turn of the loop: instruction `i` extends the code, or its panic ends the compilation. */
    method CompileNext(ops: seq<Op>, i: nat, ghost start: seq<InstructionIR>) returns (ok: bool)
      requires branchManager.Valid() && i < |ops|
      requires InstructionsCode(CurrentEnv(), ops, i).Some?
      requires instructions == start + InstructionsCode(CurrentEnv(), ops, i).value
      modifies this`instructions
      ensures ok ==> InstructionsCode(CurrentEnv(), ops, i + 1).Some?
      ensures ok ==> instructions == start + InstructionsCode(CurrentEnv(), ops, i + 1).value
      ensures !ok ==> InstructionsCode(CurrentEnv(), ops, |ops|).None?
    {
      ghost var env := CurrentEnv();
      ok := CompileInstruction(i, ops[i]);
      if !ok {
        CodeStopsAtPanic(env, ops, i + 1, |ops|);
        return;
      }
      ghost var more := InstructionCode(env, i, ops[i]).value;
      CodeGrows(env, ops, i, more);
      AppendAssociates(start, InstructionsCode(env, ops, i).value, more);
    }

    /** `done`. */
    function Done(): (code: seq<InstructionIR>)
      reads this
      ensures code == instructions
    {
      instructions
    }
  }

  lemma AppendAssociates(a: seq<InstructionIR>, b: seq<InstructionIR>, c: seq<InstructionIR>)
    ensures (a + b) + c == a + (b + c)
  {
  }

  /** The code of one more instruction extends the code of the prefix. */
  lemma CodeGrows(env: Env, ops: seq<Op>, i: nat, more: seq<InstructionIR>)
    requires i < |ops| && InstructionsCode(env, ops, i).Some? && InstructionCode(env, i, ops[i]) == Some(more)
    ensures InstructionsCode(env, ops, i + 1) == Some(InstructionsCode(env, ops, i).value + more)
  {
  }

  /** A panic at instruction `k - 1` leaves every longer prefix without code. */
  lemma {:induction false} CodeStopsAtPanic(env: Env, ops: seq<Op>, k: nat, n: nat)
    requires 0 < k <= n <= |ops| && InstructionCode(env, k - 1, ops[k - 1]).None?
    ensures InstructionsCode(env, ops, n).None?
    decreases n
  {
    if n > k {
      CodeStopsAtPanic(env, ops, k, n - 1);
    }
  }

  /** Compiling a function with a fresh compiler is `Compiled`. */
  method CompileFunction(functions: map<Signature, Declaration>, source: FunctionInfo, conventions: Conventions, ops: seq<Op>)
    returns (code: Option<seq<InstructionIR>>)
    ensures code == Compiled(source, functions, conventions, ops)
  {
    var compiler := new InstructionIRCompiler(functions, source, conventions);
    assert compiler.instructions == [];
    var ok := compiler.Compile(ops);
    assert ok ==> compiler.instructions == Compiled(source, functions, conventions, ops).value;
    assert !ok ==> Compiled(source, functions, conventions, ops).None?;
    code := if ok then Some(compiler.Done()) else None;
  }

  // ---------------------------------------------------------------------------------------------
  // What the code does.

  /**
   * The prologue reserves the whole frame rounded up to 16 bytes, and only when the frame is
   * not empty; then come the argument moves; with locals, the zero register and one store per
   * local follow. An empty frame has neither locals nor a reservation.
   */
  lemma PrologueShape(source: FunctionInfo, conventions: Conventions)
    ensures var code := PrologueCode(source, conventions);
      var frame := StackSize(source.ParameterCount(), |source.locals|, source.operandStackSize);
      && code[0] == InitializeFunction
      && (frame > 0 ==> code[1].SubFromStackPointer? && code[1].amount % 16 == 0 && frame <= code[1].amount < frame + 16)
      && (frame == 0 ==> code == [InitializeFunction] + conventions.argumentMoves)
      && |code| == 1 + (if frame > 0 then 1 else 0) + |conventions.argumentMoves| + (if |source.locals| > 0 then 1 + |source.locals| else 0)
  {
    var frame := StackSize(source.ParameterCount(), |source.locals|, source.operandStackSize);
    if frame == 0 {
      assert |source.locals| == 0;
    }
  }

  /**
   * The locals' zeroing sets every local slot to zero, and changes no other slot, no register
   * but the zero register, and not the operand stack.
   */
  lemma {:induction false} LocalsZeroed(m: LowMachine, parameterCount: nat, count: nat, float: FloatOps)
    requires m.Register(R0) == 0
    ensures var n := Run(m, ZeroLocals(parameterCount, count), float);
      && n.Some?
      && (forall i :: 0 <= i < count ==> n.value.Memory(LocalStackOffset(parameterCount, i)) == 0)
      && (forall o :: (forall i :: 0 <= i < count ==> o != LocalStackOffset(parameterCount, i)) ==> n.value.Memory(o) == m.Memory(o))
      && n.value.registers == m.registers && n.value.operands == m.operands
    decreases count
  {
    if count > 0 {
      var prefix := ZeroLocals(parameterCount, count - 1);
      var slot := LocalStackOffset(parameterCount, count - 1);
      LocalsZeroed(m, parameterCount, count - 1, float);
      var mid := Run(m, prefix, float).value;
      RunAppend(m, prefix, [StoreMemory(slot, R0)], float);
      RunCons(mid, StoreMemory(slot, R0), [], float);
      assert mid.Register(R0) == 0;
    }
  }

  /** With the zero register loaded first, starting from any machine. */
  lemma ZeroingCodeZeroes(m: LowMachine, parameterCount: nat, count: nat, float: FloatOps)
    ensures var n := Run(m, [LoadZeroToRegister(R0)] + ZeroLocals(parameterCount, count), float);
      && n.Some?
      && (forall i :: 0 <= i < count ==> n.value.Memory(LocalStackOffset(parameterCount, i)) == 0)
      && n.value.operands == m.operands
  {
    RunCons(m, LoadZeroToRegister(R0), ZeroLocals(parameterCount, count), float);
    LocalsZeroed(m.SetRegister(R0, 0), parameterCount, count, float);
  }

  /**
   * Every instruction's code starts with its marker; the label follows at a branch target, and
   * anywhere else the body follows at once (only a return's convention code could start with a
   * label).
   */
  lemma InstructionStartsWithHeader(env: Env, index: nat, op: Op)
    requires InstructionCode(env, index, op).Some?
    ensures var code := InstructionCode(env, index, op).value;
      && code[0] == Marker(index)
      && (index in env.labels ==> |code| > 1 && code[1] == BranchLabel(env.labels[index]))
      && (index !in env.labels && !op.Return? ==> |code| > 1 && !code[1].BranchLabel?)
  {
    var code := InstructionCode(env, index, op).value;
    var body := Body(env, op, env.source.operandTypes[index]).value;
    assert code == Header(env, index) + body;
    BodyHasNoLabel(env, op, env.source.operandTypes[index]);
    if index !in env.labels && !op.Return? {
      assert code[1] == body[0];
    }
  }

  /** Only calling-convention code can be empty or start with a label. */
  lemma BodyHasNoLabel(env: Env, op: Op, operands: seq<OperandEntry>)
    requires Body(env, op, operands).Some?
    ensures var body := Body(env, op, operands).value;
      op.Return? || (|body| > 0 && !body[0].BranchLabel?)
  {
  }

  /**
   * On a machine whose operand stack ends with `a` under `b`, an `Int32` addition or subtraction
   * leaves the 32-bit sum or difference `a + b` or `a - b` in their place.
   */
  lemma IntArithmeticOnStack(m: LowMachine, op: Op, below: seq<int>, a: int, b: int, float: FloatOps)
    requires op.Add? || op.Sub?
    requires m.operands == below + [a, b]
    ensures var n := Run(m, ArithmeticCode(op, Int32).value, float);
      n.Some? && n.value.operands == below + [WrapI32(if op.Add? then a + b else a - b)]
  {
    var result := WrapI32(if op.Add? then a + b else a - b);
    TopTwo(below, a, b);
    var m1 := m.Dropped().SetRegister(R1, b);
    assert m1.operands == below + [a];
    var m2 := m1.Dropped().SetRegister(R0, a);
    assert m2.Register(R1) == b;
    var m3 := m2.SetRegister(R0, result);
    RunThrough(ArithmeticCode(op, Int32).value, [m, m1, m2, m3, m3.Push(result)], float);
  }

  /** The two entries on top of an operand stack, taken off one at a time. */
  lemma TopTwo(below: seq<int>, a: int, b: int)
    ensures (below + [a, b])[|below| + 1] == b && (below + [a, b])[..|below| + 1] == below + [a]
    ensures (below + [a])[|below|] == a && (below + [a])[..|below|] == below
  {
    assert (below + [a, b])[..|below| + 1] == below + [a];
  }

  /** The same for `Float32`, with the float operations applied to the left then the right operand. */
  lemma FloatArithmeticOnStack(m: LowMachine, op: Op, below: seq<int>, a: int, b: int, float: FloatOps)
    requires op.Add? || op.Sub?
    requires m.operands == below + [a, b]
    ensures var n := Run(m, ArithmeticCode(op, Float32).value, float);
      n.Some? && n.value.operands == below + [if op.Add? then float.add(a, b) else float.sub(a, b)]
  {
    var result := if op.Add? then float.add(a, b) else float.sub(a, b);
    TopTwo(below, a, b);
    var m1 := m.Dropped().SetRegister(F1, b);
    assert m1.operands == below + [a];
    var m2 := m1.Dropped().SetRegister(F0, a);
    assert m2.Register(F1) == b;
    var m3 := m2.SetRegister(F0, result);
    RunThrough(ArithmeticCode(op, Float32).value, [m, m1, m2, m3, m3.Push(result)], float);
  }

  /** Addition and subtraction compile for exactly the two number types. */
  lemma ArithmeticTypes(op: Op, valueType: TypeId)
    requires op.Add? || op.Sub?
    ensures ArithmeticCode(op, valueType).Some? <==> valueType == Int32 || valueType == Float32
  {
  }

  /** Loading a local pushes the local's slot; storing one pops the top into the slot. */
  lemma LocalAccessOnStack(env: Env, m: LowMachine, i: nat, float: FloatOps)
    ensures var slot := LocalStackOffset(env.source.ParameterCount(), i);
      && var n := Run(m, Body(env, LoadLocal(i), []).value, float);
         n.Some? && n.value.operands == m.operands + [m.Memory(slot)] && n.value.memory == m.memory
    ensures var slot := LocalStackOffset(env.source.ParameterCount(), i);
      |m.operands| > 0 ==>
        var n := Run(m, Body(env, StoreLocal(i), []).value, float);
        n.Some? && n.value.operands == m.operands[..|m.operands| - 1] && n.value.Memory(slot) == m.operands[|m.operands| - 1]
  {
    var slot := LocalStackOffset(env.source.ParameterCount(), i);
    var load := m.SetRegister(R0, m.Memory(slot));
    RunCons(m, LoadMemory(R0, slot), [PushOperand(R0)], float);
    RunCons(load, PushOperand(R0), [], float);
    if |m.operands| > 0 {
      var popped := m.Dropped().SetRegister(R0, m.Top());
      RunCons(m, PopOperand(R0), [StoreMemory(slot, R0)], float);
      RunCons(popped, StoreMemory(slot, R0), [], float);
    }
  }

  /** Constants push their value: a float as its bit pattern, null as zero. */
  lemma ConstantsOnStack(env: Env, m: LowMachine, op: Op, float: FloatOps)
    requires op.LoadInt32? || op.LoadFloat32? || op.LoadNull?
    ensures var n := Run(m, Body(env, op, []).value, float);
      n.Some? && n.value.operands == m.operands + [match op case LoadInt32(v) => v case LoadFloat32(v) => AsI32(v.bits) case LoadNull(_) => 0]
  {
    RunCons(m, Body(env, op, []).value[0], [], float);
  }

  /**
   * The array accesses check the reference for null exactly when it is not known to be non-null,
   * and check the index right before every element access.
   */
  lemma ArrayChecks(op: Op, nonNull: bool)
    requires op.LoadElement? || op.StoreElement? || op.LoadArrayLength?
    ensures NullReferenceCheck(R0) in ArrayCode(op, nonNull) <==> !nonNull
    ensures forall k :: 0 < k < |ArrayCode(op, nonNull)| && (ArrayCode(op, nonNull)[k].LoadElement? || ArrayCode(op, nonNull)[k].StoreElement?) ==>
      ArrayCode(op, nonNull)[k - 1] == ArrayBoundsCheck(R0, R1)
    ensures op.LoadArrayLength? ==> forall i :: i in ArrayCode(op, nonNull) ==> !i.ArrayBoundsCheck?
  {
    var code := ArrayCode(op, nonNull);
    if !nonNull {
      assert code[|code| - (if op.LoadArrayLength? then 3 else if op.LoadElement? then 4 else 3)] == NullReferenceCheck(R0);
    }
  }

  /**
   * The compared registers hold the operands in order: the left one is the deeper, and both are
   * of the operand type's class.
   */
  lemma BranchOperandsInOrder(m: LowMachine, condition: Condition, valueType: TypeId, branchLabel: nat, below: seq<int>, a: int, b: int, float: FloatOps)
    requires BranchConditionCode(condition, valueType, branchLabel).Some?
    requires m.operands == below + [a, b]
    ensures var code := BranchConditionCode(condition, valueType, branchLabel).value;
      && |code| == 3 && code[2].BranchCondition? && code[2].compareType == valueType
      && code[2].condition == JumpConditionOf(condition) && code[2].labelIndex == branchLabel
      && var n := Run(m, code[..2], float);
         n.Some? && n.value.operands == below && n.value.Register(code[2].left) == a && n.value.Register(code[2].right) == b
  {
    var code := BranchConditionCode(condition, valueType, branchLabel).value;
    var right := code[2].right;
    var left := code[2].left;
    var m1 := m.Dropped().SetRegister(right, b);
    assert m1.operands == below + [a];
    var m2 := m1.Dropped().SetRegister(left, a);
    RunCons(m, code[0], [code[1]], float);
    RunCons(m1, code[1], [], float);
    assert code[..2] == [code[0], code[1]];
  }
}
