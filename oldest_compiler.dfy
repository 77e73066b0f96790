/**
 * The first translation of stack bytecode into the low-level IR (`src/ir/compiler.rs`), over the
 * instruction set of its revision: constants, locals, arguments, addition, subtraction, calls and
 * returns. Operands stay on the operand stack, as in the later `LowCompiler`; this revision has no
 * branch labels, and it fetches the operand types only for addition and subtraction.
 *
 * The IR of that revision (`src/ir/mod.rs`) is the part of `LowIr` these instructions use, with one
 * difference of form: its `Call` names only the signature, and the callee takes every argument from
 * the operand stack, which `LowIr`'s `Call` states as one `OperandStack` source per parameter.
 * The prologue and the calling-convention code are those of `LowCompiler`. An instruction this
 * revision's bytecode lacks, and every input on which the code panics, gives `None`.
 */
module OldestCompiler {
  import opened Wrappers
  import opened Scalars
  import opened TypeIds
  import opened Program
  import opened StackLayout
  import opened StackMachines
  import opened LowIr
  import LowCompiler

  /** What an instruction's translation reads: the function, the binder's declarations, the conventions. */
  datatype Env = Env(source: LowCompiler.FunctionInfo, functions: map<Signature, Declaration>, conventions: LowCompiler.Conventions)

  /** The later compiler's environment for the same function, with the given branch labels. */
  function Lowered(env: Env, labels: map<nat, nat>): LowCompiler.Env {
    LowCompiler.Env(env.source, env.functions, labels, env.conventions)
  }

  /** The bytecode instructions of this revision. */
  predicate InRevision(op: Op) {
    || op.LoadInt32? || op.LoadFloat32? || op.LoadLocal? || op.StoreLocal?
    || op.Add? || op.Sub? || op.Call? || op.LoadArgument? || op.Return?
  }

  /** The operand-type records of instruction `index`, none when the function has none for it. */
  function OperandsAt(source: LowCompiler.FunctionInfo, index: nat): seq<LowCompiler.OperandEntry> {
    if index < |source.operandTypes| then source.operandTypes[index] else []
  }

  /**
   * The code of one instruction after its marker: what the later compiler emits for it, with
   * addition and subtraction panicking when the first operand type is missing or not a number.
   */
  function Body(env: Env, index: nat, op: Op): Option<seq<InstructionIR>> {
    if !InRevision(op) then None
    else LowCompiler.ValueBody(Lowered(env, map[]), op, OperandsAt(env.source, index))
  }

  /** `compile_instruction`: the marker, then the body. */
  function InstructionCode(env: Env, index: nat, op: Op): Option<seq<InstructionIR>> {
    match Body(env, index, op)
    case None => None
    case Some(body) => Some([Marker(index)] + body)
  }

  /** The code of the first `k` instructions after the prologue. */
  function InstructionsCode(env: Env, ops: seq<Op>, k: nat): Option<seq<InstructionIR>>
    requires k <= |ops|
    decreases k
  {
    if k == 0 then Some([])
    else match InstructionsCode(env, ops, k - 1)
      case None => None
      case Some(code) =>
        match InstructionCode(env, k - 1, ops[k - 1])
        case None => None
        case Some(more) => Some(code + more)
  }

  /** `compile` on a fresh compiler: the prologue, then every instruction in order. */
  function Compiled(env: Env, ops: seq<Op>): Option<seq<InstructionIR>> {
    match InstructionsCode(env, ops, |ops|)
    case None => None
    case Some(code) => Some(LowCompiler.PrologueCode(env.source, env.conventions) + code)
  }

  // ---------------------------------------------------------------------------------------------
  // The compiler object.

  /** `InstructionIRCompiler`: the binder, the function, the conventions, and the code built so far. */
  class InstructionIRCompiler {
    const functions: map<Signature, Declaration>
    const source: LowCompiler.FunctionInfo
    const conventions: LowCompiler.Conventions
    var instructions: seq<InstructionIR>

    function CurrentEnv(): Env {
      Env(source, functions, conventions)
    }

    /** `new`: no code yet. */
    constructor (functions: map<Signature, Declaration>, source: LowCompiler.FunctionInfo, conventions: LowCompiler.Conventions)
      ensures this.functions == functions && this.source == source && this.conventions == conventions
      ensures instructions == []
    {
      this.functions := functions;
      this.source := source;
      this.conventions := conventions;
      instructions := [];
    }

    method Push(instruction: InstructionIR)
      modifies this`instructions
      ensures instructions == old(instructions) + [instruction]
    {
      instructions := instructions + [instruction];
    }

    method PushAll(code: seq<InstructionIR>)
      modifies this`instructions
      ensures instructions == old(instructions) + code
    {
      instructions := instructions + code;
    }

    /** `compile_initialize_function`: the frame rounded up to 16 bytes, the arguments, the zeroed locals. */
    method CompileInitializeFunction()
      modifies this`instructions
      ensures instructions == old(instructions) + LowCompiler.PrologueCode(source, conventions)
    {
      ghost var start := instructions;
      Push(InitializeFunction);
      var neededStackSize := StackSize(source.ParameterCount(), |source.locals|, source.operandStackSize);
      var stackSize := ((neededStackSize + 15) / 16) * 16;
      if stackSize > 0 {
        Push(SubFromStackPointer(stackSize));
      }
      PushAll(conventions.argumentMoves);
      var numLocals := |source.locals|;
      if numLocals > 0 {
        Push(LoadZeroToRegister(LowCompiler.R0));
        ghost var zeroed := instructions;
        for localIndex := 0 to numLocals
          invariant instructions == zeroed + LowCompiler.ZeroLocals(source.ParameterCount(), localIndex)
        {
          Push(StoreMemory(LocalStackOffset(source.ParameterCount(), localIndex), LowCompiler.R0));
        }
      }
    }

    /** Addition and subtraction: the first operand type picks the register class; any other type panics. */
    method CompileArithmetic(index: nat, op: Op) returns (ok: bool)
      requires op.Add? || op.Sub?
      modifies this`instructions
      ensures ok <==> Body(CurrentEnv(), index, op).Some?
      ensures ok ==> instructions == old(instructions) + Body(CurrentEnv(), index, op).value
    {
      if index >= |source.operandTypes| || |source.operandTypes[index]| == 0 {
        return false;
      }
      match source.operandTypes[index][0].valueType
      case Int32 =>
        Push(PopOperand(Int(1)));
        Push(PopOperand(Int(0)));
        Push(if op.Add? then AddInt32(Int(0), Int(1)) else SubInt32(Int(0), Int(1)));
        Push(PushOperand(Int(0)));
        ok := true;
      case Float32 =>
        Push(PopOperand(Float(1)));
        Push(PopOperand(Float(0)));
        Push(if op.Add? then AddFloat32(Float(0), Float(1)) else SubFloat32(Float(0), Float(1)));
        Push(PushOperand(Float(0)));
        ok := true;
      case _ =>
        ok := false;
    }

    /** A call: the binder lookup (which panics on an unknown signature), the call, the result. */
    method CompileCall(signature: Signature) returns (ok: bool)
      modifies this`instructions
      ensures ok <==> Body(CurrentEnv(), 0, Op.Call(signature)).Some?
      ensures ok ==> instructions == old(instructions) + Body(CurrentEnv(), 0, Op.Call(signature)).value
    {
      if signature !in functions {
        return false;
      }
      var funcToCall := functions[signature];
      Push(InstructionIR.Call(signature, LowCompiler.StackArguments(|funcToCall.parameters|)));
      PushAll(conventions.handleReturnValue(funcToCall));
      ok := true;
    }

    /** The body of one instruction; `false` where the source panics or has no such instruction. */
    method CompileBody(index: nat, op: Op) returns (ok: bool)
      modifies this`instructions
      ensures ok <==> Body(CurrentEnv(), index, op).Some?
      ensures ok ==> instructions == old(instructions) + Body(CurrentEnv(), index, op).value
    {
      var parameterCount := source.ParameterCount();
      match op
      case LoadInt32(value) =>
        Push(InstructionIR.LoadInt32(value));
        ok := true;
      case LoadFloat32(value) =>
        Push(InstructionIR.LoadInt32(AsI32(value.bits)));
        ok := true;
      case LoadLocal(i) =>
        Push(LoadMemory(Int(0), LocalStackOffset(parameterCount, i)));
        Push(PushOperand(Int(0)));
        ok := true;
      case StoreLocal(i) =>
        Push(PopOperand(Int(0)));
        Push(StoreMemory(LocalStackOffset(parameterCount, i), Int(0)));
        ok := true;
      case Add =>
        ok := CompileArithmetic(index, op);
      case Sub =>
        ok := CompileArithmetic(index, op);
      case Call(signature) =>
        ok := CompileCall(signature);
      case LoadArgument(i) =>
        Push(LoadMemory(Int(0), ArgumentStackOffset(i)));
        Push(PushOperand(Int(0)));
        ok := true;
      case Return =>
        PushAll(conventions.makeReturnValue);
        Push(InstructionIR.Return);
        ok := true;
      case _ =>
        ok := false;
    }

    /** `compile_instruction`: the marker, then the body. */
    method CompileInstruction(index: nat, op: Op) returns (ok: bool)
      modifies this`instructions
      ensures ok <==> InstructionCode(CurrentEnv(), index, op).Some?
      ensures ok ==> instructions == old(instructions) + InstructionCode(CurrentEnv(), index, op).value
    {
      ghost var start := instructions;
      Push(Marker(index));
      ok := CompileBody(index, op);
      if ok {
        LowCompiler.AppendAssociates(start, [Marker(index)], Body(CurrentEnv(), index, op).value);
      }
    }

    /** `compile`: the prologue, then each instruction in order, stopping at the first panic. */
    method Compile(ops: seq<Op>) returns (ok: bool)
      modifies this`instructions
      ensures ok <==> Compiled(CurrentEnv(), ops).Some?
      ensures ok ==> instructions == old(instructions) + Compiled(CurrentEnv(), ops).value
    {
      ghost var start := instructions;
      CompileInitializeFunction();
      ghost var prologue := instructions;
      ok := CompileInstructions(ops);
      if ok {
        LowCompiler.AppendAssociates(start, LowCompiler.PrologueCode(source, conventions), InstructionsCode(CurrentEnv(), ops, |ops|).value);
      }
    }

    /** The loop of `compile` over the instructions. */
    method CompileInstructions(ops: seq<Op>) returns (ok: bool)
      modifies this`instructions
      ensures ok <==> InstructionsCode(CurrentEnv(), ops, |ops|).Some?
      ensures ok ==> instructions == old(instructions) + InstructionsCode(CurrentEnv(), ops, |ops|).value
    {
      ghost var start := instructions;
      for i := 0 to |ops|
        invariant InstructionsCode(CurrentEnv(), ops, i).Some?
        invariant instructions == start + InstructionsCode(CurrentEnv(), ops, i).value
      {
        ok := CompileNext(ops, i, start);
        if !ok {
          return;
        }
      }
      ok := true;
    }

    /** One turn of the loop: instruction `i` extends the code, or its panic ends the compilation. */
    method CompileNext(ops: seq<Op>, i: nat, ghost start: seq<InstructionIR>) returns (ok: bool)
      requires i < |ops| && InstructionsCode(CurrentEnv(), ops, i).Some?
      requires instructions == start + InstructionsCode(CurrentEnv(), ops, i).value
      modifies this`instructions
      ensures ok ==> InstructionsCode(CurrentEnv(), ops, i + 1).Some?
      ensures ok ==> instructions == start + InstructionsCode(CurrentEnv(), ops, i + 1).value
      ensures !ok ==> InstructionsCode(CurrentEnv(), ops, |ops|).None?
    {
      ghost var env := CurrentEnv();
      ok := CompileInstruction(i, ops[i]);
      if !ok {
        CodeStopsAtPanic(env, ops, i + 1, |ops|);
        return;
      }
      ghost var more := InstructionCode(env, i, ops[i]).value;
      CodeGrows(env, ops, i, more);
      LowCompiler.AppendAssociates(start, InstructionsCode(env, ops, i).value, more);
    }

    /** `done`. */
    function Done(): (code: seq<InstructionIR>)
      reads this
      ensures code == instructions
    {
      instructions
    }
  }

  /** The code of one more instruction extends the code of the prefix. */
  lemma CodeGrows(env: Env, ops: seq<Op>, i: nat, more: seq<InstructionIR>)
    requires i < |ops| && InstructionsCode(env, ops, i).Some? && InstructionCode(env, i, ops[i]) == Some(more)
    ensures InstructionsCode(env, ops, i + 1) == Some(InstructionsCode(env, ops, i).value + more)
  {
  }

  /** A panic at instruction `k - 1` leaves every longer prefix without code. */
  lemma {:induction false} CodeStopsAtPanic(env: Env, ops: seq<Op>, k: nat, n: nat)
    requires 0 < k <= n <= |ops| && InstructionCode(env, k - 1, ops[k - 1]).None?
    ensures InstructionsCode(env, ops, n).None?
    decreases n
  {
    if n > k {
      CodeStopsAtPanic(env, ops, k, n - 1);
    }
  }

  /** Compiling a function with a fresh compiler is `Compiled`. */
  method CompileFunction(env: Env, ops: seq<Op>) returns (code: Option<seq<InstructionIR>>)
    ensures code == Compiled(env, ops)
  {
    var compiler := new InstructionIRCompiler(env.functions, env.source, env.conventions);
    var ok := compiler.Compile(ops);
    assert ok ==> compiler.instructions == Compiled(env, ops).value;
    code := if ok then Some(compiler.Done()) else None;
  }

  // ---------------------------------------------------------------------------------------------
  // Against the later compiler, and what the code does.

  /**
   * Where this revision compiles an instruction that has operand types and is no branch target,
   * the later compiler emits the same code; the later one adds labels at branch targets.
   */
  lemma AgreesWithLowCompiler(env: Env, labels: map<nat, nat>, index: nat, op: Op)
    requires InRevision(op) && index < |env.source.operandTypes| && index !in labels
    ensures InstructionCode(env, index, op) == LowCompiler.InstructionCode(Lowered(env, labels), index, op)
  {
    assert LowCompiler.Header(Lowered(env, labels), index) == [Marker(index)];
    assert LowCompiler.ValueBody(Lowered(env, labels), op, OperandsAt(env.source, index))
        == LowCompiler.ValueBody(Lowered(env, map[]), op, OperandsAt(env.source, index));
  }

  /** The instructions whose compilation panics at `index` (or that this revision does not have). */
  predicate Panics(env: Env, index: nat, op: Op) {
    || !InRevision(op)
    || (op.Call? && op.signature !in env.functions)
    || ((op.Add? || op.Sub?) &&
        (|OperandsAt(env.source, index)| == 0 || OperandsAt(env.source, index)[0].valueType !in {Int32, Float32}))
  }

  /**
   * An instruction compiles exactly when it does not panic, and its code then starts with its
   * marker and never holds a label: only addition and subtraction read the operand types.
   */
  lemma InstructionCompilesUnlessPanic(env: Env, index: nat, op: Op)
    ensures InstructionCode(env, index, op).None? <==> Panics(env, index, op)
    ensures InstructionCode(env, index, op).Some? ==> InstructionCode(env, index, op).value[0] == Marker(index)
  {
    if op.Add? || op.Sub? {
      var operands := OperandsAt(env.source, index);
      if |operands| > 0 {
        LowCompiler.ArithmeticTypes(op, operands[0].valueType);
      }
    }
  }

  /** The first `k` instructions compile exactly when each of them does. */
  lemma {:induction false} CompilesIffEachCompiles(env: Env, ops: seq<Op>, k: nat)
    requires k <= |ops|
    ensures InstructionsCode(env, ops, k).Some? <==> forall p :: 0 <= p < k ==> InstructionCode(env, p, ops[p]).Some?
    decreases k
  {
    if k > 0 {
      CompilesIffEachCompiles(env, ops, k - 1);
    }
  }

  /** A function compiles exactly when none of its instructions panics at its index. */
  lemma CompilesUnlessSomePanic(env: Env, ops: seq<Op>)
    ensures Compiled(env, ops).Some? <==> forall p :: 0 <= p < |ops| ==> !Panics(env, p, ops[p])
  {
    CompilesIffEachCompiles(env, ops, |ops|);
    forall p | 0 <= p < |ops|
      ensures InstructionCode(env, p, ops[p]).Some? <==> !Panics(env, p, ops[p])
    {
      InstructionCompilesUnlessPanic(env, p, ops[p]);
    }
  }

  /**
   * On a machine whose operand stack ends with `a` under `b`, a compiled addition or subtraction
   * leaves in their place the 32-bit sum or difference for `Int32` operands, and the float result
   * for `Float32` operands.
   */
  lemma ArithmeticOnStack(env: Env, index: nat, op: Op, m: LowMachine, below: seq<int>, a: int, b: int, float: FloatOps)
    requires (op.Add? || op.Sub?) && Body(env, index, op).Some?
    requires m.operands == below + [a, b]
    ensures var valueType := OperandsAt(env.source, index)[0].valueType;
      && (valueType == Int32 || valueType == Float32)
      && var n := Run(m, Body(env, index, op).value, float);
         && n.Some?
         && (valueType == Int32 ==> n.value.operands == below + [WrapI32(if op.Add? then a + b else a - b)])
         && (valueType == Float32 ==> n.value.operands == below + [if op.Add? then float.add(a, b) else float.sub(a, b)])
  {
    var valueType := OperandsAt(env.source, index)[0].valueType;
    LowCompiler.ArithmeticTypes(op, valueType);
    if valueType == Int32 {
      LowCompiler.IntArithmeticOnStack(m, op, below, a, b, float);
    } else {
      LowCompiler.FloatArithmeticOnStack(m, op, below, a, b, float);
    }
  }

  /** Loading a local pushes its slot; storing one pops the top into its slot. */
  lemma LocalsOnStack(env: Env, index: nat, m: LowMachine, i: nat, float: FloatOps)
    ensures var slot := LocalStackOffset(env.source.ParameterCount(), i);
      && var n := Run(m, Body(env, index, LoadLocal(i)).value, float);
         n.Some? && n.value.operands == m.operands + [m.Memory(slot)] && n.value.memory == m.memory
    ensures var slot := LocalStackOffset(env.source.ParameterCount(), i);
      |m.operands| > 0 ==>
        var n := Run(m, Body(env, index, StoreLocal(i)).value, float);
        n.Some? && n.value.operands == m.operands[..|m.operands| - 1] && n.value.Memory(slot) == m.operands[|m.operands| - 1]
  {
    var low := Lowered(env, map[]);
    assert Body(env, index, LoadLocal(i)) == LowCompiler.Body(low, LoadLocal(i), []);
    assert Body(env, index, StoreLocal(i)) == LowCompiler.Body(low, StoreLocal(i), []);
    LowCompiler.LocalAccessOnStack(low, m, i, float);
  }

  /** Loading an argument pushes its slot and changes no slot. */
  lemma ArgumentOnStack(env: Env, index: nat, m: LowMachine, i: nat, float: FloatOps)
    ensures var n := Run(m, Body(env, index, LoadArgument(i)).value, float);
      n.Some? && n.value.operands == m.operands + [m.Memory(ArgumentStackOffset(i))] && n.value.memory == m.memory
  {
    var code := [LoadMemory(Int(0), ArgumentStackOffset(i)), PushOperand(Int(0))];
    assert Body(env, index, LoadArgument(i)) == Some(code);
    var load := m.SetRegister(Int(0), m.Memory(ArgumentStackOffset(i)));
    RunCons(m, code[0], [code[1]], float);
    RunCons(load, code[1], [], float);
  }

  /** Constants push their value, a float as its bit pattern. */
  lemma ConstantsOnStack(env: Env, index: nat, m: LowMachine, op: Op, float: FloatOps)
    requires op.LoadInt32? || op.LoadFloat32?
    ensures var n := Run(m, Body(env, index, op).value, float);
      n.Some? && n.value.operands == m.operands + [if op.LoadInt32? then op.value else AsI32(op.fvalue.bits)]
  {
    var low := Lowered(env, map[]);
    assert Body(env, index, op) == LowCompiler.Body(low, op, []);
    LowCompiler.ConstantsOnStack(low, m, op, float);
  }
}
