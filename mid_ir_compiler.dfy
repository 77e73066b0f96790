/**
 * The older frame-memory lowering of the older MIR into the low-level IR
 * (`src/ir/mid/ir_compiler.rs`). Every virtual register lives in its frame slot: an instruction
 * loads its operands into fixed registers, operates on them and stores the result back. The
 * function starts by reserving its frame rounded up to 16 bytes, copying its arguments and
 * zeroing the slots of the registers that need it; each instruction's code starts with a marker
 * of its bytecode index. Element and length accesses always check their reference for null.
 *
 * The frame size before rounding (`stack_size_mir`) and the calling-convention code for this
 * IR are not defined in this revision of the repository and are inputs. A call to an unbound
 * function and a conditional branch on a type other than `Int32` or `Float32` panic: `None`.
 */
module MidIrCompiler {
  import opened Wrappers
  import opened Scalars
  import opened TypeIds
  import opened StackLayout
  import opened StackMachines
  import opened LowIr
  import Program
  import Mid
  import IrHelpers
  import LowCompiler
  import CallingConventions

  /**
   * The calling-convention code this compiler splices in: the callee's argument copies
   * (`move_arguments_to_stack`), the move of a returned variable into the return register
   * (`make_return_value`), and a call's move of the result into a variable given the callee
   * (`handle_return_value`).
   */
  datatype Conventions = Conventions(
    argumentMoves: seq<InstructionIR>,
    makeReturnValue: Variable -> seq<InstructionIR>,
    handleReturnValue: (Variable, Program.Declaration) -> seq<InstructionIR>)

  /** Everything the translation of an instruction reads besides the instruction. */
  datatype Env = Env(
    declaration: Program.Declaration,
    functions: map<Program.Signature, Program.Declaration>,
    conventions: Conventions,
    stackSize: nat)

  /** `get_register_stack_offset`. */
  function Slot(env: Env, r: Mid.VirtualRegister): int {
    IrHelpers.VirtualRegisterStackOffset(|env.declaration.parameters|, r.number)
  }

  /** The register the runtime helpers return a value in. */
  const ReturnValue: MachineRegister := CallingConventions.IntReturnValue

  // ---------------------------------------------------------------------------------------------
  // The code of each part.

  /** The function entry and the reservation of the rounded-up frame, when it is not empty. */
  function HeaderCode(env: Env): seq<InstructionIR> {
    [InitializeFunction] + if AlignSize(env.stackSize) > 0 then [SubFromStackPointer(AlignSize(env.stackSize))] else []
  }

  /** A store of the zeroed `Int(0)` into each register's slot, in order. */
  function ZeroStores(env: Env, registers: seq<Mid.VirtualRegister>): (code: seq<InstructionIR>)
    ensures |code| == |registers|
    decreases |registers|
  {
    if |registers| == 0 then []
    else ZeroStores(env, registers[..|registers| - 1]) + [StoreMemory(Slot(env, registers[|registers| - 1]), Int(0))]
  }

  /** `Int(0)` zeroed once, then stored into each slot; nothing when no register needs it. */
  function ZeroingCode(env: Env, needZero: seq<Mid.VirtualRegister>): seq<InstructionIR> {
    if |needZero| > 0 then [LoadZeroToRegister(Int(0))] + ZeroStores(env, needZero) else []
  }

  /** `compile_initialize_function`. */
  function PrologueCode(env: Env, needZero: seq<Mid.VirtualRegister>): seq<InstructionIR> {
    HeaderCode(env) + env.conventions.argumentMoves + ZeroingCode(env, needZero)
  }

  /** The two-register arithmetic, in the registers of its class: load both, operate, store the first. */
  predicate IsArithmetic(d: Mid.MidData) { d.AddInt32? || d.SubInt32? || d.AddFloat32? || d.SubFloat32? }

  function ArithmeticCode(env: Env, d: Mid.MidData): seq<InstructionIR>
    requires IsArithmetic(d)
  {
    var float := d.AddFloat32? || d.SubFloat32?;
    var first := if float then Float(0) else Int(0);
    var second := if float then Float(1) else Int(1);
    var operate := match d
      case AddInt32(_, _, _) => AddInt32(first, second)
      case SubInt32(_, _, _) => SubInt32(first, second)
      case AddFloat32(_, _, _) => AddFloat32(first, second)
      case SubFloat32(_, _, _) => SubFloat32(first, second);
    [LoadMemory(first, Slot(env, d.op1)), LoadMemory(second, Slot(env, d.op2)), operate, StoreMemory(Slot(env, d.dest), first)]
  }

  /** The instructions that only put a value into the destination's slot. */
  predicate IsValueMove(d: Mid.MidData) { d.LoadInt32? || d.LoadFloat32? || d.LoadNull? || d.Move? || d.LoadArgument? }

  /** Constants are stored directly (a float as its bit pattern, null as 0); copies go through `Int(0)`. */
  function ValueMoveCode(env: Env, d: Mid.MidData): seq<InstructionIR>
    requires IsValueMove(d)
  {
    match d
    case LoadInt32(dest, v) => [MoveInt32ToMemory(Slot(env, dest), v)]
    case LoadFloat32(dest, v) => [MoveInt32ToMemory(Slot(env, dest), AsI32(v.bits))]
    case LoadNull(dest) => [MoveInt32ToMemory(Slot(env, dest), 0)]
    case Move(dest, source) => [LoadMemory(Int(0), Slot(env, source)), StoreMemory(Slot(env, dest), Int(0))]
    case LoadArgument(i, dest) => [LoadMemory(Int(0), ArgumentStackOffset(i)), StoreMemory(Slot(env, dest), Int(0))]
  }

  /** `Return`: the value, if any, into the return register, then the return. */
  function ReturnCode(env: Env, returnValue: Option<Mid.VirtualRegister>): seq<InstructionIR> {
    (if returnValue.Some? then env.conventions.makeReturnValue(Memory(Slot(env, returnValue.value))) else []) + [Return]
  }

  /** Every argument is read from its register's slot. */
  function ArgumentSlots(env: Env, arguments: seq<Mid.VirtualRegister>): (sources: seq<Variable>)
    ensures |sources| == |arguments|
    decreases |arguments|
  {
    if |arguments| == 0 then [] else ArgumentSlots(env, arguments[..|arguments| - 1]) + [Memory(Slot(env, arguments[|arguments| - 1]))]
  }

  /** `Call`: the callee must be bound; the result, if kept, is handled for that callee. */
  function CallCode(env: Env, signature: Program.Signature, callResult: Option<Mid.VirtualRegister>, arguments: seq<Mid.VirtualRegister>): Option<seq<InstructionIR>> {
    if signature !in env.functions then None
    else
      Some([Call(signature, ArgumentSlots(env, arguments))]
           + if callResult.Some? then env.conventions.handleReturnValue(Memory(Slot(env, callResult.value)), env.functions[signature]) else [])
  }

  predicate IsArray(d: Mid.MidData) { d.NewArray? || d.LoadElement? || d.StoreElement? || d.LoadArrayLength? }

  /** The array instructions: every access checks its reference for null and an element access its index's bounds. */
  function ArrayCode(env: Env, d: Mid.MidData): seq<InstructionIR>
    requires IsArray(d)
  {
    match d
    case NewArray(element, dest, size) =>
      [LoadMemory(Int(0), Slot(env, size)), NewArray(element, Int(0)), StoreMemoryExplicit(Slot(env, dest), ReturnValue)]
    case LoadElement(element, dest, arrayRef, index) =>
      [LoadMemory(Int(1), Slot(env, index)), LoadMemory(Int(0), Slot(env, arrayRef)),
       NullReferenceCheck(Int(0)), ArrayBoundsCheck(Int(0), Int(1)),
       LoadElement(element, Int(0), Int(1)), StoreMemoryExplicit(Slot(env, dest), ReturnValue)]
    case StoreElement(element, arrayRef, index, stored) =>
      [LoadMemory(Int(2), Slot(env, stored)), LoadMemory(Int(1), Slot(env, index)), LoadMemory(Int(0), Slot(env, arrayRef)),
       NullReferenceCheck(Int(0)), ArrayBoundsCheck(Int(0), Int(1)),
       StoreElement(element, Int(0), Int(1), Int(2))]
    case LoadArrayLength(dest, arrayRef) =>
      [LoadMemory(Int(0), Slot(env, arrayRef)), NullReferenceCheck(Int(0)), LoadArrayLength(Int(0)),
       StoreMemoryExplicit(Slot(env, dest), ReturnValue)]
  }

  /** A conditional branch compares two registers of the operands' class; only `Int32` and `Float32` can be compared. */
  function BranchConditionCode(env: Env, condition: Program.Condition, compareType: TypeId, target: nat, op1: Mid.VirtualRegister, op2: Mid.VirtualRegister): Option<seq<InstructionIR>> {
    if compareType == Int32 then
      Some([LoadMemory(Int(0), Slot(env, op1)), LoadMemory(Int(1), Slot(env, op2)),
            BranchCondition(LowCompiler.JumpConditionOf(condition), Int32, target, Int(0), Int(1))])
    else if compareType == Float32 then
      Some([LoadMemory(Float(0), Slot(env, op1)), LoadMemory(Float(1), Slot(env, op2)),
            BranchCondition(LowCompiler.JumpConditionOf(condition), Float32, target, Float(0), Float(1))])
    else None
  }

  /** The code of one instruction after its marker. */
  function Body(env: Env, d: Mid.MidData): Option<seq<InstructionIR>> {
    if IsArithmetic(d) then Some(ArithmeticCode(env, d))
    else if IsValueMove(d) then Some(ValueMoveCode(env, d))
    else if IsArray(d) then Some(ArrayCode(env, d))
    else match d
      case Return(returnValue) => Some(ReturnCode(env, returnValue))
      case Call(signature, callResult, arguments) => CallCode(env, signature, callResult, arguments)
      case BranchLabel(l) => Some([BranchLabel(l)])
      case Branch(l) => Some([Branch(l)])
      case BranchCondition(condition, compareType, l, op1, op2) => BranchConditionCode(env, condition, compareType, l, op1, op2)
  }

  /** `compile_instruction`: the marker, then the body. */
  function InstructionCode(env: Env, instruction: Mid.MidInstruction): Option<seq<InstructionIR>> {
    match Body(env, instruction.data)
    case None => None
    case Some(body) => Some([Marker(instruction.index)] + body)
  }

  /** The code of the first `k` instructions. */
  function InstructionsCode(env: Env, instructions: seq<Mid.MidInstruction>, k: nat): Option<seq<InstructionIR>>
    requires k <= |instructions|
    decreases k
  {
    if k == 0 then Some([])
    else match InstructionsCode(env, instructions, k - 1)
      case None => None
      case Some(code) =>
        match InstructionCode(env, instructions[k - 1])
        case None => None
        case Some(more) => Some(code + more)
  }

  /** `compile` on a fresh compiler: the prologue, then every instruction's code; `None` if one panics. */
  function Compiled(env: Env, needZero: seq<Mid.VirtualRegister>, instructions: seq<Mid.MidInstruction>): Option<seq<InstructionIR>> {
    match InstructionsCode(env, instructions, |instructions|)
    case None => None
    case Some(code) => Some(PrologueCode(env, needZero) + code)
  }

  // ---------------------------------------------------------------------------------------------
  // The compiler object.

  /** `InstructionIRCompiler`: the borrowed binder and function, and the instruction list being built. */
  class InstructionIRCompiler {
    const env: Env
    var instructions: seq<InstructionIR>

    /** `new`: no instructions yet. */
    constructor (env: Env)
      ensures this.env == env && instructions == []
    {
      this.env := env;
      instructions := [];
    }

    method Push(instruction: InstructionIR)
      modifies this`instructions
      ensures instructions == old(instructions) + [instruction]
    {
      instructions := instructions + [instruction];
    }

    method PushAll(code: seq<InstructionIR>)
      modifies this`instructions
      ensures instructions == old(instructions) + code
    {
      instructions := instructions + code;
    }

    /** `compile_initialize_function`. */
    method CompileInitializeFunction(needZero: seq<Mid.VirtualRegister>)
      modifies this`instructions
      ensures instructions == old(instructions) + PrologueCode(env, needZero)
    {
      ghost var start := instructions;
      Push(InitializeFunction);
      var stackSize := AlignSize(env.stackSize);
      if stackSize > 0 {
        Push(SubFromStackPointer(stackSize));
      }
      PushAll(env.conventions.argumentMoves);
      ghost var moved := instructions;
      assert moved == start + (HeaderCode(env) + env.conventions.argumentMoves);
      if |needZero| > 0 {
        Push(LoadZeroToRegister(Int(0)));
        ghost var zeroed := instructions;
        for k := 0 to |needZero|
          invariant instructions == zeroed + ZeroStores(env, needZero[..k])
        {
          assert needZero[..k + 1][..k] == needZero[..k];
          Push(StoreMemory(Slot(env, needZero[k]), Int(0)));
        }
        assert needZero[..|needZero|] == needZero;
        LowCompiler.AppendAssociates(moved, [LoadZeroToRegister(Int(0))], ZeroStores(env, needZero));
      }
      LowCompiler.AppendAssociates(start, HeaderCode(env) + env.conventions.argumentMoves, ZeroingCode(env, needZero));
    }

    /** The two-register arithmetic. */
    method CompileArithmetic(d: Mid.MidData)
      requires IsArithmetic(d)
      modifies this`instructions
      ensures instructions == old(instructions) + ArithmeticCode(env, d)
    {
      var float := d.AddFloat32? || d.SubFloat32?;
      var first := if float then Float(0) else Int(0);
      var second := if float then Float(1) else Int(1);
      Push(LoadMemory(first, Slot(env, d.op1)));
      Push(LoadMemory(second, Slot(env, d.op2)));
      match d {
        case AddInt32(_, _, _) => Push(AddInt32(first, second));
        case SubInt32(_, _, _) => Push(SubInt32(first, second));
        case AddFloat32(_, _, _) => Push(AddFloat32(first, second));
        case SubFloat32(_, _, _) => Push(SubFloat32(first, second));
      }
      Push(StoreMemory(Slot(env, d.dest), first));
    }

    /** The constants, copies and argument loads. */
    method CompileValueMove(d: Mid.MidData)
      requires IsValueMove(d)
      modifies this`instructions
      ensures instructions == old(instructions) + ValueMoveCode(env, d)
    {
      match d {
        case LoadInt32(dest, v) => Push(MoveInt32ToMemory(Slot(env, dest), v));
        case LoadFloat32(dest, v) => Push(MoveInt32ToMemory(Slot(env, dest), AsI32(v.bits)));
        case LoadNull(dest) => Push(MoveInt32ToMemory(Slot(env, dest), 0));
        case Move(dest, source) =>
          Push(LoadMemory(Int(0), Slot(env, source)));
          Push(StoreMemory(Slot(env, dest), Int(0)));
        case LoadArgument(i, dest) =>
          Push(LoadMemory(Int(0), ArgumentStackOffset(i)));
          Push(StoreMemory(Slot(env, dest), Int(0)));
      }
    }

    /** The array instructions. */
    method CompileArray(d: Mid.MidData)
      requires IsArray(d)
      modifies this`instructions
      ensures instructions == old(instructions) + ArrayCode(env, d)
    {
      match d {
        case NewArray(element, dest, size) =>
          Push(LoadMemory(Int(0), Slot(env, size)));
          Push(NewArray(element, Int(0)));
          Push(StoreMemoryExplicit(Slot(env, dest), ReturnValue));
        case LoadElement(element, dest, arrayRef, index) =>
          PushAll([LoadMemory(Int(1), Slot(env, index)), LoadMemory(Int(0), Slot(env, arrayRef))]);
          PushAll([NullReferenceCheck(Int(0)), ArrayBoundsCheck(Int(0), Int(1))]);
          PushAll([LoadElement(element, Int(0), Int(1)), StoreMemoryExplicit(Slot(env, dest), ReturnValue)]);
        case StoreElement(element, arrayRef, index, stored) =>
          PushAll([LoadMemory(Int(2), Slot(env, stored)), LoadMemory(Int(1), Slot(env, index)), LoadMemory(Int(0), Slot(env, arrayRef))]);
          PushAll([NullReferenceCheck(Int(0)), ArrayBoundsCheck(Int(0), Int(1))]);
          Push(StoreElement(element, Int(0), Int(1), Int(2)));
        case LoadArrayLength(dest, arrayRef) =>
          Push(LoadMemory(Int(0), Slot(env, arrayRef)));
          Push(NullReferenceCheck(Int(0)));
          Push(LoadArrayLength(Int(0)));
          Push(StoreMemoryExplicit(Slot(env, dest), ReturnValue));
      }
    }

    /** The `map` over the arguments to their slots. */
    method ArgumentSources(arguments: seq<Mid.VirtualRegister>) returns (sources: seq<Variable>)
      ensures sources == ArgumentSlots(env, arguments)
    {
      sources := [];
      for k := 0 to |arguments|
        invariant sources == ArgumentSlots(env, arguments[..k])
      {
        assert arguments[..k + 1][..k] == arguments[..k];
        sources := sources + [Memory(Slot(env, arguments[k]))];
      }
      assert arguments[..|arguments|] == arguments;
    }

    /** Returns, calls, labels and branches: `false` iff the code panics. */
    method CompileControl(d: Mid.MidData) returns (ok: bool)
      requires !IsArithmetic(d) && !IsValueMove(d) && !IsArray(d)
      modifies this`instructions
      ensures ok <==> Body(env, d).Some?
      ensures ok ==> instructions == old(instructions) + Body(env, d).value
    {
      ok := true;
      match d {
        case Return(returnValue) =>
          if returnValue.Some? {
            PushAll(env.conventions.makeReturnValue(Memory(Slot(env, returnValue.value))));
          }
          Push(Return);
        case Call(signature, callResult, arguments) =>
          if signature !in env.functions {
            return false;
          }
          var callee := env.functions[signature];
          var sources := ArgumentSources(arguments);
          Push(Call(signature, sources));
          if callResult.Some? {
            PushAll(env.conventions.handleReturnValue(Memory(Slot(env, callResult.value)), callee));
          }
        case BranchLabel(l) => Push(BranchLabel(l));
        case Branch(l) => Push(Branch(l));
        case BranchCondition(condition, compareType, l, op1, op2) =>
          var jump := LowCompiler.JumpConditionOf(condition);
          if compareType == Int32 {
            PushAll([LoadMemory(Int(0), Slot(env, op1)), LoadMemory(Int(1), Slot(env, op2))]);
            Push(BranchCondition(jump, Int32, l, Int(0), Int(1)));
          } else if compareType == Float32 {
            PushAll([LoadMemory(Float(0), Slot(env, op1)), LoadMemory(Float(1), Slot(env, op2))]);
            Push(BranchCondition(jump, Float32, l, Float(0), Float(1)));
          } else {
            return false;
          }
      }
    }

    /** `compile_instruction`: `true` iff the instruction does not panic, and then its code is appended. */
    method CompileInstruction(instruction: Mid.MidInstruction) returns (ok: bool)
      modifies this`instructions
      ensures ok <==> InstructionCode(env, instruction).Some?
      ensures ok ==> instructions == old(instructions) + InstructionCode(env, instruction).value
    {
      ghost var start := instructions;
      Push(Marker(instruction.index));
      var d := instruction.data;
      if IsArithmetic(d) {
        CompileArithmetic(d);
        ok := true;
      } else if IsValueMove(d) {
        CompileValueMove(d);
        ok := true;
      } else if IsArray(d) {
        CompileArray(d);
        ok := true;
      } else {
        ok := CompileControl(d);
      }
      if ok {
        LowCompiler.AppendAssociates(start, [Marker(instruction.index)], Body(env, d).value);
      }
    }

    /** `compile`: `true` iff no instruction panics, and then the code is the prologue and every instruction's code. */
    method Compile(needZero: seq<Mid.VirtualRegister>, mir: seq<Mid.MidInstruction>) returns (ok: bool)
      modifies this`instructions
      ensures ok <==> Compiled(env, needZero, mir).Some?
      ensures ok ==> instructions == old(instructions) + Compiled(env, needZero, mir).value
    {
      ghost var start := instructions;
      CompileInitializeFunction(needZero);
      ok := CompileInstructions(mir);
      if ok {
        LowCompiler.AppendAssociates(start, PrologueCode(env, needZero), InstructionsCode(env, mir, |mir|).value);
      }
    }

    /** The loop of `compile` over the instructions. */
    method CompileInstructions(mir: seq<Mid.MidInstruction>) returns (ok: bool)
      modifies this`instructions
      ensures ok <==> InstructionsCode(env, mir, |mir|).Some?
      ensures ok ==> instructions == old(instructions) + InstructionsCode(env, mir, |mir|).value
    {
      ghost var start := instructions;
      for k := 0 to |mir|
        invariant InstructionsCode(env, mir, k).Some?
        invariant instructions == start + InstructionsCode(env, mir, k).value
      {
        ok := CompileNext(mir, k, start);
        if !ok {
          return;
        }
      }
      ok := true;
    }

    /** One turn of the loop: instruction `k` extends the code, or its panic ends the compilation. */
    method CompileNext(mir: seq<Mid.MidInstruction>, k: nat, ghost start: seq<InstructionIR>) returns (ok: bool)
      requires k < |mir| && InstructionsCode(env, mir, k).Some?
      requires instructions == start + InstructionsCode(env, mir, k).value
      modifies this`instructions
      ensures ok ==> InstructionsCode(env, mir, k + 1).Some?
      ensures ok ==> instructions == start + InstructionsCode(env, mir, k + 1).value
      ensures !ok ==> InstructionsCode(env, mir, |mir|).None?
    {
      ok := CompileInstruction(mir[k]);
      if !ok {
        CodeStopsAtPanic(env, mir, k + 1, |mir|);
        return;
      }
      ghost var more := InstructionCode(env, mir[k]).value;
      assert InstructionsCode(env, mir, k + 1) == Some(InstructionsCode(env, mir, k).value + more);
      LowCompiler.AppendAssociates(start, InstructionsCode(env, mir, k).value, more);
    }

    /** `done`. */
    function Done(): (code: seq<InstructionIR>)
      reads this
      ensures code == instructions
    {
      instructions
    }
  }

  /** A panic at instruction `k - 1` leaves every longer prefix without code. */
  lemma {:induction false} CodeStopsAtPanic(env: Env, mir: seq<Mid.MidInstruction>, k: nat, n: nat)
    requires 0 < k <= n <= |mir| && InstructionCode(env, mir[k - 1]).None?
    ensures InstructionsCode(env, mir, n).None?
    decreases n
  {
    if n > k {
      CodeStopsAtPanic(env, mir, k, n - 1);
    }
  }

  /** Compiling with a fresh compiler gives `Compiled`. */
  method CompileFunction(env: Env, needZero: seq<Mid.VirtualRegister>, mir: seq<Mid.MidInstruction>) returns (code: Option<seq<InstructionIR>>)
    ensures code == Compiled(env, needZero, mir)
  {
    var compiler := new InstructionIRCompiler(env);
    assert compiler.instructions == [];
    var ok := compiler.Compile(needZero, mir);
    assert ok ==> compiler.instructions == Compiled(env, needZero, mir).value;
    code := if ok then Some(compiler.Done()) else None;
  }

  // ---------------------------------------------------------------------------------------------
  // What the code does.

  /**
   * The prologue enters the function, then reserves the frame rounded up to a multiple of 16
   * that covers it, when the frame is not empty; otherwise the argument copies and the zeroing
   * follow the entry directly.
   */
  lemma PrologueReservesAligned(env: Env, needZero: seq<Mid.VirtualRegister>)
    ensures var code := PrologueCode(env, needZero);
      && code[0] == InitializeFunction
      && (env.stackSize > 0 ==>
            && code[1].SubFromStackPointer?
            && code[1].amount % 16 == 0 && env.stackSize <= code[1].amount < env.stackSize + 16
            && code[2..] == env.conventions.argumentMoves + ZeroingCode(env, needZero))
      && (env.stackSize == 0 ==> code[1..] == env.conventions.argumentMoves + ZeroingCode(env, needZero))
  {
    var rest := env.conventions.argumentMoves + ZeroingCode(env, needZero);
    assert PrologueCode(env, needZero) == HeaderCode(env) + rest;
  }

  /** The zeroing stores are one store of `Int(0)` per register, in the given order. */
  lemma {:induction false} ZeroStoresAt(env: Env, registers: seq<Mid.VirtualRegister>)
    ensures forall k :: 0 <= k < |registers| ==> ZeroStores(env, registers)[k] == StoreMemory(Slot(env, registers[k]), Int(0))
    decreases |registers|
  {
    if |registers| > 0 {
      var init := registers[..|registers| - 1];
      ZeroStoresAt(env, init);
      assert forall k :: 0 <= k < |init| ==> registers[k] == init[k];
    }
  }

  /**
   * Running the zeroing stores with `Int(0)` at zero writes 0 into every listed register's slot
   * and leaves every other slot, every register and the operand stack as they were.
   */
  lemma {:induction false} ZeroStoresZero(m: LowMachine, env: Env, registers: seq<Mid.VirtualRegister>, float: FloatOps)
    requires m.Register(Int(0)) == 0
    ensures var r := Run(m, ZeroStores(env, registers), float);
      && r.Some?
      && (forall k :: 0 <= k < |registers| ==> r.value.Memory(Slot(env, registers[k])) == 0)
      && (forall o :: (forall k :: 0 <= k < |registers| ==> Slot(env, registers[k]) != o) ==> r.value.Memory(o) == m.Memory(o))
      && r.value.registers == m.registers && r.value.explicit == m.explicit && r.value.operands == m.operands
    decreases |registers|
  {
    if |registers| > 0 {
      var init := registers[..|registers| - 1];
      var last := StoreMemory(Slot(env, registers[|registers| - 1]), Int(0));
      ZeroStoresZero(m, env, init, float);
      var n := Run(m, ZeroStores(env, init), float).value;
      RunAppend(m, ZeroStores(env, init), [last], float);
      RunCons(n, last, [], float);
      assert Run(m, ZeroStores(env, registers), float) == Some(n.SetMemory(Slot(env, registers[|registers| - 1]), 0));
      assert forall k :: 0 <= k < |init| ==> registers[k] == init[k];
    }
  }

  /**
   * The zeroing part of the prologue leaves 0 in the slot of every register that needs it and
   * changes no other slot; the only register it changes is `Int(0)`, to 0.
   */
  lemma ZeroingZeroes(m: LowMachine, env: Env, needZero: seq<Mid.VirtualRegister>, float: FloatOps)
    ensures var r := Run(m, ZeroingCode(env, needZero), float);
      && r.Some?
      && (forall k :: 0 <= k < |needZero| ==> r.value.Memory(Slot(env, needZero[k])) == 0)
      && (forall o :: (forall k :: 0 <= k < |needZero| ==> Slot(env, needZero[k]) != o) ==> r.value.Memory(o) == m.Memory(o))
      && r.value.registers == (if |needZero| > 0 then m.registers[Int(0) := 0] else m.registers)
      && r.value.explicit == m.explicit && r.value.operands == m.operands
  {
    if |needZero| > 0 {
      var zeroed := m.SetRegister(Int(0), 0);
      RunCons(m, LoadZeroToRegister(Int(0)), ZeroStores(env, needZero), float);
      ZeroStoresZero(zeroed, env, needZero, float);
    }
  }

  /** What an arithmetic instruction computes from its operands: 32-bit wrapping integer arithmetic, or the float operations. */
  function Combined(d: Mid.MidData, float: FloatOps, x: int, y: int): int
    requires IsArithmetic(d)
  {
    match d
    case AddInt32(_, _, _) => WrapI32(x + y)
    case SubInt32(_, _, _) => WrapI32(x - y)
    case AddFloat32(_, _, _) => float.add(x, y)
    case SubFloat32(_, _, _) => float.sub(x, y)
  }

  /**
   * An arithmetic instruction leaves in its destination's slot the combination of its operands'
   * slots and changes no other slot, machine register or the operand stack.
   */
  lemma ArithmeticComputes(m: LowMachine, env: Env, d: Mid.MidData, float: FloatOps)
    requires IsArithmetic(d)
    ensures StoresOnly(m, Run(m, ArithmeticCode(env, d), float), Slot(env, d.dest),
                       Combined(d, float, m.Memory(Slot(env, d.op1)), m.Memory(Slot(env, d.op2))))
  {
    var x := Slot(env, d.op1);
    var y := Slot(env, d.op2);
    var z := Slot(env, d.dest);
    var c := Combined(d, float, m.Memory(x), m.Memory(y));
    if d.AddInt32? || d.SubInt32? {
      RunLoadOperateStore(m, Int(0), Int(1), x, y, z, d.AddInt32?, false, float);
    } else {
      RunLoadOperateStore(m, Float(0), Float(1), x, y, z, d.AddFloat32?, true, float);
    }
  }

  /** The value a constant, copy or argument load puts into its destination, read from the machine before it. */
  function MovedValue(m: LowMachine, env: Env, d: Mid.MidData): int
    requires IsValueMove(d)
  {
    match d
    case LoadInt32(_, v) => v
    case LoadFloat32(_, v) => AsI32(v.bits)
    case LoadNull(_) => 0
    case Move(_, source) => m.Memory(Slot(env, source))
    case LoadArgument(i, _) => m.Memory(ArgumentStackOffset(i))
  }

  /**
   * A constant, copy or argument load stores its value into the destination's slot and changes no
   * other slot, no machine register and not the operand stack; null is 0 and a float its bit pattern.
   */
  lemma ValueMoveStores(m: LowMachine, env: Env, d: Mid.MidData, float: FloatOps)
    requires IsValueMove(d)
    ensures StoresOnly(m, Run(m, ValueMoveCode(env, d), float), Slot(env, d.dest), MovedValue(m, env, d))
  {
    match d
    case LoadInt32(dest, v) => RunMoveConstant(m, Slot(env, dest), v, float);
    case LoadFloat32(dest, v) => RunMoveConstant(m, Slot(env, dest), AsI32(v.bits), float);
    case LoadNull(dest) => RunMoveConstant(m, Slot(env, dest), 0, float);
    case Move(dest, source) => RunLoadStore(m, Int(0), Slot(env, source), Slot(env, dest), float);
    case LoadArgument(i, dest) => RunLoadStore(m, Int(0), ArgumentStackOffset(i), Slot(env, dest), float);
  }

  /** Reading an element loads the index into `Int(1)` and the reference into `Int(0)`, then checks both. */
  lemma LoadElementChecked(m: LowMachine, env: Env, d: Mid.MidData, float: FloatOps)
    requires d.LoadElement?
    ensures var code := ArrayCode(env, d);
      var loaded := Run(m, code[..2], float);
      && code[2] == NullReferenceCheck(Int(0)) && code[3] == ArrayBoundsCheck(Int(0), Int(1))
      && code[|code| - 1] == StoreMemoryExplicit(Slot(env, d.dest), ReturnValue)
      && loaded.Some?
      && loaded.value.Register(Int(0)) == m.Memory(Slot(env, d.arrayRef))
      && loaded.value.Register(Int(1)) == m.Memory(Slot(env, d.index))
  {
    var code := ArrayCode(env, d);
    assert code[..2] == [LoadMemory(Int(1), Slot(env, d.index)), LoadMemory(Int(0), Slot(env, d.arrayRef))];
    RunLoadTwo(m, Int(1), Slot(env, d.index), Int(0), Slot(env, d.arrayRef), float);
  }

  /**
   * Writing an element loads the value into `Int(2)`, the index into `Int(1)` and the reference
   * into `Int(0)`, then checks the reference and the index before the store.
   */
  lemma StoreElementChecked(m: LowMachine, env: Env, d: Mid.MidData, float: FloatOps)
    requires d.StoreElement?
    ensures var code := ArrayCode(env, d);
      var loaded := Run(m, code[..3], float);
      && code[3] == NullReferenceCheck(Int(0)) && code[4] == ArrayBoundsCheck(Int(0), Int(1))
      && code[5] == StoreElement(d.element, Int(0), Int(1), Int(2))
      && loaded.Some?
      && loaded.value.Register(Int(0)) == m.Memory(Slot(env, d.arrayRef))
      && loaded.value.Register(Int(1)) == m.Memory(Slot(env, d.index))
      && loaded.value.Register(Int(2)) == m.Memory(Slot(env, d.stored))
  {
    var code := ArrayCode(env, d);
    assert code[..3] == [LoadMemory(Int(2), Slot(env, d.stored)), LoadMemory(Int(1), Slot(env, d.index)), LoadMemory(Int(0), Slot(env, d.arrayRef))];
    RunLoadThree(m, Int(2), Slot(env, d.stored), Int(1), Slot(env, d.index), Int(0), Slot(env, d.arrayRef), float);
  }

  /** Reading the length loads the reference into `Int(0)` and checks it for null first. */
  lemma LoadArrayLengthChecked(m: LowMachine, env: Env, d: Mid.MidData, float: FloatOps)
    requires d.LoadArrayLength?
    ensures var code := ArrayCode(env, d);
      var loaded := Run(m, code[..1], float);
      && code[1] == NullReferenceCheck(Int(0)) && code[2] == LoadArrayLength(Int(0))
      && code[3] == StoreMemoryExplicit(Slot(env, d.dest), ReturnValue)
      && loaded.Some? && loaded.value.Register(Int(0)) == m.Memory(Slot(env, d.arrayRef))
  {
    var code := ArrayCode(env, d);
    assert code[..1] == [LoadMemory(Int(0), Slot(env, d.arrayRef))];
    RunLoadOne(m, Int(0), Slot(env, d.arrayRef), float);
  }

  /**
   * A conditional branch compiles exactly for `Int32` and `Float32` operands; it loads the two
   * operands' slots into the first two registers of their class and branches on the same
   * condition, type and label.
   */
  lemma BranchConditionTyped(m: LowMachine, env: Env, condition: Program.Condition, compareType: TypeId, target: nat,
                             op1: Mid.VirtualRegister, op2: Mid.VirtualRegister, float: FloatOps)
    ensures BranchConditionCode(env, condition, compareType, target, op1, op2).Some? <==> compareType == Int32 || compareType == Float32
    ensures BranchConditionCode(env, condition, compareType, target, op1, op2).Some? ==>
      var code := BranchConditionCode(env, condition, compareType, target, op1, op2).value;
      var first := if compareType == Float32 then Float(0) else Int(0);
      var second := if compareType == Float32 then Float(1) else Int(1);
      var loaded := Run(m, code[..2], float);
      && |code| == 3
      && code[2] == BranchCondition(LowCompiler.JumpConditionOf(condition), compareType, target, first, second)
      && loaded.Some?
      && loaded.value.Register(first) == m.Memory(Slot(env, op1))
      && loaded.value.Register(second) == m.Memory(Slot(env, op2))
  {
    if compareType == Int32 || compareType == Float32 {
      var code := BranchConditionCode(env, condition, compareType, target, op1, op2).value;
      var first := if compareType == Float32 then Float(0) else Int(0);
      var second := if compareType == Float32 then Float(1) else Int(1);
      assert code[..2] == [LoadMemory(first, Slot(env, op1)), LoadMemory(second, Slot(env, op2))];
      RunLoadTwo(m, first, Slot(env, op1), second, Slot(env, op2), float);
    }
  }

  /** The call passes every argument from its register's slot, in order. */
  lemma {:induction false} ArgumentSlotsAt(env: Env, arguments: seq<Mid.VirtualRegister>)
    ensures forall k :: 0 <= k < |arguments| ==> ArgumentSlots(env, arguments)[k] == Memory(Slot(env, arguments[k]))
    decreases |arguments|
  {
    if |arguments| > 0 {
      var init := arguments[..|arguments| - 1];
      ArgumentSlotsAt(env, init);
      assert forall k :: 0 <= k < |init| ==> arguments[k] == init[k];
    }
  }

  /** The instructions whose compilation panics. */
  predicate Panics(env: Env, d: Mid.MidData) {
    || (d.Call? && d.signature !in env.functions)
    || (d.BranchCondition? && d.compareType != Int32 && d.compareType != Float32)
  }

  /**
   * An instruction compiles exactly when it does not panic; its code then starts with its marker,
   * and a call passes its arguments from their slots.
   */
  lemma InstructionCompilesUnlessPanic(env: Env, instruction: Mid.MidInstruction)
    ensures InstructionCode(env, instruction).None? <==> Panics(env, instruction.data)
    ensures InstructionCode(env, instruction).Some? ==> InstructionCode(env, instruction).value[0] == Marker(instruction.index)
    ensures instruction.data.Call? && InstructionCode(env, instruction).Some? ==>
      var call := InstructionCode(env, instruction).value[1];
      && call == Call(instruction.data.signature, call.arguments)
      && |call.arguments| == |instruction.data.arguments|
      && forall k :: 0 <= k < |call.arguments| ==> call.arguments[k] == Memory(Slot(env, instruction.data.arguments[k]))
  {
    if instruction.data.Call? {
      ArgumentSlotsAt(env, instruction.data.arguments);
    }
  }

  /** A function compiles exactly when none of its instructions panics. */
  lemma {:induction false} CompilesUnlessSomePanic(env: Env, mir: seq<Mid.MidInstruction>, k: nat)
    requires k <= |mir|
    ensures InstructionsCode(env, mir, k).Some? <==> forall p :: 0 <= p < k ==> !Panics(env, mir[p].data)
    decreases k
  {
    if k > 0 {
      CompilesUnlessSomePanic(env, mir, k - 1);
      InstructionCompilesUnlessPanic(env, mir[k - 1]);
    }
  }
}
