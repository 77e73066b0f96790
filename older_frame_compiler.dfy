/**
 * The earlier revision of the frame-memory lowering (`src/ir/ir_compiler.rs`). It lowers the MIR
 * subset its revision had (no Boolean, multiplication, division or constant-operand instructions,
 * no compares and no `PrintStackFrame` instruction) exactly as `FrameCompiler` does, with three
 * differences: the prologue zeroes through `Int(0)` instead of the spill register, every
 * allocation is preceded by a `PrintStackFrame` of its position, and a conditional branch compares
 * only `Int32` (signed) or `Float32` (unsigned) operands and panics on anything else.
 *
 * The compiler object reuses the newer one for the cases they share: it holds a
 * `FrameCompiler.InstructionIRCompiler` over the same inputs and the same instruction list.
 */
module OlderFrameCompiler {
  import opened Wrappers
  import opened TypeIds
  import opened Program
  import opened Mir
  import opened CompilerIr
  import CallingConventions
  import FrameCompiler
  import MirCompiler

  type Env = FrameCompiler.Env

  /** The MIR variants this revision's `compile_instruction` has a case for. */
  predicate InRevision(d: MirData) {
    || d.LoadInt32? || d.LoadFloat32? || d.Move? || d.AddInt32? || d.SubInt32? || d.AddFloat32? || d.SubFloat32?
    || d.Return? || d.Call? || d.LoadArgument? || d.LoadNull? || d.NewArray? || d.LoadElement? || d.StoreElement?
    || d.LoadArrayLength? || d.NewObject? || d.LoadField? || d.StoreField? || d.GarbageCollect?
    || d.BranchLabel? || d.Branch? || d.BranchCondition?
  }

  /** `compile_initialize_function`: as in the newer lowering, but zeroing through `Int(0)`. */
  function PrologueCode(env: Env, needZero: seq<RegisterMir>): seq<InstructionIR> {
    FrameCompiler.HeaderCode(env) + CallingConventions.ArgumentsToFrameCode(env.declaration.parameters, 0)
    + FrameCompiler.ZeroingCode(env, Int(0), needZero)
  }

  /** A new array or object: the stack frame is printed first. */
  function AllocationCode(env: Env, position: nat, d: MirData): seq<InstructionIR>
    requires d.NewArray? || d.NewObject?
  {
    [InstructionIR.PrintStackFrame(position)] + FrameCompiler.AllocationCode(env, d)
  }

  /** A conditional branch: `Int32` compares signed and `Float32` unsigned; any other type panics. */
  function BranchConditionCode(env: Env, condition: Condition, compareType: TypeId, target: nat, op1: RegisterMir, op2: RegisterMir): Option<seq<InstructionIR>> {
    if compareType == Int32 || compareType == Float32 then
      Some(FrameCompiler.CompareOperandsCode(env, compareType, op1, op2) + [InstructionIR.BranchCondition(condition, compareType == Int32, target)])
    else None
  }

  /** The code of one MIR instruction after its marker. */
  function Body(env: Env, position: nat, d: MirData): Option<seq<InstructionIR>> {
    if !InRevision(d) then None
    else if d.NewArray? || d.NewObject? then Some(AllocationCode(env, position, d))
    else if d.BranchCondition? then BranchConditionCode(env, d.condition, d.compareType, d.branchLabel, d.op1, d.op2)
    else FrameCompiler.Body(env, position, d)
  }

  /** `compile_instruction`: the marker, then the body. */
  function InstructionCode(env: Env, position: nat, instruction: InstructionMir): Option<seq<InstructionIR>> {
    match Body(env, position, instruction.data)
    case None => None
    case Some(body) => Some([Marker(instruction.index, position)] + body)
  }

  /** The code of the first `k` instructions. */
  function InstructionsCode(env: Env, instructions: seq<InstructionMir>, k: nat): Option<seq<InstructionIR>>
    requires k <= |instructions|
    decreases k
  {
    if k == 0 then Some([])
    else match InstructionsCode(env, instructions, k - 1)
      case None => None
      case Some(code) =>
        match InstructionCode(env, k - 1, instructions[k - 1])
        case None => None
        case Some(more) => Some(code + more)
  }

  /** `compile` on a fresh compiler. */
  function Compiled(env: Env, result: MirCompiler.MirCompilationResult): Option<seq<InstructionIR>> {
    match InstructionsCode(env, result.instructions, |result.instructions|)
    case None => None
    case Some(code) => Some(PrologueCode(env, result.needZeroInitializeRegisters) + code)
  }

  // ---------------------------------------------------------------------------------------------
  // The compiler object.

  /** `InstructionIRCompiler` of this revision, over the newer lowering's inputs and instruction list. */
  class InstructionIRCompiler {
    const lowering: FrameCompiler.InstructionIRCompiler

    /** `new`: no instructions yet. */
    constructor (env: Env, compilationResult: MirCompiler.MirCompilationResult)
      ensures lowering.env == env && lowering.compilationResult == compilationResult
      ensures fresh(lowering.buffer) && lowering.buffer.instructions == []
    {
      lowering := new FrameCompiler.InstructionIRCompiler(env, compilationResult);
    }

    /** `compile_initialize_function`. */
    method CompileInitializeFunction()
      modifies lowering.buffer
      ensures lowering.buffer.instructions == old(lowering.buffer.instructions)
        + PrologueCode(lowering.env, lowering.compilationResult.needZeroInitializeRegisters)
    {
      var env := lowering.env;
      var buffer := lowering.buffer;
      ghost var start := buffer.instructions;
      buffer.Append([InitializeFunction]);
      if env.stackSize > 0 {
        buffer.Append([SubFromStackPointer(env.stackSize)]);
      }
      var _ := CallingConventions.MoveArgumentsToStack(env.declaration.parameters, buffer);
      lowering.CompileZeroing(Int(0), lowering.compilationResult.needZeroInitializeRegisters);
      FrameCompiler.AppendAssociates(start, FrameCompiler.HeaderCode(env), CallingConventions.ArgumentsToFrameCode(env.declaration.parameters, 0));
      FrameCompiler.AppendAssociates(start, FrameCompiler.HeaderCode(env) + CallingConventions.ArgumentsToFrameCode(env.declaration.parameters, 0),
                                     FrameCompiler.ZeroingCode(env, Int(0), lowering.compilationResult.needZeroInitializeRegisters));
    }

    /** `NewArray` and `NewObject`. */
    method CompileAllocation(position: nat, d: MirData)
      requires d.NewArray? || d.NewObject?
      modifies lowering.buffer
      ensures lowering.buffer.instructions == old(lowering.buffer.instructions) + AllocationCode(lowering.env, position, d)
    {
      ghost var start := lowering.buffer.instructions;
      lowering.buffer.Append([InstructionIR.PrintStackFrame(position)]);
      lowering.CompileAllocation(d);
      FrameCompiler.AppendAssociates(start, [InstructionIR.PrintStackFrame(position)], FrameCompiler.AllocationCode(lowering.env, d));
    }

    /** `BranchCondition`: `false` iff the operands are neither `Int32` nor `Float32`. */
    method CompileBranchCondition(condition: Condition, compareType: TypeId, target: nat, op1: RegisterMir, op2: RegisterMir) returns (ok: bool)
      modifies lowering.buffer
      ensures ok <==> BranchConditionCode(lowering.env, condition, compareType, target, op1, op2).Some?
      ensures ok ==> (lowering.buffer.instructions == old(lowering.buffer.instructions)
        + BranchConditionCode(lowering.env, condition, compareType, target, op1, op2).value)
    {
      if compareType != Int32 && compareType != Float32 {
        return false;
      }
      ghost var start := lowering.buffer.instructions;
      var signed := lowering.CompileCompareOperands(compareType, op1, op2);
      lowering.buffer.Append([InstructionIR.BranchCondition(condition, signed, target)]);
      FrameCompiler.AppendAssociates(start, FrameCompiler.CompareOperandsCode(lowering.env, compareType, op1, op2),
                                     [InstructionIR.BranchCondition(condition, signed, target)]);
      return true;
    }

    /** The match of `compile_instruction` after the marker. */
    method CompileBody(position: nat, d: MirData) returns (ok: bool)
      modifies lowering.buffer
      ensures ok <==> Body(lowering.env, position, d).Some?
      ensures ok ==> lowering.buffer.instructions == old(lowering.buffer.instructions) + Body(lowering.env, position, d).value
    {
      if !InRevision(d) {
        ok := false;
      } else if d.NewArray? || d.NewObject? {
        CompileAllocation(position, d);
        ok := true;
      } else if d.BranchCondition? {
        ok := CompileBranchCondition(d.condition, d.compareType, d.branchLabel, d.op1, d.op2);
      } else {
        ok := lowering.CompileBody(position, d);
      }
    }

    /** `compile_instruction`. */
    method CompileInstruction(position: nat, instruction: InstructionMir) returns (ok: bool)
      modifies lowering.buffer
      ensures ok <==> InstructionCode(lowering.env, position, instruction).Some?
      ensures ok ==> lowering.buffer.instructions == old(lowering.buffer.instructions) + InstructionCode(lowering.env, position, instruction).value
    {
      ghost var start := lowering.buffer.instructions;
      lowering.buffer.Append([Marker(instruction.index, position)]);
      ok := CompileBody(position, instruction.data);
      if ok {
        FrameCompiler.AppendAssociates(start, [Marker(instruction.index, position)], Body(lowering.env, position, instruction.data).value);
      }
    }

    /** `compile`. */
    method Compile() returns (ok: bool)
      modifies lowering.buffer
      ensures ok <==> Compiled(lowering.env, lowering.compilationResult).Some?
      ensures ok ==> lowering.buffer.instructions == old(lowering.buffer.instructions) + Compiled(lowering.env, lowering.compilationResult).value
    {
      ghost var start := lowering.buffer.instructions;
      CompileInitializeFunction();
      ok := CompileInstructions();
      if ok {
        FrameCompiler.AppendAssociates(start, PrologueCode(lowering.env, lowering.compilationResult.needZeroInitializeRegisters),
          InstructionsCode(lowering.env, lowering.compilationResult.instructions, |lowering.compilationResult.instructions|).value);
      }
    }

    /** The loop of `compile` over the instructions. */
    method CompileInstructions() returns (ok: bool)
      modifies lowering.buffer
      ensures ok <==> InstructionsCode(lowering.env, lowering.compilationResult.instructions, |lowering.compilationResult.instructions|).Some?
      ensures ok ==> (lowering.buffer.instructions == old(lowering.buffer.instructions)
        + InstructionsCode(lowering.env, lowering.compilationResult.instructions, |lowering.compilationResult.instructions|).value)
    {
      ghost var start := lowering.buffer.instructions;
      var instructions := lowering.compilationResult.instructions;
      ghost var env := lowering.env;
      for position := 0 to |instructions|
        invariant InstructionsCode(env, instructions, position).Some?
        invariant lowering.buffer.instructions == start + InstructionsCode(env, instructions, position).value
      {
        ok := CompileNext(instructions, position, start);
        if !ok {
          return;
        }
      }
      ok := true;
    }

    /** One turn of the loop. */
    method CompileNext(instructions: seq<InstructionMir>, position: nat, ghost start: seq<InstructionIR>) returns (ok: bool)
      requires position < |instructions| && InstructionsCode(lowering.env, instructions, position).Some?
      requires lowering.buffer.instructions == start + InstructionsCode(lowering.env, instructions, position).value
      modifies lowering.buffer
      ensures ok ==> InstructionsCode(lowering.env, instructions, position + 1).Some?
      ensures ok ==> lowering.buffer.instructions == start + InstructionsCode(lowering.env, instructions, position + 1).value
      ensures !ok ==> InstructionsCode(lowering.env, instructions, |instructions|).None?
    {
      ok := CompileInstruction(position, instructions[position]);
      if !ok {
        CodeStopsAtPanic(lowering.env, instructions, position + 1, |instructions|);
        return;
      }
      ghost var more := InstructionCode(lowering.env, position, instructions[position]).value;
      assert InstructionsCode(lowering.env, instructions, position + 1) == Some(InstructionsCode(lowering.env, instructions, position).value + more);
      FrameCompiler.AppendAssociates(start, InstructionsCode(lowering.env, instructions, position).value, more);
    }

    /** `done`. */
    function Done(): (code: seq<InstructionIR>)
      reads lowering.buffer
      ensures code == lowering.buffer.instructions
    {
      lowering.buffer.instructions
    }
  }

  /** A panic at instruction `k - 1` leaves every longer prefix without code. */
  lemma {:induction false} CodeStopsAtPanic(env: Env, instructions: seq<InstructionMir>, k: nat, n: nat)
    requires 0 < k <= n <= |instructions| && InstructionCode(env, k - 1, instructions[k - 1]).None?
    ensures InstructionsCode(env, instructions, n).None?
    decreases n
  {
    if n > k {
      CodeStopsAtPanic(env, instructions, k, n - 1);
    }
  }

  /** Compiling with a fresh compiler gives `Compiled`. */
  method CompileFunction(env: Env, compilationResult: MirCompiler.MirCompilationResult) returns (code: Option<seq<InstructionIR>>)
    ensures code == Compiled(env, compilationResult)
  {
    var compiler := new InstructionIRCompiler(env, compilationResult);
    var ok := compiler.Compile();
    assert ok ==> compiler.lowering.buffer.instructions == Compiled(env, compilationResult).value;
    code := if ok then Some(compiler.Done()) else None;
  }

  // ---------------------------------------------------------------------------------------------
  // What the code does.

  /**
   * This revision's zeroing leaves 0 in the slot of every register that needs it and changes no
   * other slot; it overwrites `Int(0)` with 0 and no other register.
   */
  lemma ZeroingThroughFirstRegister(m: Machine, env: Env, needZero: seq<RegisterMir>)
    ensures var r := Run(m, FrameCompiler.ZeroingCode(env, Int(0), needZero));
      && r.Some?
      && (forall k :: 0 <= k < |needZero| ==> r.value.FrameValue(FrameCompiler.Slot(env, needZero[k])) == 0)
      && (forall o :: (forall k :: 0 <= k < |needZero| ==> FrameCompiler.Slot(env, needZero[k]) != o) ==> r.value.FrameValue(o) == m.FrameValue(o))
      && r.value.hardware == (if |needZero| > 0 then m.hardware[Int(0) := 0] else m.hardware)
  {
    FrameCompiler.ZeroingZeroes(m, env, Int(0), needZero);
  }

  /**
   * The prologue differs from the newer one only in the register it zeroes through: the two share
   * the entry, the frame reservation and the argument copies, and each ends with the zeroing code
   * of its register.
   */
  lemma PrologueAgreesUpToZeroRegister(env: Env, needZero: seq<RegisterMir>)
    ensures var older := PrologueCode(env, needZero);
      var newer := FrameCompiler.PrologueCode(env, needZero);
      var front := |FrameCompiler.HeaderCode(env) + CallingConventions.ArgumentsToFrameCode(env.declaration.parameters, 0)|;
      && |older| == |newer| && front <= |older|
      && older[..front] == newer[..front]
      && older[front..] == FrameCompiler.ZeroingCode(env, Int(0), needZero)
      && newer[front..] == FrameCompiler.ZeroingCode(env, IntSpill, needZero)
  {
    var front := FrameCompiler.HeaderCode(env) + CallingConventions.ArgumentsToFrameCode(env.declaration.parameters, 0);
    FrameCompiler.ZeroingShape(env, Int(0), needZero);
    FrameCompiler.ZeroingShape(env, IntSpill, needZero);
    FrontAndRest(front, FrameCompiler.ZeroingCode(env, Int(0), needZero));
    FrontAndRest(front, FrameCompiler.ZeroingCode(env, IntSpill, needZero));
  }

  lemma FrontAndRest(front: seq<InstructionIR>, rest: seq<InstructionIR>)
    ensures (front + rest)[..|front|] == front && (front + rest)[|front|..] == rest
  {
  }

  /**
   * Against the newer lowering: whatever this revision compiles, the newer one compiles too, to
   * the same code except that an allocation here is preceded by a `PrintStackFrame` of its
   * position; and the newer one compiles nothing of this revision's subset that this one rejects,
   * except conditional branches on types other than `Int32`, `Float32` and `Void`.
   */
  lemma AgreesWithNewerLowering(env: Env, position: nat, d: MirData)
    ensures Body(env, position, d).Some? ==>
      && FrameCompiler.Body(env, position, d).Some?
      && Body(env, position, d).value
         == (if d.NewArray? || d.NewObject? then [InstructionIR.PrintStackFrame(position)] else []) + FrameCompiler.Body(env, position, d).value
    ensures InRevision(d) && FrameCompiler.Body(env, position, d).Some? && Body(env, position, d).None? ==>
      d.BranchCondition? && d.compareType != Int32 && d.compareType != Float32 && d.compareType != Void
  {
    if d.NewArray? || d.NewObject? {
      assert FrameCompiler.Body(env, position, d) == Some(FrameCompiler.AllocationCode(env, d));
    } else if d.BranchCondition? {
      assert d.compareType == Int32 ==> FrameCompiler.Signed(d.compareType);
    }
  }

  /**
   * A conditional branch compiles exactly for `Int32` and `Float32` operands, loading them into
   * the first two registers of their class, and its condition is signed exactly for `Int32`.
   */
  lemma BranchConditionSignedness(env: Env, condition: Condition, compareType: TypeId, target: nat, op1: RegisterMir, op2: RegisterMir)
    ensures BranchConditionCode(env, condition, compareType, target, op1, op2).Some? <==> compareType == Int32 || compareType == Float32
    ensures BranchConditionCode(env, condition, compareType, target, op1, op2).Some? ==>
      var code := BranchConditionCode(env, condition, compareType, target, op1, op2).value;
      var float := compareType == Float32;
      && |code| == 4
      && code[0] == LoadFrameMemory(FrameCompiler.First(float), FrameCompiler.Slot(env, op1))
      && code[1] == LoadFrameMemory(FrameCompiler.Second(float), FrameCompiler.Slot(env, op2))
      && code[2] == InstructionIR.Compare(compareType, FrameCompiler.First(float), FrameCompiler.Second(float))
      && code[3] == InstructionIR.BranchCondition(condition, !float, target)
  {
  }

  /** The instructions whose compilation panics at `position`. */
  predicate Panics(env: Env, position: nat, d: MirData) {
    || !InRevision(d)
    || (d.BranchCondition? && d.compareType != Int32 && d.compareType != Float32)
    || (!d.BranchCondition? && FrameCompiler.Panics(env, position, d))
  }

  /** An instruction compiles exactly when it does not panic, and its code then starts with its marker. */
  lemma InstructionCompilesUnlessPanic(env: Env, position: nat, instruction: InstructionMir)
    ensures InstructionCode(env, position, instruction).None? <==> Panics(env, position, instruction.data)
    ensures InstructionCode(env, position, instruction).Some? ==>
      InstructionCode(env, position, instruction).value[0] == Marker(instruction.index, position)
  {
    FrameCompiler.InstructionCompilesUnlessPanic(env, position, instruction);
  }

  /** The first `k` instructions compile exactly when each of them does. */
  lemma {:induction false} CompilesIffEachCompiles(env: Env, instructions: seq<InstructionMir>, k: nat)
    requires k <= |instructions|
    ensures InstructionsCode(env, instructions, k).Some? <==> forall p :: 0 <= p < k ==> InstructionCode(env, p, instructions[p]).Some?
    decreases k
  {
    if k > 0 {
      CompilesIffEachCompiles(env, instructions, k - 1);
      var last := InstructionCode(env, k - 1, instructions[k - 1]);
      assert InstructionsCode(env, instructions, k).Some? <==> InstructionsCode(env, instructions, k - 1).Some? && last.Some?;
      assert (forall p :: 0 <= p < k ==> InstructionCode(env, p, instructions[p]).Some?)
        <==> (forall p :: 0 <= p < k - 1 ==> InstructionCode(env, p, instructions[p]).Some?) && last.Some?;
    }
  }

  /** A function compiles exactly when none of its instructions panics at its position. */
  lemma CompilesUnlessSomePanic(env: Env, instructions: seq<InstructionMir>, k: nat)
    requires k <= |instructions|
    ensures InstructionsCode(env, instructions, k).Some? <==> forall p :: 0 <= p < k ==> !Panics(env, p, instructions[p].data)
  {
    CompilesIffEachCompiles(env, instructions, k);
    forall p | 0 <= p < k
      ensures InstructionCode(env, p, instructions[p]).Some? <==> !Panics(env, p, instructions[p].data)
    {
      InstructionCompilesUnlessPanic(env, p, instructions[p]);
    }
  }
}
