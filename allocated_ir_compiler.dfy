/**
 * The earlier revision of the register-allocated lowering (`src/ir/allocated_ir_compiler.rs`),
 * over the older MIR (`Mid`). It allocates with two integer and two float registers, and lowers
 * every instruction its revision has exactly as `AllocatedCompiler` lowers the corresponding MIR
 * instruction, with three differences:
 *   - the prologue's zeroing looks up every listed register, so a register the allocation lacks
 *     panics there instead of being skipped;
 *   - integer and float addition and subtraction combine into the first operand's location in
 *     place and then move the result to the destination, so the first operand is overwritten
 *     whenever the destination is another register;
 *   - a conditional branch compares only `Int32` (signed) or `Float32` (unsigned) operands and
 *     panics on any other type.
 *
 * Its inputs are those of `AllocatedCompiler`: what the compiler reads but this revision does not
 * define (the live intervals of `compute_liveness` over the older MIR, `alive_registers_at`,
 * `register_mapping::get`, `stack_size`) is a parameter. Every `unwrap` or `panic!` gives `None`.
 */
module AllocatedIrCompiler {
  import opened Wrappers
  import opened TypeIds
  import opened Program
  import opened CompilerIr
  import opened RegisterAllocations
  import Liveness
  import LinearScan
  import Mid
  import Mir
  import IrHelpers
  import CallingConventions
  import FrameCompiler
  import AllocatedCompiler

  type Env = AllocatedCompiler.Env

  // ---------------------------------------------------------------------------------------------
  // The older MIR as MIR: the same registers and the same-named instructions.

  function AsMir(r: Mid.VirtualRegister): (s: Mir.RegisterMir)
    ensures s.number == r.number && s.valueType == r.valueType
  {
    Mir.RegisterMir(r.number, r.valueType)
  }

  function AsMirs(rs: seq<Mid.VirtualRegister>): (ss: seq<Mir.RegisterMir>)
    ensures |ss| == |rs| && forall k :: 0 <= k < |rs| ==> ss[k] == AsMir(rs[k])
  {
    seq(|rs|, k requires 0 <= k < |rs| => AsMir(rs[k]))
  }

  function AsMirOption(r: Option<Mid.VirtualRegister>): (s: Option<Mir.RegisterMir>)
    ensures s.Some? <==> r.Some?
    ensures r.Some? ==> s.value == AsMir(r.value)
  {
    if r.Some? then Some(AsMir(r.value)) else None
  }

  /** The MIR instruction of the same name over the same registers and constants. */
  function AsMirData(d: Mid.MidData): Mir.MirData {
    match d
    case LoadInt32(dest, value) => Mir.LoadInt32(AsMir(dest), value)
    case LoadFloat32(dest, value) => Mir.LoadFloat32(AsMir(dest), value)
    case Move(dest, source) => Mir.Move(AsMir(dest), AsMir(source))
    case AddInt32(dest, a, b) => Mir.AddInt32(AsMir(dest), AsMir(a), AsMir(b))
    case SubInt32(dest, a, b) => Mir.SubInt32(AsMir(dest), AsMir(a), AsMir(b))
    case AddFloat32(dest, a, b) => Mir.AddFloat32(AsMir(dest), AsMir(a), AsMir(b))
    case SubFloat32(dest, a, b) => Mir.SubFloat32(AsMir(dest), AsMir(a), AsMir(b))
    case Return(r) => Mir.Return(AsMirOption(r))
    case Call(signature, r, arguments) => Mir.Call(signature, AsMirOption(r), AsMirs(arguments))
    case LoadArgument(argument, dest) => Mir.LoadArgument(argument, AsMir(dest))
    case LoadNull(dest) => Mir.LoadNull(AsMir(dest))
    case NewArray(element, dest, size) => Mir.NewArray(element, AsMir(dest), AsMir(size))
    case LoadElement(element, dest, arrayRef, index) => Mir.LoadElement(element, AsMir(dest), AsMir(arrayRef), AsMir(index))
    case StoreElement(element, arrayRef, index, stored) => Mir.StoreElement(element, AsMir(arrayRef), AsMir(index), AsMir(stored))
    case LoadArrayLength(dest, arrayRef) => Mir.LoadArrayLength(AsMir(dest), AsMir(arrayRef))
    case BranchLabel(l) => Mir.BranchLabel(l)
    case Branch(l) => Mir.Branch(l)
    case BranchCondition(condition, compareType, l, a, b) => Mir.BranchCondition(condition, compareType, l, AsMir(a), AsMir(b))
  }

  /** The conversion keeps the register operands, converted one by one. */
  lemma AsMirDataRegisters(d: Mid.MidData)
    ensures AsMirData(d).Registers() == AsMirs(d.Registers())
  {
    if d.Return? || d.Call? {
      CallRegisters(d);
    } else if d.Tag() <= 10 {
      ComputationRegisters(d);
    } else {
      AccessRegisters(d);
    }
  }

  lemma ComputationRegisters(d: Mid.MidData)
    requires d.Tag() <= 10 && !d.Return? && !d.Call?
    ensures AsMirData(d).Registers() == AsMirs(d.Registers())
  {
    match d
    case LoadInt32(dest, _) => AsMirsOne(dest);
    case LoadFloat32(dest, _) => AsMirsOne(dest);
    case Move(dest, source) => AsMirsTwo(dest, source);
    case AddInt32(dest, a, b) => AsMirsThree(dest, a, b);
    case SubInt32(dest, a, b) => AsMirsThree(dest, a, b);
    case AddFloat32(dest, a, b) => AsMirsThree(dest, a, b);
    case SubFloat32(dest, a, b) => AsMirsThree(dest, a, b);
    case LoadArgument(_, dest) => AsMirsOne(dest);
    case LoadNull(dest) => AsMirsOne(dest);
  }

  lemma CallRegisters(d: Mid.MidData)
    requires d.Return? || d.Call?
    ensures AsMirData(d).Registers() == AsMirs(d.Registers())
  {
    match d
    case Return(r) =>
      if r.Some? {
        AsMirsOne(r.value);
      }
    case Call(signature, r, arguments) =>
      if r.Some? {
        AsMirsOne(r.value);
      }
      AsMirsAppend(if r.Some? then [r.value] else [], arguments);
  }

  lemma AccessRegisters(d: Mid.MidData)
    requires d.Tag() > 10
    ensures AsMirData(d).Registers() == AsMirs(d.Registers())
  {
    match d
    case NewArray(_, dest, size) => AsMirsTwo(dest, size);
    case LoadElement(_, dest, arrayRef, index) => AsMirsThree(dest, arrayRef, index);
    case StoreElement(_, arrayRef, index, stored) => AsMirsThree(arrayRef, index, stored);
    case LoadArrayLength(dest, arrayRef) => AsMirsTwo(dest, arrayRef);
    case BranchLabel(_) =>
    case Branch(_) =>
    case BranchCondition(_, _, _, a, b) => AsMirsTwo(a, b);
  }

  lemma AsMirsOne(a: Mid.VirtualRegister)
    ensures AsMirs([a]) == [AsMir(a)]
  {
  }

  lemma AsMirsTwo(a: Mid.VirtualRegister, b: Mid.VirtualRegister)
    ensures AsMirs([a, b]) == [AsMir(a), AsMir(b)]
  {
  }

  lemma AsMirsThree(a: Mid.VirtualRegister, b: Mid.VirtualRegister, c: Mid.VirtualRegister)
    ensures AsMirs([a, b, c]) == [AsMir(a), AsMir(b), AsMir(c)]
  {
  }

  lemma AsMirsAppend(a: seq<Mid.VirtualRegister>, b: seq<Mid.VirtualRegister>)
    ensures AsMirs(a + b) == AsMirs(a) + AsMirs(b)
  {
  }

  /** `get_register` does not panic for any register of the list. */
  predicate AllAllocated(env: Env, rs: seq<Mid.VirtualRegister>) {
    forall k :: 0 <= k < |rs| ==> AllocatedCompiler.Mapped(env, AsMir(rs[k]))
  }

  lemma AllAllocatedIff(env: Env, rs: seq<Mid.VirtualRegister>)
    ensures AllAllocated(env, rs) <==> AllocatedCompiler.AllMapped(env, AsMirs(rs))
  {
    if AllocatedCompiler.AllMapped(env, AsMirs(rs)) {
      forall k | 0 <= k < |rs|
        ensures AllocatedCompiler.Mapped(env, AsMir(rs[k]))
      {
        assert AsMirs(rs)[k] in AsMirs(rs);
      }
    }
  }

  // ---------------------------------------------------------------------------------------------
  // The register allocation.

  /** `register_allocate`: two registers of each class. */
  const AllocationSettings := LinearScan.Settings(2, 2)

  /** Every hardware register the allocation hands out is a numbered one below `bound`. */
  predicate HardwareBelow(registers: IrHelpers.Allocation, bound: nat) {
    forall r :: r in registers && registers[r].Hardware? ==>
      (registers[r].register.Int? || registers[r].register.Float?) && registers[r].register.index < bound
  }

  /**
   * `register_allocate`: the linear scan over the live intervals, and the allocation built from
   * what it assigns and spills. With distinct intervals it never panics, and every hardware
   * register it hands out is `Int(0)`, `Int(1)`, `Float(0)` or `Float(1)`.
   */
  method RegisterAllocate(liveIntervals: seq<Liveness.LiveInterval>) returns (allocation: Option<IrHelpers.Allocation>)
    ensures allocation.None? <==> LinearScan.AllocateSpec(LinearScan.Corrected, liveIntervals, AllocationSettings).None?
    ensures allocation.Some? ==>
      var tables := LinearScan.AllocateSpec(LinearScan.Corrected, liveIntervals, AllocationSettings).value;
      Built(allocation.value, tables.registers, tables.spilled)
    ensures LinearScan.Distinct(liveIntervals) ==> allocation.Some? && HardwareBelow(allocation.value, 2)
  {
    var tables := LinearScan.Allocate(LinearScan.Corrected, liveIntervals, AllocationSettings);
    if tables.None? {
      if LinearScan.Distinct(liveIntervals) {
        LinearScan.AllocationSound(liveIntervals, AllocationSettings);
      }
      return None;
    }
    var built := new RegisterAllocation(tables.value.registers, tables.value.spilled);
    allocation := Some(built.registers);
    if LinearScan.Distinct(liveIntervals) {
      LinearScan.AllocationSound(liveIntervals, AllocationSettings);
      BuiltBelow(built.registers, tables.value.registers, tables.value.spilled, AllocationSettings);
    }
  }

  /** What is built from an allocation in range uses hardware registers below the larger class size. */
  lemma BuiltBelow(registers: IrHelpers.Allocation, granted: map<Liveness.LiveInterval, nat>, spilled: seq<Liveness.LiveInterval>,
                   settings: LinearScan.Settings)
    requires Built(registers, granted, spilled) && LinearScan.InRange(settings, granted)
    requires settings.numIntRegisters == settings.numFloatRegisters
    ensures HardwareBelow(registers, settings.numIntRegisters)
  {
    forall r | r in registers && registers[r].Hardware?
      ensures (registers[r].register.Int? || registers[r].register.Float?) && registers[r].register.index < settings.numIntRegisters
    {
      var x := registers[r].liveInterval;
      assert x in granted;
      assert registers[r].register.index == granted[x];
    }
  }

  /**
   * With the allocation below `Int(3)`, no operand ever lives in a temporary, so `try_remove`
   * leaves the pool of `Int(3)`, `Int(4)` and `Int(5)` whole and the allocation is spill-free.
   */
  lemma BelowTempsLeavesPool(env: Env, r: Mir.RegisterMir)
    requires HardwareBelow(env.registers, 3) && AllocatedCompiler.Mapped(env, r)
    ensures AllocatedCompiler.TryRemoveTemp(env, AllocatedCompiler.FreshTemps, r) == AllocatedCompiler.FreshTemps
    ensures IrHelpers.SpillFree(env.registers)
  {
  }

  // ---------------------------------------------------------------------------------------------
  // The prologue.

  /**
   * The zeroing of `compile_initialize_function`: for each listed register, its class's spill
   * register zeroed the first time, then moved or stored into the register; `get_register` panics
   * on a register the allocation lacks.
   */
  function Zeroing(env: Env, needZero: seq<Mid.VirtualRegister>, intZeroed: bool, floatZeroed: bool): Option<seq<InstructionIR>>
    decreases |needZero|
  {
    if |needZero| == 0 then Some([])
    else
      var r := AsMir(needZero[0]);
      if !AllocatedCompiler.Mapped(env, r) then None
      else match Zeroing(env, needZero[1..], intZeroed || r.valueType != Float32, floatZeroed || r.valueType == Float32)
        case None => None
        case Some(rest) => Some(AllocatedCompiler.ZeroingHead(env, r, intZeroed, floatZeroed) + rest)
  }

  /**
   * The zeroing compiles exactly when the allocation has every listed register, and is then the
   * later revision's zeroing, which skips no register when every one is allocated.
   */
  lemma {:induction false} ZeroingAgrees(env: Env, needZero: seq<Mid.VirtualRegister>, intZeroed: bool, floatZeroed: bool)
    ensures Zeroing(env, needZero, intZeroed, floatZeroed).Some? <==> AllAllocated(env, needZero)
    ensures Zeroing(env, needZero, intZeroed, floatZeroed).Some? ==>
      Zeroing(env, needZero, intZeroed, floatZeroed).value == AllocatedCompiler.ZeroingFrom(env, AsMirs(needZero), intZeroed, floatZeroed)
    decreases |needZero|
  {
    if |needZero| > 0 {
      var r := AsMir(needZero[0]);
      var iz, fz := intZeroed || r.valueType != Float32, floatZeroed || r.valueType == Float32;
      ZeroingAgrees(env, needZero[1..], iz, fz);
      assert AsMirs(needZero)[0] == r && AsMirs(needZero)[1..] == AsMirs(needZero[1..]);
      assert AllAllocated(env, needZero) <==> AllocatedCompiler.Mapped(env, r) && AllAllocated(env, needZero[1..]) by {
        if AllocatedCompiler.Mapped(env, r) && AllAllocated(env, needZero[1..]) {
          forall k | 0 < k < |needZero|
            ensures AllocatedCompiler.Mapped(env, AsMir(needZero[k]))
          {
            assert needZero[k] == needZero[1..][k - 1];
          }
        }
        if AllAllocated(env, needZero) {
          forall k | 0 <= k < |needZero| - 1
            ensures AllocatedCompiler.Mapped(env, AsMir(needZero[1..][k]))
          {
            assert needZero[1..][k] == needZero[k + 1];
          }
        }
      }
    }
  }

  /**
   * When it compiles, the zeroing leaves zero in the location of every listed register and changes
   * nothing but to zero, given that a spill register marked zeroed holds zero.
   */
  lemma ZeroingZeroes(m: Machine, env: Env, needZero: seq<Mid.VirtualRegister>, intZeroed: bool, floatZeroed: bool)
    returns (after: Machine)
    requires Zeroing(env, needZero, intZeroed, floatZeroed).Some? && AllocatedCompiler.SpillsHold(m, intZeroed, floatZeroed)
    ensures Run(m, Zeroing(env, needZero, intZeroed, floatZeroed).value) == Some(after)
    ensures forall k :: 0 <= k < |needZero| ==>
      AllocatedCompiler.Mapped(env, AsMir(needZero[k])) && after.Value(AllocatedCompiler.Location(env, AsMir(needZero[k]))) == 0
    ensures AllocatedCompiler.OnlyZeroed(m, after)
  {
    ZeroingAgrees(env, needZero, intZeroed, floatZeroed);
    after := AllocatedCompiler.ZeroingZeroes(m, env, AsMirs(needZero), intZeroed, floatZeroed);
    assert forall k :: 0 <= k < |needZero| ==> AsMirs(needZero)[k] == AsMir(needZero[k]);
  }

  /** `compile_initialize_function`: the function entry and frame, the arguments into their slots, then the zeroing. */
  function PrologueCode(env: Env, needZero: seq<Mid.VirtualRegister>): Option<seq<InstructionIR>> {
    match Zeroing(env, needZero, false, false)
    case None => None
    case Some(zeroing) =>
      Some(FrameCompiler.HeaderCode(env.frame) + CallingConventions.ArgumentsToFrameCode(env.frame.declaration.parameters, 0) + zeroing)
  }

  // ---------------------------------------------------------------------------------------------
  // The instructions.

  /** The instructions combined in place into the first operand. */
  predicate InPlace(d: Mid.MidData) {
    d.AddInt32? || d.SubInt32? || d.AddFloat32? || d.SubFloat32?
  }

  /** The operation of an in-place instruction. */
  function OperatorOf(d: Mid.MidData): (op: IrHelpers.BinaryOperator)
    requires InPlace(d)
    ensures op.StoresToMemory() <==> d.AddInt32? || d.SubInt32?
  {
    match d
    case AddInt32(_, _, _) => IrHelpers.AddInt32Op
    case SubInt32(_, _, _) => IrHelpers.SubInt32Op
    case AddFloat32(_, _, _) => IrHelpers.AddFloat32Op
    case SubFloat32(_, _, _) => IrHelpers.SubFloat32Op
  }

  /**
   * `binary_operator` (integer) or `binary_operator_f32` (float) on the two operands, combining
   * into the first operand's location, then `move_register` to the destination unless it is the
   * first operand.
   */
  function InPlaceCode(env: Env, op: IrHelpers.BinaryOperator, dest: Mid.VirtualRegister, op1: Mid.VirtualRegister, op2: Mid.VirtualRegister)
    : seq<InstructionIR>
    requires AllocatedCompiler.Mapped(env, AsMir(dest)) && AllocatedCompiler.Mapped(env, AsMir(op1)) && AllocatedCompiler.Mapped(env, AsMir(op2))
  {
    var o1 := AllocatedCompiler.OperandOf(env, AsMir(op1));
    var o2 := AllocatedCompiler.OperandOf(env, AsMir(op2));
    (if op.StoresToMemory() then IrHelpers.BinaryInternalCode(op, o1, o2) else IrHelpers.NoMemoryStoreInternalCode(op, o1, o2, FloatSpill))
    + (if dest != op1 then AllocatedCompiler.MoveCode(env, AsMir(dest), AsMir(op1)) else [])
  }

  /** `BranchCondition`: an `Int32` or `Float32` compare and the branch; any other type panics. */
  function BranchConditionCode(env: Env, condition: Condition, compareType: TypeId, branchLabel: nat,
                               op1: Mid.VirtualRegister, op2: Mid.VirtualRegister): Option<seq<InstructionIR>>
    requires AllocatedCompiler.Mapped(env, AsMir(op1)) && AllocatedCompiler.Mapped(env, AsMir(op2))
  {
    var o1 := AllocatedCompiler.OperandOf(env, AsMir(op1));
    var o2 := AllocatedCompiler.OperandOf(env, AsMir(op2));
    if compareType == Int32 then Some(AllocatedCompiler.IntCompareCode(o1, o2) + [InstructionIR.BranchCondition(condition, true, branchLabel)])
    else if compareType == Float32 then Some(AllocatedCompiler.FloatCompareCode(o1, o2) + [InstructionIR.BranchCondition(condition, false, branchLabel)])
    else None
  }

  /**
   * The match of `compile_instruction` after the marker: `None` on a register the allocation lacks;
   * the in-place arithmetic and the branch compare of this revision; the later lowering of the
   * same-named MIR instruction for every other case.
   */
  function Body(env: Env, position: nat, d: Mid.MidData): Option<seq<InstructionIR>> {
    var e := AsMirData(d);
    if !AllocatedCompiler.AllMapped(env, e.Registers()) then None
    else
      AsMirDataRegisters(d);
      match d
      case AddInt32(dest, a, b) => Some(InPlaceCode(env, IrHelpers.AddInt32Op, dest, a, b))
      case SubInt32(dest, a, b) => Some(InPlaceCode(env, IrHelpers.SubInt32Op, dest, a, b))
      case AddFloat32(dest, a, b) => Some(InPlaceCode(env, IrHelpers.AddFloat32Op, dest, a, b))
      case SubFloat32(dest, a, b) => Some(InPlaceCode(env, IrHelpers.SubFloat32Op, dest, a, b))
      case BranchCondition(condition, compareType, l, a, b) => BranchConditionCode(env, condition, compareType, l, a, b)
      case _ => AllocatedCompiler.Lowered(env, position, e)
  }

  /** An allocated in-place instruction compiles to its in-place code. */
  lemma InPlaceBody(env: Env, position: nat, d: Mid.MidData)
    requires InPlace(d) && AllocatedCompiler.AllMapped(env, AsMirData(d).Registers())
    ensures AllocatedCompiler.Mapped(env, AsMir(d.dest)) && AllocatedCompiler.Mapped(env, AsMir(d.op1)) && AllocatedCompiler.Mapped(env, AsMir(d.op2))
    ensures Body(env, position, d) == Some(InPlaceCode(env, OperatorOf(d), d.dest, d.op1, d.op2))
  {
    assert AsMirData(d).Registers() == [AsMir(d.dest), AsMir(d.op1), AsMir(d.op2)];
  }

  /** An allocated conditional branch compiles to its branch code. */
  lemma BranchBody(env: Env, position: nat, d: Mid.MidData)
    requires d.BranchCondition? && AllocatedCompiler.AllMapped(env, AsMirData(d).Registers())
    ensures AllocatedCompiler.Mapped(env, AsMir(d.op1)) && AllocatedCompiler.Mapped(env, AsMir(d.op2))
    ensures Body(env, position, d) == BranchConditionCode(env, d.condition, d.compareType, d.branchLabel, d.op1, d.op2)
  {
    assert AsMirData(d).Registers() == [AsMir(d.op1), AsMir(d.op2)];
  }

  /** `compile_instruction`: the marker of the bytecode index, then the body. */
  function InstructionCode(env: Env, position: nat, instruction: Mid.MidInstruction): Option<seq<InstructionIR>> {
    match Body(env, position, instruction.data)
    case None => None
    case Some(body) => Some([Marker(instruction.index, position)] + body)
  }

  /** The code of each instruction at its position. */
  function Codes(env: Env, instructions: seq<Mid.MidInstruction>): (codes: seq<Option<seq<InstructionIR>>>)
    ensures |codes| == |instructions|
    ensures forall p :: 0 <= p < |instructions| ==> codes[p] == InstructionCode(env, p, instructions[p])
  {
    seq(|instructions|, p requires 0 <= p < |instructions| => InstructionCode(env, p, instructions[p]))
  }

  /** `compile` on a fresh compiler: the prologue, then every instruction in order; `None` if one of them panics. */
  function Compiled(env: Env, needZero: seq<Mid.VirtualRegister>, instructions: seq<Mid.MidInstruction>): Option<seq<InstructionIR>> {
    match PrologueCode(env, needZero)
    case None => None
    case Some(prologue) =>
      match AllocatedCompiler.Joined(Codes(env, instructions), |instructions|)
      case None => None
      case Some(code) => Some(prologue + code)
  }

  // ---------------------------------------------------------------------------------------------
  // Agreement with the later lowering, and where the two part.

  /** Every instruction but the in-place arithmetic and the conditional branch is lowered as the later revision lowers it. */
  lemma AgreesWithLaterLowering(env: Env, position: nat, d: Mid.MidData)
    requires !InPlace(d) && !d.BranchCondition?
    ensures Body(env, position, d) == AllocatedCompiler.Body(env, position, AsMirData(d))
  {
    AsMirDataRegisters(d);
  }

  /**
   * An `Int32` or `Float32` branch is the later revision's, with the same signedness; a branch on
   * any other type panics here, while the later revision compiles every type but `Void`.
   */
  lemma BranchConditionAgrees(env: Env, condition: Condition, compareType: TypeId, branchLabel: nat,
                              op1: Mid.VirtualRegister, op2: Mid.VirtualRegister)
    requires AllocatedCompiler.Mapped(env, AsMir(op1)) && AllocatedCompiler.Mapped(env, AsMir(op2))
    ensures BranchConditionCode(env, condition, compareType, branchLabel, op1, op2).Some? <==> compareType == Int32 || compareType == Float32
    ensures compareType == Int32 || compareType == Float32 ==>
      BranchConditionCode(env, condition, compareType, branchLabel, op1, op2) ==
      AllocatedCompiler.BranchConditionCode(env, condition, compareType, branchLabel, AsMir(op1), AsMir(op2))
    ensures compareType != Void && compareType != Int32 && compareType != Float32 ==>
      AllocatedCompiler.BranchConditionCode(env, condition, compareType, branchLabel, AsMir(op1), AsMir(op2)).Some?
  {
  }

  /**
   * The in-place code leaves `f` of the operands' values in the destination's location and, when the
   * destination is another register, in the first operand's location as well; it changes nothing
   * else but the spill registers.
   */
  lemma InPlaceComputes(m: Machine, env: Env, op: IrHelpers.BinaryOperator, dest: Mid.VirtualRegister, op1: Mid.VirtualRegister,
                        op2: Mid.VirtualRegister, f: (int, int) -> int) returns (after: Machine)
    requires AllocatedCompiler.Mapped(env, AsMir(dest)) && AllocatedCompiler.Mapped(env, AsMir(op1)) && AllocatedCompiler.Mapped(env, AsMir(op2))
    requires IrHelpers.SpillFree(env.registers)
    ensures IrHelpers.RunWith(m, InPlaceCode(env, op, dest, op1, op2), f) == Some(after)
    ensures var result := f(m.Value(AllocatedCompiler.Location(env, AsMir(op1))), m.Value(AllocatedCompiler.Location(env, AsMir(op2))));
      && after.Value(AllocatedCompiler.Location(env, AsMir(dest))) == result
      && after.Value(AllocatedCompiler.Location(env, AsMir(op1))) == result
    ensures forall v ::
      (v != AllocatedCompiler.Location(env, AsMir(dest)) && v != AllocatedCompiler.Location(env, AsMir(op1))
       && v != Register(IntSpill) && v != Register(FloatSpill)) ==> after.Value(v) == m.Value(v)
  {
    var pc := AllocatedCompiler.ParameterCount(env);
    var o1 := AllocatedCompiler.OperandOf(env, AsMir(op1));
    var o2 := AllocatedCompiler.OperandOf(env, AsMir(op2));
    IrHelpers.OperandAtLocation(pc, env.registers, Mir.ToVirtual(AsMir(op1)));
    IrHelpers.OperandAtLocation(pc, env.registers, Mir.ToVirtual(AsMir(op2)));
    var combined: Machine;
    var combine: seq<InstructionIR>;
    if op.StoresToMemory() {
      combine := IrHelpers.BinaryInternalCode(op, o1, o2);
      combined := IrHelpers.BinaryInternalComputes(m, op, o1, o2, f);
    } else {
      combine := IrHelpers.NoMemoryStoreInternalCode(op, o1, o2, FloatSpill);
      combined := IrHelpers.NoMemoryStoreInternalComputes(m, op, o1, o2, FloatSpill, f);
    }
    if dest == op1 {
      assert InPlaceCode(env, op, dest, op1, op2) == combine + [] == combine;
      after := combined;
    } else {
      var move := AllocatedCompiler.MoveCode(env, AsMir(dest), AsMir(op1));
      after := IrHelpers.MoveRegisterMoves(combined, pc, env.registers, Mir.ToVirtual(AsMir(dest)), Mir.ToVirtual(AsMir(op1)), f);
      assert IrHelpers.RunWith(combined, move, f) == Some(after);
      assert InPlaceCode(env, op, dest, op1, op2) == combine + move;
      IrHelpers.RunWithAppend(m, combine, move, f);
      var from := AllocatedCompiler.Location(env, AsMir(op1));
      assert from != Register(IntSpill) && from != Register(FloatSpill);
      assert after.Value(AllocatedCompiler.Location(env, AsMir(dest))) == combined.Value(from);
      if from != AllocatedCompiler.Location(env, AsMir(dest)) {
        assert after.Value(from) == combined.Value(from);
      }
    }
  }

  /**
   * The later revision computes into the destination and leaves the first operand alone when the two
   * live apart; this revision overwrites it with the result.
   */
  lemma LaterKeepsFirstOperand(m: Machine, env: Env, position: nat, d: Mid.MidData, f: (int, int) -> int)
    requires InPlace(d) && IrHelpers.SpillFree(env.registers)
    requires AllocatedCompiler.Mapped(env, AsMir(d.dest)) && AllocatedCompiler.Mapped(env, AsMir(d.op1)) && AllocatedCompiler.Mapped(env, AsMir(d.op2))
    requires AllocatedCompiler.Location(env, AsMir(d.dest)) != AllocatedCompiler.Location(env, AsMir(d.op1))
    ensures Body(env, position, d).Some? && AllocatedCompiler.Body(env, position, AsMirData(d)).Some?
    ensures var later := IrHelpers.RunWith(m, AllocatedCompiler.Body(env, position, AsMirData(d)).value, f);
      var here := IrHelpers.RunWith(m, Body(env, position, d).value, f);
      var result := f(m.Value(AllocatedCompiler.Location(env, AsMir(d.op1))), m.Value(AllocatedCompiler.Location(env, AsMir(d.op2))));
      && later.Some? && here.Some?
      && later.value.Value(AllocatedCompiler.Location(env, AsMir(d.dest))) == result
      && here.value.Value(AllocatedCompiler.Location(env, AsMir(d.dest))) == result
      && later.value.Value(AllocatedCompiler.Location(env, AsMir(d.op1))) == m.Value(AllocatedCompiler.Location(env, AsMir(d.op1)))
      && here.value.Value(AllocatedCompiler.Location(env, AsMir(d.op1))) == result
  {
    var e := AsMirData(d);
    assert e.Registers() == [AsMir(d.dest), AsMir(d.op1), AsMir(d.op2)];
    assert AllocatedCompiler.AllMapped(env, e.Registers());
    var op := OperatorOf(d);
    assert Body(env, position, d) == Some(InPlaceCode(env, op, d.dest, d.op1, d.op2));
    var here := InPlaceComputes(m, env, op, d.dest, d.op1, d.op2, f);
    assert FrameCompiler.BinaryOperatorOf(e) == Some(op);
    assert AllocatedCompiler.Body(env, position, e) == Some(AllocatedCompiler.ComputationCode(env, e));
    var later := AllocatedCompiler.ArithmeticComputes(m, env, e, f);
    assert AllocatedCompiler.Location(env, AsMir(d.op1)) != Register(AllocatedCompiler.SpillOf(op));
  }

  // ---------------------------------------------------------------------------------------------
  // When the compilation panics.

  /**
   * `compile_instruction` panics exactly on a register the allocation lacks, an unbound callee, a
   * dereference whose null status is unknown, or a conditional branch on neither `Int32` nor `Float32`.
   */
  predicate Panics(env: Env, position: nat, d: Mid.MidData) {
    || !AllAllocated(env, d.Registers())
    || AllocatedCompiler.CalleeMissing(env, AsMirData(d))
    || AllocatedCompiler.NullStatusUnknown(env, position, AsMirData(d))
    || (d.BranchCondition? && d.compareType != Int32 && d.compareType != Float32)
  }

  lemma BodyPanics(env: Env, position: nat, d: Mid.MidData)
    ensures Body(env, position, d).None? <==> Panics(env, position, d)
  {
    var e := AsMirData(d);
    AsMirDataRegisters(d);
    AllAllocatedIff(env, d.Registers());
    if AllocatedCompiler.AllMapped(env, e.Registers()) && !InPlace(d) && !d.BranchCondition? {
      AllocatedCompiler.BodyPanics(env, position, e);
      assert !AllocatedCompiler.InstanceUnknown(env, position, e) && !AllocatedCompiler.FieldMissing(env, e);
      assert !AllocatedCompiler.ComparesVoid(e);
    }
  }

  /** An instruction compiles exactly when it does not panic, and its code then starts with its marker. */
  lemma InstructionCompilesUnlessPanic(env: Env, position: nat, instruction: Mid.MidInstruction)
    ensures InstructionCode(env, position, instruction).None? <==> Panics(env, position, instruction.data)
    ensures InstructionCode(env, position, instruction).Some? ==>
      InstructionCode(env, position, instruction).value[0] == Marker(instruction.index, position)
  {
    BodyPanics(env, position, instruction.data);
  }

  /** A function compiles exactly when every listed register is allocated and no instruction panics at its position. */
  lemma CompilesUnlessSomePanic(env: Env, needZero: seq<Mid.VirtualRegister>, instructions: seq<Mid.MidInstruction>)
    ensures Compiled(env, needZero, instructions).Some? <==>
      AllAllocated(env, needZero) && forall p :: 0 <= p < |instructions| ==> !Panics(env, p, instructions[p].data)
  {
    ZeroingAgrees(env, needZero, false, false);
    AllocatedCompiler.JoinedIffEach(Codes(env, instructions), |instructions|);
    forall p | 0 <= p < |instructions|
      ensures InstructionCode(env, p, instructions[p]).Some? <==> !Panics(env, p, instructions[p].data)
    {
      InstructionCompilesUnlessPanic(env, p, instructions[p]);
    }
  }

  // ---------------------------------------------------------------------------------------------
  // The compiler object.

  /** `AllocatedInstructionIRCompiler`: the translation's inputs and the instructions emitted so far. */
  class InstructionIRCompiler {
    const env: Env
    const needZero: seq<Mid.VirtualRegister>
    const instructions: seq<Mid.MidInstruction>
    const buffer: InstructionBuffer

    /** `new`, given the allocation: no instructions yet. */
    constructor (env: Env, needZero: seq<Mid.VirtualRegister>, instructions: seq<Mid.MidInstruction>)
      ensures this.env == env && this.needZero == needZero && this.instructions == instructions
      ensures fresh(buffer) && buffer.instructions == []
    {
      this.env := env;
      this.needZero := needZero;
      this.instructions := instructions;
      buffer := new InstructionBuffer();
    }

    /** `compile_initialize_function`: `false` iff a listed register is not allocated. */
    method CompileInitializeFunction() returns (ok: bool)
      modifies buffer
      ensures ok <==> PrologueCode(env, needZero).Some?
      ensures ok ==> buffer.instructions == old(buffer.instructions) + PrologueCode(env, needZero).value
    {
      ghost var start := buffer.instructions;
      buffer.Append([InitializeFunction]);
      if env.frame.stackSize > 0 {
        buffer.Append([SubFromStackPointer(env.frame.stackSize)]);
      }
      assert buffer.instructions == start + FrameCompiler.HeaderCode(env.frame);
      var _ := CallingConventions.MoveArgumentsToStack(env.frame.declaration.parameters, buffer);
      ok := CompileZeroing();
      if ok {
        var header := FrameCompiler.HeaderCode(env.frame);
        var moves := CallingConventions.ArgumentsToFrameCode(env.frame.declaration.parameters, 0);
        AllocatedCompiler.AppendAssociates(start, header, moves);
        AllocatedCompiler.AppendAssociates(start, header + moves, Zeroing(env, needZero, false, false).value);
      }
    }

    /** The zeroing loop of the prologue, with a flag per spill register telling whether it already holds zero. */
    method CompileZeroing() returns (ok: bool)
      modifies buffer
      ensures ok <==> Zeroing(env, needZero, false, false).Some?
      ensures ok ==> buffer.instructions == old(buffer.instructions) + Zeroing(env, needZero, false, false).value
    {
      ghost var start := buffer.instructions;
      var intInitialized, floatInitialized := false, false;
      for k := 0 to |needZero|
        invariant Zeroing(env, needZero, false, false).Some? <==> Zeroing(env, needZero[k..], intInitialized, floatInitialized).Some?
        invariant Zeroing(env, needZero, false, false).Some? ==>
          start + Zeroing(env, needZero, false, false).value == buffer.instructions + Zeroing(env, needZero[k..], intInitialized, floatInitialized).value
      {
        var r := AsMir(needZero[k]);
        assert needZero[k..][1..] == needZero[k + 1..];
        ghost var before := buffer.instructions;
        ghost var head := if AllocatedCompiler.Mapped(env, r) then AllocatedCompiler.ZeroingHead(env, r, intInitialized, floatInitialized) else [];
        var spill := AllocatedCompiler.SpillFor(r.valueType);
        if r.valueType == Float32 {
          if !floatInitialized {
            buffer.Append([LoadZeroToRegister(FloatSpill)]);
            floatInitialized := true;
          }
        } else {
          if !intInitialized {
            buffer.Append([LoadZeroToRegister(IntSpill)]);
            intInitialized := true;
          }
        }
        if !AllocatedCompiler.Mapped(env, r) {
          return false;
        }
        match AllocatedCompiler.HardwareOf(env, r) {
          case Some(h) => buffer.Append([InstructionIR.Move(h, spill)]);
          case None => buffer.Append([StoreFrameMemory(AllocatedCompiler.Slot(env, r), spill)]);
        }
        assert buffer.instructions == before + head;
        if Zeroing(env, needZero[k + 1..], intInitialized, floatInitialized).Some? {
          AllocatedCompiler.AppendAssociates(before, head, Zeroing(env, needZero[k + 1..], intInitialized, floatInitialized).value);
        }
      }
      assert buffer.instructions + [] == buffer.instructions;
      ok := true;
    }

    /** `Call`: the alive registers saved, the call with its argument sources, the result taken, the registers reloaded. */
    method CompileCall(position: nat, signature: Signature, callResult: Option<Mir.RegisterMir>, arguments: seq<Mir.RegisterMir>)
      returns (ok: bool)
      requires AllocatedCompiler.AllMapped(env, arguments) && (callResult.Some? ==> AllocatedCompiler.Mapped(env, callResult.value))
      modifies buffer
      ensures ok <==> AllocatedCompiler.CallCode(env, position, signature, callResult, arguments).Some?
      ensures ok ==> buffer.instructions == old(buffer.instructions) + AllocatedCompiler.CallCode(env, position, signature, callResult, arguments).value
    {
      if signature !in env.frame.functions {
        return false;
      }
      var callee := env.frame.functions[signature];
      ghost var start := buffer.instructions;
      var alive := AllocatedCompiler.AliveAt(env, position);
      IrHelpers.PushAliveRegisters(AllocatedCompiler.ParameterCount(env), alive, buffer);
      ghost var pushed := buffer.instructions;
      AllocatedCompiler.CompileCallPart(env, signature, callee, callResult, arguments, buffer);
      var destination := AllocatedCompiler.ResultHardware(env, callResult);
      IrHelpers.PopAliveRegisters(AllocatedCompiler.ParameterCount(env), alive, destination, buffer);
      AllocatedCompiler.SavedAround(env, start, pushed, AllocatedCompiler.CallPart(env, signature, callee, callResult, arguments),
                                    buffer.instructions, position, destination);
      ok := true;
    }

    /** The match of `compile_instruction` after the marker. */
    method CompileBody(position: nat, d: Mid.MidData) returns (ok: bool)
      modifies buffer
      ensures ok <==> Body(env, position, d).Some?
      ensures ok ==> buffer.instructions == old(buffer.instructions) + Body(env, position, d).value
    {
      if !AllocatedCompiler.AllMapped(env, AsMirData(d).Registers()) {
        return false;
      }
      if InPlace(d) {
        InPlaceBody(env, position, d);
        buffer.Append(InPlaceCode(env, OperatorOf(d), d.dest, d.op1, d.op2));
        ok := true;
      } else if d.BranchCondition? {
        BranchBody(env, position, d);
        var code := BranchConditionCode(env, d.condition, d.compareType, d.branchLabel, d.op1, d.op2);
        if code.None? {
          return false;
        }
        buffer.Append(code.value);
        ok := true;
      } else {
        ok := CompileShared(position, d);
      }
    }

    /** The cases lowered as in the later revision. */
    method CompileShared(position: nat, d: Mid.MidData) returns (ok: bool)
      requires !InPlace(d) && !d.BranchCondition? && AllocatedCompiler.AllMapped(env, AsMirData(d).Registers())
      modifies buffer
      ensures ok <==> Body(env, position, d).Some?
      ensures ok ==> buffer.instructions == old(buffer.instructions) + Body(env, position, d).value
    {
      var e := AsMirData(d);
      AgreesWithLaterLowering(env, position, d);
      assert Body(env, position, d) == AllocatedCompiler.Lowered(env, position, e);
      if e.Call? {
        assert AllocatedCompiler.AllMapped(env, e.arguments);
        ok := CompileCall(position, e.signature, e.callResult, e.arguments);
        assert AllocatedCompiler.Lowered(env, position, e) == AllocatedCompiler.CallCode(env, position, e.signature, e.callResult, e.arguments);
      } else {
        var code := AllocatedCompiler.Lowered(env, position, e);
        if code.None? {
          return false;
        }
        buffer.Append(code.value);
        ok := true;
      }
    }

    /** `compile_instruction`: `true` iff the instruction does not panic, and then its code is appended. */
    method CompileInstruction(position: nat, instruction: Mid.MidInstruction) returns (ok: bool)
      modifies buffer
      ensures ok <==> InstructionCode(env, position, instruction).Some?
      ensures ok ==> buffer.instructions == old(buffer.instructions) + InstructionCode(env, position, instruction).value
    {
      ghost var start := buffer.instructions;
      buffer.Append([Marker(instruction.index, position)]);
      ok := CompileBody(position, instruction.data);
      if ok {
        AllocatedCompiler.AppendAssociates(start, [Marker(instruction.index, position)], Body(env, position, instruction.data).value);
      }
    }

    /** `compile`: `true` iff nothing panics, and then the code is the prologue and every instruction's code. */
    method Compile() returns (ok: bool)
      modifies buffer
      ensures ok <==> Compiled(env, needZero, instructions).Some?
      ensures ok ==> buffer.instructions == old(buffer.instructions) + Compiled(env, needZero, instructions).value
    {
      ghost var start := buffer.instructions;
      ok := CompileInitializeFunction();
      if !ok {
        return;
      }
      ok := CompileInstructions();
      if ok {
        AllocatedCompiler.AppendAssociates(start, PrologueCode(env, needZero).value,
                                           AllocatedCompiler.Joined(Codes(env, instructions), |instructions|).value);
      }
    }

    /** The loop of `compile` over the instructions. */
    method CompileInstructions() returns (ok: bool)
      modifies buffer
      ensures ok <==> AllocatedCompiler.Joined(Codes(env, instructions), |instructions|).Some?
      ensures ok ==> buffer.instructions == old(buffer.instructions) + AllocatedCompiler.Joined(Codes(env, instructions), |instructions|).value
    {
      ghost var start := buffer.instructions;
      ghost var codes := Codes(env, instructions);
      for position := 0 to |instructions|
        invariant AllocatedCompiler.Joined(codes, position).Some?
        invariant buffer.instructions == start + AllocatedCompiler.Joined(codes, position).value
      {
        ok := CompileNext(codes, position, start);
        if !ok {
          return;
        }
      }
      ok := true;
    }

    /** One turn of the loop: instruction `position` extends the code, or its panic ends the compilation. */
    method CompileNext(ghost codes: seq<Option<seq<InstructionIR>>>, position: nat, ghost start: seq<InstructionIR>) returns (ok: bool)
      requires codes == Codes(env, instructions)
      requires position < |instructions| && AllocatedCompiler.Joined(codes, position).Some?
      requires buffer.instructions == start + AllocatedCompiler.Joined(codes, position).value
      modifies buffer
      ensures ok ==> AllocatedCompiler.Joined(codes, position + 1).Some?
      ensures ok ==> buffer.instructions == start + AllocatedCompiler.Joined(codes, position + 1).value
      ensures !ok ==> AllocatedCompiler.Joined(codes, |instructions|).None?
    {
      ok := CompileInstruction(position, instructions[position]);
      assert codes[position] == InstructionCode(env, position, instructions[position]);
      if !ok {
        AllocatedCompiler.JoinedStopsAtNone(codes, position + 1, |instructions|);
        return;
      }
      AllocatedCompiler.JoinedGrows(codes, position);
      AllocatedCompiler.AppendAssociates(start, AllocatedCompiler.Joined(codes, position).value, codes[position].value);
    }

    /** `done`. */
    function Done(): (code: seq<InstructionIR>)
      reads buffer
      ensures code == buffer.instructions
    {
      buffer.instructions
    }
  }

  /**
   * `new` followed by `compile`: the allocation of the live intervals, then the compilation of the
   * function with it; `None` when the allocation or the compilation panics.
   */
  method CompileFunction(frame: FrameCompiler.Env, liveIntervals: seq<Liveness.LiveInterval>, alive: seq<AllocatedCompiler.AliveRegisters>,
                         registerMapping: map<HardwareRegister, MachineRegister>, needZero: seq<Mid.VirtualRegister>,
                         instructions: seq<Mid.MidInstruction>)
    returns (allocation: Option<IrHelpers.Allocation>, code: Option<seq<InstructionIR>>)
    ensures allocation.None? <==> LinearScan.AllocateSpec(LinearScan.Corrected, liveIntervals, AllocationSettings).None?
    ensures LinearScan.Distinct(liveIntervals) ==> allocation.Some? && HardwareBelow(allocation.value, 2)
    ensures allocation.None? ==> code.None?
    ensures allocation.Some? ==> code == Compiled(AllocatedCompiler.Env(frame, allocation.value, alive, registerMapping), needZero, instructions)
  {
    allocation := RegisterAllocate(liveIntervals);
    if allocation.None? {
      return allocation, None;
    }
    var env := AllocatedCompiler.Env(frame, allocation.value, alive, registerMapping);
    var compiler := new InstructionIRCompiler(env, needZero, instructions);
    var ok := compiler.Compile();
    assert ok ==> compiler.buffer.instructions == Compiled(env, needZero, instructions).value;
    code := if ok then Some(compiler.Done()) else None;
  }
}
