/**
 * The register-allocated lowering of MIR into the register-level IR
 * (`src/compiler/ir/allocated_compiler.rs`). Every MIR register the allocation uses lives either in
 * its hardware register or in its own frame slot; each instruction reads its operands where they
 * live and writes its result where the destination lives, going through a spill register or a
 * borrowed temporary where an instruction form needs a register. Around the instructions that call
 * into the runtime or another function, the registers alive at the instruction are saved to their
 * slots and reloaded afterwards, except the one receiving the result.
 *
 * What the compiler reads but this revision of the repository does not define is an input: the
 * registers alive at each instruction in the allocation's iteration order (`alive_registers_at`),
 * the 8-byte machine register of each hardware register (`register_mapping::get`; a hardware
 * register outside the map is mapped to no call register), and the frame parts of
 * `FrameCompiler.Env`. "Used by the allocation" (`is_used`) is being a key of the allocation.
 * Every `unwrap`, `assert!` or `panic!` the code reaches gives `None`.
 */
module AllocatedCompiler {
  import opened Wrappers
  import opened Scalars
  import opened TypeIds
  import opened Program
  import opened Mir
  import opened CompilerIr
  import opened StackLayout
  import opened RegisterAllocations
  import Liveness
  import CallingConventions
  import IrHelpers
  import FrameCompiler
  import MirCompiler

  /** The registers alive at an instruction with their hardware registers, in the allocation's order. */
  type AliveRegisters = seq<(Liveness.Register, HardwareRegister)>

  /** Everything the translation of an instruction reads besides the instruction. */
  datatype Env = Env(
    frame: FrameCompiler.Env,
    registers: IrHelpers.Allocation,
    alive: seq<AliveRegisters>,
    registerMapping: map<HardwareRegister, MachineRegister>)

  function ParameterCount(env: Env): nat { |env.frame.declaration.parameters| }

  /** `get_register` does not panic: the allocation has the register. */
  predicate Mapped(env: Env, r: RegisterMir) { ToVirtual(r) in env.registers }

  predicate AllMapped(env: Env, rs: seq<RegisterMir>) { forall r :: r in rs ==> Mapped(env, r) }

  /** `get_register(r).hardware_register()`. */
  function HardwareOf(env: Env, r: RegisterMir): (h: Option<HardwareRegister>)
    requires Mapped(env, r)
    ensures h.Some? <==> env.registers[ToVirtual(r)].Hardware?
  {
    env.registers[ToVirtual(r)].HardwareRegisterOf()
  }

  /** `get_register_stack_offset`. */
  function Slot(env: Env, r: RegisterMir): int {
    IrHelpers.Slot(ParameterCount(env), ToVirtual(r))
  }

  /** Where the register's value lives. */
  function Location(env: Env, r: RegisterMir): Variable
    requires Mapped(env, r)
  {
    IrHelpers.Location(ParameterCount(env), env.registers, ToVirtual(r))
  }

  function OperandOf(env: Env, r: RegisterMir): IrHelpers.Operand
    requires Mapped(env, r)
  {
    IrHelpers.OperandOf(ParameterCount(env), env.registers, ToVirtual(r))
  }

  /** `alive_registers_at`: nothing is alive past the recorded instructions. */
  function AliveAt(env: Env, position: nat): AliveRegisters {
    if position < |env.alive| then env.alive[position] else []
  }

  /** `alive_hardware_registers_at`: the hardware registers of the alive registers, in the same order. */
  function AliveHardwareAt(env: Env, position: nat): (hs: seq<HardwareRegister>)
    ensures |hs| == |AliveAt(env, position)|
    ensures forall k :: 0 <= k < |hs| ==> hs[k] == AliveAt(env, position)[k].1
  {
    seq(|AliveAt(env, position)|, k requires 0 <= k < |AliveAt(env, position)| => AliveAt(env, position)[k].1)
  }

  // ---------------------------------------------------------------------------------------------
  // The prologue.

  /** The spill register a register of the type is zeroed through. */
  function SpillFor(t: TypeId): HardwareRegister { if t == Float32 then FloatSpill else IntSpill }

  /** The zeroed spill register moved into the register's hardware register, or stored into its slot. */
  function ZeroInto(env: Env, r: RegisterMir): seq<InstructionIR>
    requires Mapped(env, r)
  {
    match HardwareOf(env, r)
    case Some(h) => [InstructionIR.Move(h, SpillFor(r.valueType))]
    case None => [StoreFrameMemory(Slot(env, r), SpillFor(r.valueType))]
  }

  /** Whether the spill register of a register of the type already holds zero. */
  function SpillZeroed(t: TypeId, intZeroed: bool, floatZeroed: bool): bool { if t == Float32 then floatZeroed else intZeroed }

  /** The zeroing of one used register: its spill register zeroed unless it already is, then moved or stored. */
  function ZeroingHead(env: Env, r: RegisterMir, intZeroed: bool, floatZeroed: bool): seq<InstructionIR>
    requires Mapped(env, r)
  {
    (if SpillZeroed(r.valueType, intZeroed, floatZeroed) then [] else [LoadZeroToRegister(SpillFor(r.valueType))]) + ZeroInto(env, r)
  }

  /**
   * The zeroing of `compile_initialize_function` over `needZero`, given whether each spill register
   * already holds zero: registers the allocation does not use are skipped, and a spill register is
   * zeroed the first time a register of its class needs it.
   */
  function ZeroingFrom(env: Env, needZero: seq<RegisterMir>, intZeroed: bool, floatZeroed: bool): seq<InstructionIR>
    decreases |needZero|
  {
    if |needZero| == 0 then []
    else
      var r := needZero[0];
      if !Mapped(env, r) then ZeroingFrom(env, needZero[1..], intZeroed, floatZeroed)
      else ZeroingHead(env, r, intZeroed, floatZeroed)
           + ZeroingFrom(env, needZero[1..], intZeroed || r.valueType != Float32, floatZeroed || r.valueType == Float32)
  }

  /** `compile_initialize_function`: the function entry and frame, the arguments into their slots, then the zeroing. */
  function PrologueCode(env: Env, needZero: seq<RegisterMir>): seq<InstructionIR> {
    FrameCompiler.HeaderCode(env.frame) + CallingConventions.ArgumentsToFrameCode(env.frame.declaration.parameters, 0)
    + ZeroingFrom(env, needZero, false, false)
  }

  // ---------------------------------------------------------------------------------------------
  // Borrowed temporaries.

  /** A `TempRegisters`: the free temporaries, and the ones pushed to borrow them, oldest first. */
  datatype Temps = Temps(free: set<HardwareRegister>, pushed: seq<HardwareRegister>)

  /** `TempRegisters::new`: the whole pool is free and nothing is pushed. */
  const FreshTemps: Temps := Temps(IrHelpers.TempPool, [])

  /** `try_remove`: an operand's own hardware register is not lent to another operand. */
  function TryRemoveTemp(env: Env, t: Temps, r: RegisterMir): (u: Temps)
    requires Mapped(env, r)
    ensures u.pushed == t.pushed && u.free <= t.free
    ensures HardwareOf(env, r).Some? ==> HardwareOf(env, r).value !in u.free
  {
    match HardwareOf(env, r)
    case Some(h) => t.(free := t.free - {h})
    case None => t
  }

  /** What `get_with_status` gives: the register, whether the operand lives in its slot, whether the register was pushed, and the code. */
  datatype Borrowed = Borrowed(register: HardwareRegister, isStack: bool, alive: bool, temps: Temps, code: seq<InstructionIR>)

  /**
   * `get` and `get_with_status`: an operand's own hardware register, borrowing nothing; otherwise
   * the largest free temporary, which leaves the pool, is pushed if it is alive at the instruction
   * and is loaded from the operand's slot. `None` is the panic of an exhausted pool.
   */
  function GetTemp(env: Env, position: nat, t: Temps, r: RegisterMir): (b: Option<Borrowed>)
    requires Mapped(env, r) && t.free <= IrHelpers.TempPool
    ensures b.None? <==> HardwareOf(env, r).None? && t.free == {}
    ensures b.Some? ==> b.value.temps.free <= t.free && (b.value.isStack <==> HardwareOf(env, r).None?)
    ensures b.Some? && HardwareOf(env, r).Some? ==> b.value.register == HardwareOf(env, r).value && b.value.temps == t && !b.value.alive
    ensures b.Some? && HardwareOf(env, r).None? ==>
      && b.value.register in t.free && b.value.temps.free == t.free - {b.value.register}
      && (b.value.alive <==> b.value.register in AliveHardwareAt(env, position))
      && b.value.temps.pushed == t.pushed + (if b.value.alive then [b.value.register] else [])
  {
    match HardwareOf(env, r)
    case Some(h) => Some(Borrowed(h, false, false, t, []))
    case None =>
      match IrHelpers.LargestTemp(t.free)
      case None => None
      case Some(h) =>
        var alive := h in AliveHardwareAt(env, position);
        Some(Borrowed(h, true, alive, Temps(t.free - {h}, t.pushed + if alive then [h] else []),
                      IrHelpers.PushIfAliveCode(ParameterCount(env), AliveHardwareAt(env, position), ToVirtual(r), h, true)))
  }

  /** `done`: the pushed temporaries popped back, the last pushed first. */
  function PopTemps(pushed: seq<HardwareRegister>): (code: seq<InstructionIR>)
    ensures |code| == |pushed|
    ensures forall k :: 0 <= k < |code| ==> code[k] == Pop(pushed[|pushed| - 1 - k])
    decreases |pushed|
  {
    if |pushed| == 0 then [] else [Pop(pushed[|pushed| - 1])] + PopTemps(pushed[..|pushed| - 1])
  }

  // ---------------------------------------------------------------------------------------------
  // The code of each instruction.

  /** A constant into the destination's hardware register or slot. */
  function ConstantLoadCode(env: Env, dest: RegisterMir, value: I32): seq<InstructionIR>
    requires Mapped(env, dest)
  {
    match HardwareOf(env, dest)
    case Some(h) => [MoveInt32ToRegister(h, value)]
    case None => [MoveInt32ToFrameMemory(Slot(env, dest), value)]
  }

  /** A float constant's bit pattern: through the operand stack into a hardware register, or stored directly. */
  function FloatLoadCode(env: Env, dest: RegisterMir, value: I32): seq<InstructionIR>
    requires Mapped(env, dest)
  {
    match HardwareOf(env, dest)
    case Some(h) => [PushInt32(value), Pop(h)]
    case None => [MoveInt32ToFrameMemory(Slot(env, dest), value)]
  }

  /** `LoadArgument`: the argument's slot into the destination's register, or through the spill register into its slot. */
  function LoadArgumentCode(env: Env, argument: nat, dest: RegisterMir): seq<InstructionIR>
    requires Mapped(env, dest)
  {
    match HardwareOf(env, dest)
    case Some(h) => [LoadFrameMemory(h, ArgumentStackOffset(argument))]
    case None => [LoadFrameMemory(IntSpill, ArgumentStackOffset(argument)), StoreFrameMemory(Slot(env, dest), IntSpill)]
  }

  /** The binary helpers: in place or through the spill register; multiplication and the float operations never write memory. */
  function ArithmeticCode(env: Env, op: IrHelpers.BinaryOperator, dest: RegisterMir, op1: RegisterMir, op2: RegisterMir): seq<InstructionIR>
    requires Mapped(env, dest) && Mapped(env, op1) && Mapped(env, op2)
  {
    if op.StoresToMemory() then
      IrHelpers.BinaryWithDestinationCode(ParameterCount(env), env.registers, op, ToVirtual(dest), ToVirtual(op1), ToVirtual(op2))
    else
      IrHelpers.NoMemoryStoreWithDestinationCode(ParameterCount(env), env.registers, op, ToVirtual(dest), ToVirtual(op1), ToVirtual(op2), SpillOf(op))
  }

  /** The spill register of the operation's class. */
  function SpillOf(op: IrHelpers.BinaryOperator): HardwareRegister { if FrameCompiler.IsFloatOperator(op) then FloatSpill else IntSpill }

  function ConstantArithmeticCode(env: Env, op: IrHelpers.ConstantOperator, dest: RegisterMir, op1: RegisterMir, value: I32): seq<InstructionIR>
    requires Mapped(env, dest) && Mapped(env, op1)
  {
    IrHelpers.ConstantWithDestinationCode(ParameterCount(env), env.registers, op, ToVirtual(dest), ToVirtual(op1), value)
  }

  /** The alive registers saved around `middle` and reloaded after it, except into `destination`. */
  function AroundCall(env: Env, position: nat, middle: seq<InstructionIR>, destination: Option<HardwareRegister>): seq<InstructionIR> {
    IrHelpers.PushAliveCode(ParameterCount(env), AliveAt(env, position)) + middle
    + IrHelpers.PopAliveCode(ParameterCount(env), AliveAt(env, position), destination)
  }

  /**
   * `DivideInt32`: with the alive registers saved, the dividend into the integer spill register and
   * the divisor into `Int(5)`; every alive register is reloaded before the quotient moves to the destination.
   */
  function DivideCode(env: Env, position: nat, dest: RegisterMir, op1: RegisterMir, op2: RegisterMir): seq<InstructionIR>
    requires Mapped(env, dest) && Mapped(env, op1) && Mapped(env, op2)
  {
    var pc := ParameterCount(env);
    AroundCall(env, position,
               IrHelpers.MoveToHardwareCode(pc, env.registers, IntSpill, ToVirtual(op1))
               + IrHelpers.MoveToHardwareCode(pc, env.registers, Int(5), ToVirtual(op2))
               + [InstructionIR.DivideInt32(IntSpill, Int(5))],
               Some(IntSpill))
    + IrHelpers.MoveFromHardwareCode(pc, env.registers, ToVirtual(dest), IntSpill)
  }

  /** `NotBool`: in place when the destination is the operand, otherwise through the integer spill register. */
  function NotCode(env: Env, dest: RegisterMir, source: RegisterMir): seq<InstructionIR>
    requires Mapped(env, dest) && Mapped(env, source)
  {
    var pc := ParameterCount(env);
    if dest == source then
      match HardwareOf(env, dest)
      case Some(h) => [NotInt32(h)]
      case None => [NotInt32FrameMemory(Slot(env, dest))]
    else
      IrHelpers.MoveToHardwareCode(pc, env.registers, IntSpill, ToVirtual(source)) + [NotInt32(IntSpill)]
      + IrHelpers.MoveFromHardwareCode(pc, env.registers, ToVirtual(dest), IntSpill)
  }

  /** `Return`: the value, if any, from where it lives into the return register, then the return. */
  function ReturnCode(env: Env, returnValue: Option<RegisterMir>): seq<InstructionIR>
    requires returnValue.Some? ==> Mapped(env, returnValue.value)
  {
    (if returnValue.Some? then CallingConventions.MakeReturnCode(env.frame.declaration.returnType, Location(env, returnValue.value)) else [])
    + [InstructionIR.Return]
  }

  /** The machine registers the call arguments from index `from` on are passed in. */
  function Claimed(callee: Declaration, arguments: seq<RegisterMir>, from: nat): set<MachineRegister>
    decreases |arguments| - from
  {
    if from >= |arguments| then {}
    else
      Claimed(callee, arguments, from + 1)
      + match CallingConventions.GetCallRegister(callee.parameters, from, arguments[from].valueType)
        case Some(m) => {m}
        case None => {}
  }

  /** Whether a later argument's move into its call register overwrites the hardware register. */
  predicate Overwritten(env: Env, h: HardwareRegister, claimed: set<MachineRegister>) {
    h in env.registerMapping && env.registerMapping[h] in claimed
  }

  /**
   * Where argument `i` is read from: its hardware register, unless a later argument's call register
   * overwrites it first, in which case the copy saved in its slot; an argument in its slot is read there.
   */
  function ArgumentSource(env: Env, callee: Declaration, arguments: seq<RegisterMir>, i: nat): Variable
    requires i < |arguments| && Mapped(env, arguments[i])
  {
    match HardwareOf(env, arguments[i])
    case Some(h) => if Overwritten(env, h, Claimed(callee, arguments, i + 1)) then FrameMemory(Slot(env, arguments[i])) else Register(h)
    case None => FrameMemory(Slot(env, arguments[i]))
  }

  /** `get_call_argument_sources`. */
  function ArgumentSources(env: Env, callee: Declaration, arguments: seq<RegisterMir>): (sources: seq<Variable>)
    requires AllMapped(env, arguments)
    ensures |sources| == |arguments|
  {
    seq(|arguments|, i requires 0 <= i < |arguments| && AllMapped(env, arguments) => ArgumentSource(env, callee, arguments, i))
  }

  /** The hardware register that receives a call's result, if it is kept in one. */
  function ResultHardware(env: Env, callResult: Option<RegisterMir>): Option<HardwareRegister>
    requires callResult.Some? ==> Mapped(env, callResult.value)
  {
    if callResult.Some? then HardwareOf(env, callResult.value) else None
  }

  /** The call and the move of its result, if kept, out of the return register. */
  function CallPart(env: Env, signature: Signature, callee: Declaration, callResult: Option<RegisterMir>, arguments: seq<RegisterMir>): seq<InstructionIR>
    requires AllMapped(env, arguments) && (callResult.Some? ==> Mapped(env, callResult.value))
  {
    [InstructionIR.Call(signature, ArgumentSources(env, callee, arguments), 0)]
    + if callResult.Some? then CallingConventions.HandleReturnCode(callee.returnType, Location(env, callResult.value)) else []
  }

  /** `Call`: the callee must be bound. */
  function CallCode(env: Env, position: nat, signature: Signature, callResult: Option<RegisterMir>, arguments: seq<RegisterMir>): Option<seq<InstructionIR>>
    requires AllMapped(env, arguments) && (callResult.Some? ==> Mapped(env, callResult.value))
  {
    if signature !in env.frame.functions then None
    else Some(AroundCall(env, position, CallPart(env, signature, env.frame.functions[signature], callResult, arguments), ResultHardware(env, callResult)))
  }

  /** The null check of the instance of a call: the reference into a register (a borrowed one if it lives in its slot), then the check. */
  function InstanceCheckCode(env: Env, position: nat, instance: RegisterMir): Option<seq<InstructionIR>>
    requires Mapped(env, instance)
  {
    match GetTemp(env, position, TryRemoveTemp(env, FreshTemps, instance), instance)
    case None => None
    case Some(b) =>
      Some(b.code + IrHelpers.MoveToHardwareCode(ParameterCount(env), env.registers, b.register, ToVirtual(instance))
           + [NullReferenceCheck(b.register)] + PopTemps(b.temps.pushed))
  }

  /** `CallInstance`: a bound callee and an instance whose null status is known; the instance is checked only if it may be null. */
  function CallInstanceCode(env: Env, position: nat, signature: Signature, callResult: Option<RegisterMir>, arguments: seq<RegisterMir>): Option<seq<InstructionIR>>
    requires AllMapped(env, arguments) && (callResult.Some? ==> Mapped(env, callResult.value))
  {
    if signature !in env.frame.functions || |arguments| == 0 then None
    else match FrameCompiler.CanBeNull(env.frame, position, arguments[0])
      case None => None
      case Some(c) =>
        match (if c then InstanceCheckCode(env, position, arguments[0]) else Some([]))
        case None => None
        case Some(check) =>
          Some(AroundCall(env, position, check + CallPart(env, signature, env.frame.functions[signature], callResult, arguments),
                          ResultHardware(env, callResult)))
  }

  /** A new reference from the return register into the destination's hardware register or slot. */
  function NewReferenceCode(env: Env, dest: RegisterMir): seq<InstructionIR>
    requires Mapped(env, dest)
  {
    match HardwareOf(env, dest)
    case Some(h) => [MoveExplicitToImplicit(h, FrameCompiler.ReturnValue)]
    case None => [StoreFrameMemoryExplicit(Slot(env, dest), FrameCompiler.ReturnValue)]
  }

  /** `NewArray`: the length in a register (a borrowed one, pushed if alive), the runtime call, the reference out. */
  function NewArrayCode(env: Env, position: nat, element: TypeId, dest: RegisterMir, size: RegisterMir): Option<seq<InstructionIR>>
    requires Mapped(env, dest) && Mapped(env, size)
  {
    match GetTemp(env, position, TryRemoveTemp(env, FreshTemps, size), size)
    case None => None
    case Some(s) =>
      Some(AroundCall(env, position,
                      s.code + [InstructionIR.NewArray(element, s.register, if s.alive then 1 else 0)]
                      + NewReferenceCode(env, dest) + PopTemps(s.temps.pushed),
                      HardwareOf(env, dest)))
  }

  /** `NewObject`. */
  function NewObjectCode(env: Env, position: nat, classType: TypeId, dest: RegisterMir): seq<InstructionIR>
    requires Mapped(env, dest)
  {
    AroundCall(env, position, [InstructionIR.NewObject(classType)] + NewReferenceCode(env, dest), HardwareOf(env, dest))
  }

  /** The null check of a reference held in the register, iff it may be null. */
  function NullCheckOn(canBeNull: bool, r: HardwareRegister): seq<InstructionIR> {
    if canBeNull then [NullReferenceCheck(r)] else []
  }

  /** The register a loaded value arrives in: the destination's own, or the spill register of the value's class. */
  function ResultRegister(env: Env, dest: RegisterMir, t: TypeId): HardwareRegister
    requires Mapped(env, dest)
  {
    match HardwareOf(env, dest)
    case Some(h) => h
    case None => SpillFor(t)
  }

  /** The store of the loaded value into the destination's slot, when the destination lives there. */
  function StoreIfStack(env: Env, dest: RegisterMir, from: HardwareRegister): seq<InstructionIR>
    requires Mapped(env, dest)
  {
    if HardwareOf(env, dest).None? then [StoreFrameMemory(Slot(env, dest), from)] else []
  }

  /** `LoadElement`: both operands in registers, the null check if needed, the bounds check, the load. */
  function LoadElementCode(env: Env, position: nat, element: TypeId, dest: RegisterMir, arrayRef: RegisterMir, index: RegisterMir)
    : Option<seq<InstructionIR>>
    requires Mapped(env, dest) && Mapped(env, arrayRef) && Mapped(env, index)
  {
    var t := TryRemoveTemp(env, TryRemoveTemp(env, FreshTemps, arrayRef), index);
    match GetTemp(env, position, t, arrayRef)
    case None => None
    case Some(a) =>
      match GetTemp(env, position, a.temps, index)
      case None => None
      case Some(i) =>
        match FrameCompiler.CanBeNull(env.frame, position, arrayRef)
        case None => None
        case Some(c) =>
          var result := ResultRegister(env, dest, element);
          Some(a.code + i.code + NullCheckOn(c, a.register)
               + [ArrayBoundsCheck(a.register, i.register), InstructionIR.LoadElement(element, result, a.register, i.register)]
               + StoreIfStack(env, dest, result) + PopTemps(i.temps.pushed))
  }

  /** `StoreElement`. */
  function StoreElementCode(env: Env, position: nat, element: TypeId, arrayRef: RegisterMir, index: RegisterMir, stored: RegisterMir)
    : Option<seq<InstructionIR>>
    requires Mapped(env, arrayRef) && Mapped(env, index) && Mapped(env, stored)
  {
    var t := TryRemoveTemp(env, TryRemoveTemp(env, TryRemoveTemp(env, FreshTemps, arrayRef), index), stored);
    match GetTemp(env, position, t, arrayRef)
    case None => None
    case Some(a) =>
      match GetTemp(env, position, a.temps, index)
      case None => None
      case Some(i) =>
        match GetTemp(env, position, i.temps, stored)
        case None => None
        case Some(v) =>
          match FrameCompiler.CanBeNull(env.frame, position, arrayRef)
          case None => None
          case Some(c) =>
            Some(a.code + i.code + v.code + NullCheckOn(c, a.register)
                 + [ArrayBoundsCheck(a.register, i.register), InstructionIR.StoreElement(element, a.register, i.register, v.register)]
                 + PopTemps(v.temps.pushed))
  }

  /** `LoadArrayLength`. */
  function LoadArrayLengthCode(env: Env, position: nat, dest: RegisterMir, arrayRef: RegisterMir): Option<seq<InstructionIR>>
    requires Mapped(env, dest) && Mapped(env, arrayRef)
  {
    match GetTemp(env, position, TryRemoveTemp(env, FreshTemps, arrayRef), arrayRef)
    case None => None
    case Some(a) =>
      match FrameCompiler.CanBeNull(env.frame, position, arrayRef)
      case None => None
      case Some(c) =>
        var result := ResultRegister(env, dest, Int32);
        Some(a.code + NullCheckOn(c, a.register) + [InstructionIR.LoadArrayLength(result, a.register)]
             + StoreIfStack(env, dest, result) + PopTemps(a.temps.pushed))
  }

  /** `LoadField`: the class and field must exist. */
  function LoadFieldCode(env: Env, position: nat, classType: TypeId, field: string, dest: RegisterMir, objectRef: RegisterMir)
    : Option<seq<InstructionIR>>
    requires Mapped(env, dest) && Mapped(env, objectRef)
  {
    if (classType, field) !in env.frame.fields then None
    else
      var layout := env.frame.fields[(classType, field)];
      match GetTemp(env, position, TryRemoveTemp(env, FreshTemps, objectRef), objectRef)
      case None => None
      case Some(o) =>
        match FrameCompiler.CanBeNull(env.frame, position, objectRef)
        case None => None
        case Some(c) =>
          var result := ResultRegister(env, dest, layout.fieldType);
          Some(o.code + NullCheckOn(c, o.register) + [InstructionIR.LoadField(layout.fieldType, layout.offset, result, o.register)]
               + StoreIfStack(env, dest, result) + PopTemps(o.temps.pushed))
  }

  /** `StoreField`. */
  function StoreFieldCode(env: Env, position: nat, classType: TypeId, field: string, objectRef: RegisterMir, stored: RegisterMir)
    : Option<seq<InstructionIR>>
    requires Mapped(env, objectRef) && Mapped(env, stored)
  {
    if (classType, field) !in env.frame.fields then None
    else
      var layout := env.frame.fields[(classType, field)];
      var t := TryRemoveTemp(env, TryRemoveTemp(env, FreshTemps, objectRef), stored);
      match GetTemp(env, position, t, objectRef)
      case None => None
      case Some(o) =>
        match GetTemp(env, position, o.temps, stored)
        case None => None
        case Some(v) =>
          match FrameCompiler.CanBeNull(env.frame, position, objectRef)
          case None => None
          case Some(c) =>
            Some(o.code + v.code + NullCheckOn(c, o.register) + [InstructionIR.StoreField(layout.fieldType, layout.offset, o.register, v.register)]
                 + PopTemps(v.temps.pushed))
  }

  /** `binary_operator` with the integer compare forms: two memory operands go through the integer spill register. */
  function IntCompareCode(o1: IrHelpers.Operand, o2: IrHelpers.Operand): seq<InstructionIR> {
    match (o1.register, o2.register)
    case (Some(r1), Some(r2)) => [InstructionIR.Compare(Int32, r1, r2)]
    case (Some(r1), None) => [CompareFromFrameMemory(Int32, r1, o2.offset)]
    case (None, Some(r2)) => [CompareToFrameMemory(Int32, o1.offset, r2)]
    case (None, None) => [LoadFrameMemory(IntSpill, o2.offset), CompareToFrameMemory(Int32, o1.offset, IntSpill)]
  }

  /** `binary_operator_f32` with the float compare forms: a memory first operand goes through the float spill register and back. */
  function FloatCompareCode(o1: IrHelpers.Operand, o2: IrHelpers.Operand): seq<InstructionIR> {
    match (o1.register, o2.register)
    case (Some(r1), Some(r2)) => [InstructionIR.Compare(Float32, r1, r2)]
    case (Some(r1), None) => [CompareFromFrameMemory(Float32, r1, o2.offset)]
    case (None, Some(r2)) =>
      [LoadFrameMemory(FloatSpill, o1.offset), InstructionIR.Compare(Float32, FloatSpill, r2), StoreFrameMemory(o1.offset, FloatSpill)]
    case (None, None) =>
      [LoadFrameMemory(FloatSpill, o1.offset), CompareFromFrameMemory(Float32, FloatSpill, o2.offset), StoreFrameMemory(o1.offset, FloatSpill)]
  }

  /** The compare of two registers: as floats for `Float32`, as 32-bit integers for every other type. */
  function CompareOperandsCode(env: Env, compareType: TypeId, op1: RegisterMir, op2: RegisterMir): seq<InstructionIR>
    requires Mapped(env, op1) && Mapped(env, op2)
  {
    if compareType == Float32 then FloatCompareCode(OperandOf(env, op1), OperandOf(env, op2))
    else IntCompareCode(OperandOf(env, op1), OperandOf(env, op2))
  }

  /**
   * `Compare`: the destination in a register (a borrowed one, pushed if alive, if it lives in its
   * slot), the compare, the condition's truth value into that register, then back into the slot
   * and the borrowed register popped.
   */
  function CompareCode(env: Env, position: nat, condition: Condition, compareType: TypeId, dest: RegisterMir, op1: RegisterMir, op2: RegisterMir)
    : Option<seq<InstructionIR>>
    requires Mapped(env, dest) && Mapped(env, op1) && Mapped(env, op2)
  {
    var t := TryRemoveTemp(env, TryRemoveTemp(env, FreshTemps, op1), op2);
    match GetTemp(env, position, t, dest)
    case None => None
    case Some(d) =>
      if compareType == Void then None
      else
        Some(d.code + CompareOperandsCode(env, compareType, op1, op2)
             + [CompareResult(condition, FrameCompiler.Signed(compareType), d.register)]
             + (if d.isStack then IrHelpers.MoveFromHardwareCode(ParameterCount(env), env.registers, ToVirtual(dest), d.register) else [])
             + (if d.alive then [Pop(d.register)] else []))
  }

  /** `BranchCondition`: `Void` cannot be compared. */
  function BranchConditionCode(env: Env, condition: Condition, compareType: TypeId, branchLabel: nat, op1: RegisterMir, op2: RegisterMir)
    : Option<seq<InstructionIR>>
    requires Mapped(env, op1) && Mapped(env, op2)
  {
    if compareType == Void then None
    else Some(CompareOperandsCode(env, compareType, op1, op2) + [InstructionIR.BranchCondition(condition, FrameCompiler.Signed(compareType), branchLabel)])
  }

  /** `Move`: the four combinations of where the two registers live. */
  function MoveCode(env: Env, dest: RegisterMir, source: RegisterMir): seq<InstructionIR>
    requires Mapped(env, dest) && Mapped(env, source)
  {
    IrHelpers.MoveRegisterCode(ParameterCount(env), env.registers, ToVirtual(dest), ToVirtual(source))
  }

  /** The instructions that compute into a register without calling out. */
  predicate IsComputation(d: MirData) {
    || d.LoadInt32? || d.LoadFloat32? || d.LoadBool? || d.LoadNull? || d.LoadArgument? || d.Move?
    || d.AddInt32? || d.AddInt32Constant? || d.SubInt32? || d.SubInt32Constant? || d.MultiplyInt32?
    || d.AddFloat32? || d.SubFloat32? || d.MultiplyFloat32? || d.DivideFloat32?
    || d.AndBool? || d.AndBoolConstant? || d.OrBool? || d.OrBoolConstant? || d.NotBool? || d.Return?
  }

  /** The instructions that call out with the alive registers saved. */
  predicate SavesAlive(d: MirData) {
    d.DivideInt32? || d.Call? || d.CallInstance? || d.NewArray? || d.NewObject? || d.GarbageCollect? || d.PrintStackFrame?
  }

  function ComputationCode(env: Env, d: MirData): seq<InstructionIR>
    requires IsComputation(d) && AllMapped(env, d.Registers())
  {
    match d
    case LoadInt32(dest, v) => ConstantLoadCode(env, dest, v)
    case LoadFloat32(dest, v) => FloatLoadCode(env, dest, AsI32(v.bits))
    case LoadBool(dest, b) => ConstantLoadCode(env, dest, if b then 1 else 0)
    case LoadNull(dest) => ConstantLoadCode(env, dest, 0)
    case LoadArgument(argument, dest) => LoadArgumentCode(env, argument, dest)
    case Move(dest, source) => MoveCode(env, dest, source)
    case AddInt32(dest, a, b) => ArithmeticCode(env, IrHelpers.AddInt32Op, dest, a, b)
    case AddInt32Constant(dest, a, c) => ConstantArithmeticCode(env, IrHelpers.AddConstant, dest, a, c)
    case SubInt32(dest, a, b) => ArithmeticCode(env, IrHelpers.SubInt32Op, dest, a, b)
    case SubInt32Constant(dest, a, c) => ConstantArithmeticCode(env, IrHelpers.SubConstant, dest, a, c)
    case MultiplyInt32(dest, a, b) => ArithmeticCode(env, IrHelpers.MultiplyInt32Op, dest, a, b)
    case AddFloat32(dest, a, b) => ArithmeticCode(env, IrHelpers.AddFloat32Op, dest, a, b)
    case SubFloat32(dest, a, b) => ArithmeticCode(env, IrHelpers.SubFloat32Op, dest, a, b)
    case MultiplyFloat32(dest, a, b) => ArithmeticCode(env, IrHelpers.MultiplyFloat32Op, dest, a, b)
    case DivideFloat32(dest, a, b) => ArithmeticCode(env, IrHelpers.DivideFloat32Op, dest, a, b)
    case AndBool(dest, a, b) => ArithmeticCode(env, IrHelpers.AndInt32Op, dest, a, b)
    case AndBoolConstant(dest, a, c) => ConstantArithmeticCode(env, IrHelpers.AndConstant, dest, a, if c then 1 else 0)
    case OrBool(dest, a, b) => ArithmeticCode(env, IrHelpers.OrInt32Op, dest, a, b)
    case OrBoolConstant(dest, a, c) => ConstantArithmeticCode(env, IrHelpers.OrConstant, dest, a, if c then 1 else 0)
    case NotBool(dest, source) => NotCode(env, dest, source)
    case Return(returnValue) => ReturnCode(env, returnValue)
  }

  function SavingCode(env: Env, position: nat, d: MirData): Option<seq<InstructionIR>>
    requires SavesAlive(d) && AllMapped(env, d.Registers())
  {
    match d
    case DivideInt32(dest, a, b) => Some(DivideCode(env, position, dest, a, b))
    case Call(signature, callResult, arguments) => CallCode(env, position, signature, callResult, arguments)
    case CallInstance(signature, callResult, arguments) => CallInstanceCode(env, position, signature, callResult, arguments)
    case NewArray(element, dest, size) => NewArrayCode(env, position, element, dest, size)
    case NewObject(classType, dest) => Some(NewObjectCode(env, position, classType, dest))
    case GarbageCollect => Some(AroundCall(env, position, [InstructionIR.GarbageCollect(position)], None))
    case PrintStackFrame => Some(AroundCall(env, position, [InstructionIR.PrintStackFrame(position)], None))
  }

  /** The heap accesses, labels, branches and compares. */
  function AccessOrControlCode(env: Env, position: nat, d: MirData): Option<seq<InstructionIR>>
    requires !IsComputation(d) && !SavesAlive(d) && AllMapped(env, d.Registers())
  {
    match d
    case LoadElement(element, dest, arrayRef, index) => LoadElementCode(env, position, element, dest, arrayRef, index)
    case StoreElement(element, arrayRef, index, stored) => StoreElementCode(env, position, element, arrayRef, index, stored)
    case LoadArrayLength(dest, arrayRef) => LoadArrayLengthCode(env, position, dest, arrayRef)
    case LoadField(classType, field, dest, objectRef) => LoadFieldCode(env, position, classType, field, dest, objectRef)
    case StoreField(classType, field, objectRef, stored) => StoreFieldCode(env, position, classType, field, objectRef, stored)
    case Compare(condition, compareType, dest, a, b) => CompareCode(env, position, condition, compareType, dest, a, b)
    case BranchLabel(l) => Some([InstructionIR.BranchLabel(l)])
    case Branch(l) => Some([InstructionIR.Branch(l)])
    case BranchCondition(condition, compareType, l, a, b) => BranchConditionCode(env, condition, compareType, l, a, b)
  }

  /** The match of `compile_instruction` after the marker, once every register the instruction names is allocated. */
  function Lowered(env: Env, position: nat, d: MirData): Option<seq<InstructionIR>>
    requires AllMapped(env, d.Registers())
  {
    if IsComputation(d) then Some(ComputationCode(env, d))
    else if SavesAlive(d) then SavingCode(env, position, d)
    else AccessOrControlCode(env, position, d)
  }

  /** The code of one MIR instruction after its marker; `get_register` panics on a register the allocation lacks. */
  function Body(env: Env, position: nat, d: MirData): Option<seq<InstructionIR>> {
    if AllMapped(env, d.Registers()) then Lowered(env, position, d) else None
  }

  /** `compile_instruction`: the marker of the bytecode index and the position, then the body. */
  function InstructionCode(env: Env, position: nat, instruction: InstructionMir): Option<seq<InstructionIR>> {
    match Body(env, position, instruction.data)
    case None => None
    case Some(body) => Some([Marker(instruction.index, position)] + body)
  }

  /** The codes of the first `k` instructions joined in order; `None` once one of them is `None`. */
  function Joined(codes: seq<Option<seq<InstructionIR>>>, k: nat): Option<seq<InstructionIR>>
    requires k <= |codes|
    decreases k
  {
    if k == 0 then Some([])
    else match Joined(codes, k - 1)
      case None => None
      case Some(code) =>
        match codes[k - 1]
        case None => None
        case Some(more) => Some(code + more)
  }

  /** The code of each instruction at its position. */
  function Codes(env: Env, instructions: seq<InstructionMir>): (codes: seq<Option<seq<InstructionIR>>>)
    ensures |codes| == |instructions|
    ensures forall p :: 0 <= p < |instructions| ==> codes[p] == InstructionCode(env, p, instructions[p])
  {
    seq(|instructions|, p requires 0 <= p < |instructions| => InstructionCode(env, p, instructions[p]))
  }

  /** The code of the first `k` instructions. */
  function InstructionsCode(env: Env, instructions: seq<InstructionMir>, k: nat): Option<seq<InstructionIR>>
    requires k <= |instructions|
  {
    Joined(Codes(env, instructions), k)
  }

  /** `compile` on a fresh compiler: the prologue, then every instruction in order; `None` if one panics. */
  function Compiled(env: Env, result: MirCompiler.MirCompilationResult): Option<seq<InstructionIR>> {
    match InstructionsCode(env, result.instructions, |result.instructions|)
    case None => None
    case Some(code) => Some(PrologueCode(env, result.needZeroInitializeRegisters) + code)
  }

  // ---------------------------------------------------------------------------------------------
  // The zeroing.

  /** Whether a register of the list that the allocation uses is of the float class (`float`) or of the integer class. */
  predicate NeedsSpill(env: Env, needZero: seq<RegisterMir>, float: bool) {
    exists k :: 0 <= k < |needZero| && Mapped(env, needZero[k]) && (needZero[k].valueType == Float32) == float
  }

  /** How many times the code zeroes the spill register. */
  function ZeroLoads(code: seq<InstructionIR>, spill: HardwareRegister): nat {
    multiset(code)[LoadZeroToRegister(spill)]
  }

  lemma NeedsSpillStep(env: Env, needZero: seq<RegisterMir>, float: bool)
    requires |needZero| > 0
    ensures NeedsSpill(env, needZero, float) <==>
      (Mapped(env, needZero[0]) && (needZero[0].valueType == Float32) == float) || NeedsSpill(env, needZero[1..], float)
  {
    var rest := needZero[1..];
    if NeedsSpill(env, rest, float) {
      var k :| 0 <= k < |rest| && Mapped(env, rest[k]) && (rest[k].valueType == Float32) == float;
      assert needZero[k + 1] == rest[k];
    }
    if NeedsSpill(env, needZero, float) && !(Mapped(env, needZero[0]) && (needZero[0].valueType == Float32) == float) {
      var k :| 0 <= k < |needZero| && Mapped(env, needZero[k]) && (needZero[k].valueType == Float32) == float;
      assert rest[k - 1] == needZero[k];
    }
  }

  /**
   * Each spill register is zeroed at most once: exactly once if it did not already hold zero and
   * some register of the list that the allocation uses is of its class.
   */
  lemma {:induction false} SpillZeroedOnce(env: Env, needZero: seq<RegisterMir>, intZeroed: bool, floatZeroed: bool)
    ensures ZeroLoads(ZeroingFrom(env, needZero, intZeroed, floatZeroed), IntSpill) ==
      if !intZeroed && NeedsSpill(env, needZero, false) then 1 else 0
    ensures ZeroLoads(ZeroingFrom(env, needZero, intZeroed, floatZeroed), FloatSpill) ==
      if !floatZeroed && NeedsSpill(env, needZero, true) then 1 else 0
    decreases |needZero|
  {
    if |needZero| > 0 {
      var r := needZero[0];
      NeedsSpillStep(env, needZero, false);
      NeedsSpillStep(env, needZero, true);
      if !Mapped(env, r) {
        SpillZeroedOnce(env, needZero[1..], intZeroed, floatZeroed);
      } else {
        SpillZeroedOnce(env, needZero[1..], intZeroed || r.valueType != Float32, floatZeroed || r.valueType == Float32);
      }
    }
  }

  /** Every location `after` changed from `m` now holds zero. */
  ghost predicate OnlyZeroed(m: Machine, after: Machine) {
    && after.stack == m.stack && after.explicit == m.explicit
    && forall v :: after.Value(v) != m.Value(v) ==> after.Value(v) == 0
  }

  /** The spill registers marked zeroed hold zero. */
  predicate SpillsHold(m: Machine, intZeroed: bool, floatZeroed: bool) {
    (intZeroed ==> m.HardwareValue(IntSpill) == 0) && (floatZeroed ==> m.HardwareValue(FloatSpill) == 0)
  }

  /** The zeroing of one register: its location and the spill register it goes through hold zero. */
  lemma ZeroingStep(m: Machine, env: Env, r: RegisterMir, intZeroed: bool, floatZeroed: bool) returns (after: Machine)
    requires Mapped(env, r) && SpillsHold(m, intZeroed, floatZeroed)
    ensures Run(m, ZeroingHead(env, r, intZeroed, floatZeroed)) == Some(after)
    ensures after.Value(Location(env, r)) == 0
    ensures SpillsHold(after, intZeroed || r.valueType != Float32, floatZeroed || r.valueType == Float32)
    ensures OnlyZeroed(m, after)
  {
    var spill := SpillFor(r.valueType);
    var m1 := if SpillZeroed(r.valueType, intZeroed, floatZeroed) then m else m.Write(Register(spill), 0);
    var load := if SpillZeroed(r.valueType, intZeroed, floatZeroed) then [] else [LoadZeroToRegister(spill)];
    assert Run(m, load) == Some(m1);
    assert m1.HardwareValue(spill) == 0;
    WriteZeroOnlyZeroes(m, Register(spill), m1);
    after := ZeroIntoZeroes(m1, env, r);
    RunAppend(m, load, ZeroInto(env, r));
    OnlyZeroedTrans(m, m1, after);
  }

  /** Writing zero to a register or slot changes nothing but to zero. */
  lemma WriteZeroOnlyZeroes(m: Machine, v: Variable, after: Machine)
    requires !v.RegisterExplicit? && (after == m || after == m.Write(v, 0))
    ensures OnlyZeroed(m, after)
  {
    if after != m {
      IrHelpers.WriteElsewhere(m, v, 0);
    }
  }

  /** The move or store of the zeroed spill register. */
  lemma ZeroIntoZeroes(m: Machine, env: Env, r: RegisterMir) returns (after: Machine)
    requires Mapped(env, r) && m.HardwareValue(SpillFor(r.valueType)) == 0
    ensures Run(m, ZeroInto(env, r)) == Some(after)
    ensures after.Value(Location(env, r)) == 0 && after.HardwareValue(SpillFor(r.valueType)) == 0
    ensures after.HardwareValue(IntSpill) == 0 || after.HardwareValue(IntSpill) == m.HardwareValue(IntSpill)
    ensures after.HardwareValue(FloatSpill) == 0 || after.HardwareValue(FloatSpill) == m.HardwareValue(FloatSpill)
    ensures OnlyZeroed(m, after)
  {
    after := m.Write(Location(env, r), 0);
    assert Run(m, ZeroInto(env, r)) == Some(after);
    WriteZeroOnlyZeroes(m, Location(env, r), after);
    assert after.Value(Register(IntSpill)) == 0 || after.Value(Register(IntSpill)) == m.Value(Register(IntSpill));
    assert after.Value(Register(FloatSpill)) == 0 || after.Value(Register(FloatSpill)) == m.Value(Register(FloatSpill));
  }

  lemma OnlyZeroedTrans(m: Machine, middle: Machine, after: Machine)
    requires OnlyZeroed(m, middle) && OnlyZeroed(middle, after)
    ensures OnlyZeroed(m, after)
  {
    forall v | after.Value(v) != m.Value(v)
      ensures after.Value(v) == 0
    {
      if after.Value(v) == middle.Value(v) {
        assert middle.Value(v) != m.Value(v);
      }
    }
  }

  /**
   * The zeroing leaves zero in the location of every register of the list that the allocation
   * uses, and changes nothing but to zero, given that a spill register marked zeroed holds zero.
   */
  lemma {:induction false} ZeroingZeroes(m: Machine, env: Env, needZero: seq<RegisterMir>, intZeroed: bool, floatZeroed: bool)
    returns (after: Machine)
    requires SpillsHold(m, intZeroed, floatZeroed)
    ensures Run(m, ZeroingFrom(env, needZero, intZeroed, floatZeroed)) == Some(after)
    ensures forall k :: 0 <= k < |needZero| && Mapped(env, needZero[k]) ==> after.Value(Location(env, needZero[k])) == 0
    ensures OnlyZeroed(m, after)
    decreases |needZero|
  {
    if |needZero| == 0 {
      after := m;
    } else {
      var r := needZero[0];
      var rest := needZero[1..];
      if !Mapped(env, r) {
        after := ZeroingZeroes(m, env, rest, intZeroed, floatZeroed);
      } else {
        var iz, fz := intZeroed || r.valueType != Float32, floatZeroed || r.valueType == Float32;
        var m1 := ZeroingStep(m, env, r, intZeroed, floatZeroed);
        after := ZeroingZeroes(m1, env, rest, iz, fz);
        RunAppend(m, ZeroingHead(env, r, intZeroed, floatZeroed), ZeroingFrom(env, rest, iz, fz));
        OnlyZeroedTrans(m, m1, after);
      }
      assert forall k :: 0 < k < |needZero| ==> needZero[k] == rest[k - 1];
    }
  }

  // ---------------------------------------------------------------------------------------------
  // Borrowing temporaries never runs out and never lends an operand's register to another.

  /** An instruction with one register operand always gets a register for it. */
  lemma OneTemp(env: Env, position: nat, a: RegisterMir)
    requires Mapped(env, a)
    ensures GetTemp(env, position, TryRemoveTemp(env, FreshTemps, a), a).Some?
  {
    assert Int(5) in IrHelpers.TempPool;
  }

  /**
   * With two operands, both get registers, and a temporary lent to one is neither the other's
   * hardware register nor the temporary lent to it.
   */
  lemma TwoTemps(env: Env, position: nat, a: RegisterMir, b: RegisterMir)
    requires Mapped(env, a) && Mapped(env, b)
    ensures var x := GetTemp(env, position, TryRemoveTemp(env, TryRemoveTemp(env, FreshTemps, a), b), a);
      && x.Some?
      && var y := GetTemp(env, position, x.value.temps, b);
      && y.Some?
      && ((x.value.isStack || y.value.isStack) ==> x.value.register != y.value.register)
  {
    assert Int(3) in IrHelpers.TempPool && Int(4) in IrHelpers.TempPool && Int(5) in IrHelpers.TempPool;
  }

  /** With three operands, all get registers, and no lent temporary coincides with another operand's register. */
  lemma ThreeTemps(env: Env, position: nat, a: RegisterMir, b: RegisterMir, c: RegisterMir)
    requires Mapped(env, a) && Mapped(env, b) && Mapped(env, c)
    ensures var x := GetTemp(env, position, TryRemoveTemp(env, TryRemoveTemp(env, TryRemoveTemp(env, FreshTemps, a), b), c), a);
      && x.Some?
      && var y := GetTemp(env, position, x.value.temps, b);
      && y.Some?
      && var z := GetTemp(env, position, y.value.temps, c);
      && z.Some?
      && ((x.value.isStack || y.value.isStack) ==> x.value.register != y.value.register)
      && ((x.value.isStack || z.value.isStack) ==> x.value.register != z.value.register)
      && ((y.value.isStack || z.value.isStack) ==> y.value.register != z.value.register)
  {
    assert Int(3) in IrHelpers.TempPool && Int(4) in IrHelpers.TempPool && Int(5) in IrHelpers.TempPool;
  }

  /** A compare always gets a register for its destination, and a lent one is neither operand's hardware register. */
  lemma CompareTemp(env: Env, position: nat, dest: RegisterMir, op1: RegisterMir, op2: RegisterMir)
    requires Mapped(env, dest) && Mapped(env, op1) && Mapped(env, op2)
    ensures var d := GetTemp(env, position, TryRemoveTemp(env, TryRemoveTemp(env, FreshTemps, op1), op2), dest);
      && d.Some?
      && (d.value.isStack ==> Some(d.value.register) != HardwareOf(env, op1) && Some(d.value.register) != HardwareOf(env, op2))
  {
    assert Int(3) in IrHelpers.TempPool && Int(4) in IrHelpers.TempPool && Int(5) in IrHelpers.TempPool;
  }

  /** A temporary is saved only if it is alive at the instruction: none is when no alive register is a temporary. */
  lemma NoSaveWithoutAliveTemps(env: Env, position: nat, t: Temps, r: RegisterMir)
    requires Mapped(env, r) && t.free <= IrHelpers.TempPool
    requires forall k :: 0 <= k < |AliveHardwareAt(env, position)| ==> AliveHardwareAt(env, position)[k] !in IrHelpers.TempPool
    requires GetTemp(env, position, t, r).Some?
    ensures !GetTemp(env, position, t, r).value.alive && GetTemp(env, position, t, r).value.temps.pushed == t.pushed
    ensures forall k :: 0 <= k < |GetTemp(env, position, t, r).value.code| ==> !GetTemp(env, position, t, r).value.code[k].Push?
  {
  }

  // ---------------------------------------------------------------------------------------------
  // Call arguments.

  /** A machine register is claimed from `from` on iff a later argument is passed in it. */
  lemma {:induction false} ClaimedIff(callee: Declaration, arguments: seq<RegisterMir>, from: nat, m: MachineRegister)
    ensures m in Claimed(callee, arguments, from) <==>
      exists j :: from <= j < |arguments| && CallingConventions.GetCallRegister(callee.parameters, j, arguments[j].valueType) == Some(m)
    decreases |arguments| - from
  {
    if from < |arguments| {
      ClaimedIff(callee, arguments, from + 1, m);
      if CallingConventions.GetCallRegister(callee.parameters, from, arguments[from].valueType) == Some(m) {
        assert from <= from < |arguments|;
      }
    }
  }

  /**
   * Argument `i` is read from its hardware register exactly when it has one and no later argument
   * is passed in the machine register it is mapped to; otherwise it is read from its slot.
   */
  lemma ArgumentSourceIff(env: Env, callee: Declaration, arguments: seq<RegisterMir>, i: nat)
    requires AllMapped(env, arguments) && i < |arguments|
    ensures var source := ArgumentSources(env, callee, arguments)[i];
      && (source.Register? <==>
           && HardwareOf(env, arguments[i]).Some?
           && !(HardwareOf(env, arguments[i]).value in env.registerMapping
                && exists j :: i < j < |arguments| &&
                     CallingConventions.GetCallRegister(callee.parameters, j, arguments[j].valueType)
                       == Some(env.registerMapping[HardwareOf(env, arguments[i]).value])))
      && (source.Register? ==> source.register == HardwareOf(env, arguments[i]).value)
      && (!source.Register? ==> source == FrameMemory(Slot(env, arguments[i])))
  {
    assert arguments[i] in arguments;
    var h := HardwareOf(env, arguments[i]);
    if h.Some? && h.value in env.registerMapping {
      ClaimedIff(callee, arguments, i + 1, env.registerMapping[h.value]);
    }
  }

  // ---------------------------------------------------------------------------------------------
  // When the compilation panics.

  /** `binder.get(signature).unwrap()` fails. */
  predicate CalleeMissing(env: Env, d: MirData) {
    (d.Call? || d.CallInstance?) && d.signature !in env.frame.functions
  }

  /** `arguments[0]` or `can_be_null` of the instance fails. */
  predicate InstanceUnknown(env: Env, position: nat, d: MirData) {
    d.CallInstance? && (|d.arguments| == 0 || !d.arguments[0].valueType.IsReference() || position >= |env.frame.nullStatus|)
  }

  /** The field layout lookup fails. */
  predicate FieldMissing(env: Env, d: MirData) {
    (d.LoadField? || d.StoreField?) && (d.classType, d.field) !in env.frame.fields
  }

  /** `can_be_null` of a dereferenced register fails: not a reference, or past the recorded instructions. */
  predicate NullStatusUnknown(env: Env, position: nat, d: MirData) {
    FrameCompiler.Dereferences(d) && (!FrameCompiler.Dereferenced(d).valueType.IsReference() || position >= |env.frame.nullStatus|)
  }

  /** A comparison of `Void`. */
  predicate ComparesVoid(d: MirData) {
    (d.BranchCondition? || d.Compare?) && d.compareType == Void
  }

  /**
   * `compile_instruction` panics exactly on a register the allocation lacks, an unbound callee, an
   * instance call without arguments, a dereference or instance whose null status is unknown, a
   * missing field, or a comparison of `Void`; never on running out of temporaries.
   */
  predicate Panics(env: Env, position: nat, d: MirData) {
    || !AllMapped(env, d.Registers())
    || CalleeMissing(env, d) || InstanceUnknown(env, position, d) || FieldMissing(env, d)
    || NullStatusUnknown(env, position, d) || ComparesVoid(d)
  }

  lemma SavingPanics(env: Env, position: nat, d: MirData)
    requires SavesAlive(d) && AllMapped(env, d.Registers())
    ensures SavingCode(env, position, d).None? <==> CalleeMissing(env, d) || InstanceUnknown(env, position, d)
  {
    match d
    case NewArray(element, dest, size) =>
      OneTemp(env, position, size);
    case CallInstance(signature, callResult, arguments) =>
      CallInstancePanics(env, position, signature, callResult, arguments);
    case _ =>
  }

  lemma CallInstancePanics(env: Env, position: nat, signature: Signature, callResult: Option<RegisterMir>, arguments: seq<RegisterMir>)
    requires AllMapped(env, arguments) && (callResult.Some? ==> Mapped(env, callResult.value))
    ensures CallInstanceCode(env, position, signature, callResult, arguments).None? <==>
      || signature !in env.frame.functions || |arguments| == 0
      || !arguments[0].valueType.IsReference() || position >= |env.frame.nullStatus|
  {
    if |arguments| > 0 {
      assert arguments[0] in arguments;
      OneTemp(env, position, arguments[0]);
    }
  }

  lemma AccessPanics(env: Env, position: nat, d: MirData)
    requires !IsComputation(d) && !SavesAlive(d) && AllMapped(env, d.Registers())
    ensures AccessOrControlCode(env, position, d).None? <==> FieldMissing(env, d) || NullStatusUnknown(env, position, d) || ComparesVoid(d)
  {
    match d
    case LoadElement(element, dest, arrayRef, index) => TwoTemps(env, position, arrayRef, index);
    case StoreElement(element, arrayRef, index, stored) => ThreeTemps(env, position, arrayRef, index, stored);
    case LoadArrayLength(dest, arrayRef) => OneTemp(env, position, arrayRef);
    case LoadField(classType, field, dest, objectRef) => OneTemp(env, position, objectRef);
    case StoreField(classType, field, objectRef, stored) => TwoTemps(env, position, objectRef, stored);
    case Compare(condition, compareType, dest, a, b) => CompareTemp(env, position, dest, a, b);
    case _ =>
  }

  lemma ComputationNeverPanics(env: Env, position: nat, d: MirData)
    requires IsComputation(d)
    ensures !CalleeMissing(env, d) && !InstanceUnknown(env, position, d) && !FieldMissing(env, d)
    ensures !NullStatusUnknown(env, position, d) && !ComparesVoid(d)
  {
  }

  /** The body panics exactly when `Panics` says. */
  lemma BodyPanics(env: Env, position: nat, d: MirData)
    ensures Body(env, position, d).None? <==> Panics(env, position, d)
  {
    if AllMapped(env, d.Registers()) {
      assert Body(env, position, d) == Lowered(env, position, d);
      if IsComputation(d) {
        ComputationNeverPanics(env, position, d);
      } else if SavesAlive(d) {
        SavingPanics(env, position, d);
        assert !FieldMissing(env, d) && !NullStatusUnknown(env, position, d) && !ComparesVoid(d);
      } else {
        AccessPanics(env, position, d);
        assert !CalleeMissing(env, d) && !InstanceUnknown(env, position, d);
      }
    }
  }

  /** An instruction compiles exactly when it does not panic, and its code then starts with its marker. */
  lemma InstructionCompilesUnlessPanic(env: Env, position: nat, instruction: InstructionMir)
    ensures InstructionCode(env, position, instruction).None? <==> Panics(env, position, instruction.data)
    ensures InstructionCode(env, position, instruction).Some? ==>
      InstructionCode(env, position, instruction).value[0] == Marker(instruction.index, position)
  {
    BodyPanics(env, position, instruction.data);
  }

  lemma AppendAssociates(a: seq<InstructionIR>, b: seq<InstructionIR>, c: seq<InstructionIR>)
    ensures (a + b) + c == a + (b + c)
  {
  }

  /** One more code extends the joined codes. */
  lemma JoinedGrows(codes: seq<Option<seq<InstructionIR>>>, k: nat)
    requires k < |codes| && Joined(codes, k).Some? && codes[k].Some?
    ensures Joined(codes, k + 1) == Some(Joined(codes, k).value + codes[k].value)
  {
  }

  /** A missing code at `k - 1` leaves every longer prefix without code. */
  lemma {:induction false} JoinedStopsAtNone(codes: seq<Option<seq<InstructionIR>>>, k: nat, n: nat)
    requires 0 < k <= n <= |codes| && codes[k - 1].None?
    ensures Joined(codes, n).None?
    decreases n
  {
    if n > k {
      JoinedStopsAtNone(codes, k, n - 1);
    }
  }

  /** The first `k` codes join exactly when each of them is there. */
  lemma {:induction false} JoinedIffEach(codes: seq<Option<seq<InstructionIR>>>, k: nat)
    requires k <= |codes|
    ensures Joined(codes, k).Some? <==> forall p :: 0 <= p < k ==> codes[p].Some?
    decreases k
  {
    if k > 0 {
      JoinedIffEach(codes, k - 1);
    }
  }

  /** A function compiles exactly when none of its instructions panics at its position. */
  lemma CompilesUnlessSomePanic(env: Env, instructions: seq<InstructionMir>, k: nat)
    requires k <= |instructions|
    ensures InstructionsCode(env, instructions, k).Some? <==> forall p :: 0 <= p < k ==> !Panics(env, p, instructions[p].data)
  {
    JoinedIffEach(Codes(env, instructions), k);
    forall p | 0 <= p < k
      ensures InstructionCode(env, p, instructions[p]).Some? <==> !Panics(env, p, instructions[p].data)
    {
      InstructionCompilesUnlessPanic(env, p, instructions[p]);
    }
  }

  // ---------------------------------------------------------------------------------------------
  // What the code does.

  /** The binary code leaves `f` of the operands' values in the destination's location and changes nothing but the spill register. */
  lemma ArithmeticCodeComputes(m: Machine, env: Env, op: IrHelpers.BinaryOperator, dest: RegisterMir, op1: RegisterMir, op2: RegisterMir,
                               f: (int, int) -> int) returns (after: Machine)
    requires Mapped(env, dest) && Mapped(env, op1) && Mapped(env, op2) && IrHelpers.SpillFree(env.registers)
    ensures IrHelpers.RunWith(m, ArithmeticCode(env, op, dest, op1, op2), f) == Some(after)
    ensures after.Value(Location(env, dest)) == f(m.Value(Location(env, op1)), m.Value(Location(env, op2)))
    ensures forall v :: v != Location(env, dest) && v != Register(SpillOf(op)) ==> after.Value(v) == m.Value(v)
  {
    var pc := ParameterCount(env);
    if op.StoresToMemory() {
      after := IrHelpers.BinaryWithDestinationComputes(m, pc, env.registers, op, ToVirtual(dest), ToVirtual(op1), ToVirtual(op2), f);
    } else {
      after := IrHelpers.NoMemoryStoreWithDestinationComputes(m, pc, env.registers, op, ToVirtual(dest), ToVirtual(op1), ToVirtual(op2), SpillOf(op), f);
    }
  }

  /**
   * A MIR arithmetic or logic instruction on two registers leaves `f` of its operands' values in its
   * destination's location, wherever each of the three lives, and changes nothing but the spill
   * register of the operation's class.
   */
  lemma ArithmeticComputes(m: Machine, env: Env, d: MirData, f: (int, int) -> int) returns (after: Machine)
    requires FrameCompiler.BinaryOperatorOf(d).Some? && AllMapped(env, d.Registers()) && IrHelpers.SpillFree(env.registers)
    ensures IrHelpers.RunWith(m, ComputationCode(env, d), f) == Some(after)
    ensures after.Value(Location(env, d.dest)) == f(m.Value(Location(env, d.op1)), m.Value(Location(env, d.op2)))
    ensures forall v :: v != Location(env, d.dest) && v != Register(SpillOf(FrameCompiler.BinaryOperatorOf(d).value)) ==> after.Value(v) == m.Value(v)
  {
    assert d.dest in d.Registers() && d.op1 in d.Registers() && d.op2 in d.Registers();
    var op := FrameCompiler.BinaryOperatorOf(d).value;
    assert ComputationCode(env, d) == ArithmeticCode(env, op, d.dest, d.op1, d.op2);
    after := ArithmeticCodeComputes(m, env, op, d.dest, d.op1, d.op2, f);
  }

  /**
   * A MIR instruction combining a register with a constant leaves `f` of the register's value and
   * the constant in its destination's location and changes nothing but the integer spill register.
   */
  lemma ConstantComputes(m: Machine, env: Env, d: MirData, f: (int, int) -> int) returns (after: Machine)
    requires FrameCompiler.ConstantOperatorOf(d).Some? && AllMapped(env, d.Registers()) && IrHelpers.SpillFree(env.registers)
    ensures IrHelpers.RunWith(m, ComputationCode(env, d), f) == Some(after)
    ensures after.Value(Location(env, d.dest)) == f(m.Value(Location(env, d.op1)), FrameCompiler.ConstantOperatorOf(d).value.1)
    ensures forall v :: v != Location(env, d.dest) && v != Register(IntSpill) ==> after.Value(v) == m.Value(v)
  {
    assert d.dest in d.Registers() && d.op1 in d.Registers();
    var (op, value) := FrameCompiler.ConstantOperatorOf(d).value;
    assert ComputationCode(env, d) == ConstantArithmeticCode(env, op, d.dest, d.op1, value);
    after := IrHelpers.ConstantWithDestinationComputes(m, ParameterCount(env), env.registers, op, ToVirtual(d.dest), ToVirtual(d.op1), value, f);
  }

  /** The instructions that put a value into their destination without operating on it. */
  predicate IsValueLoad(d: MirData) {
    d.LoadInt32? || d.LoadBool? || d.LoadNull? || d.LoadArgument? || d.Move?
  }

  /** The value a value load puts into its destination: the constant, `1` or `0` for a boolean, `0` for null, the argument's slot, the source. */
  function LoadedValue(m: Machine, env: Env, d: MirData): int
    requires IsValueLoad(d) && AllMapped(env, d.Registers())
  {
    match d
    case LoadInt32(_, v) => v
    case LoadBool(_, b) => if b then 1 else 0
    case LoadNull(_) => 0
    case LoadArgument(argument, _) => m.FrameValue(ArgumentStackOffset(argument))
    case Move(_, source) =>
      assert source in d.Registers();
      m.Value(Location(env, source))
  }

  /** A value load puts its value into its destination's location and changes nothing but the integer spill register. */
  lemma ValueLoadWrites(m: Machine, env: Env, d: MirData, f: (int, int) -> int) returns (after: Machine)
    requires IsValueLoad(d) && AllMapped(env, d.Registers())
    ensures IrHelpers.RunWith(m, ComputationCode(env, d), f) == Some(after)
    ensures after.Value(Location(env, d.dest)) == LoadedValue(m, env, d)
    ensures forall v :: v != Location(env, d.dest) && v != Register(IntSpill) ==> after.Value(v) == m.Value(v)
  {
    assert d.dest in d.Registers();
    match d
    case Move(dest, source) =>
      assert source in d.Registers();
      after := IrHelpers.MoveRegisterMoves(m, ParameterCount(env), env.registers, ToVirtual(dest), ToVirtual(source), f);
    case LoadArgument(argument, dest) =>
      after := ArgumentLoads(m, env, argument, dest, f);
    case LoadInt32(dest, v) =>
      after := ConstantLoads(m, env, dest, v, f);
    case LoadBool(dest, b) =>
      after := ConstantLoads(m, env, dest, if b then 1 else 0, f);
    case LoadNull(dest) =>
      after := ConstantLoads(m, env, dest, 0, f);
  }

  lemma ConstantLoads(m: Machine, env: Env, dest: RegisterMir, value: I32, f: (int, int) -> int) returns (after: Machine)
    requires Mapped(env, dest)
    ensures IrHelpers.RunWith(m, ConstantLoadCode(env, dest, value), f) == Some(after)
    ensures after == m.Write(Location(env, dest), value)
    ensures forall v :: v != Location(env, dest) ==> after.Value(v) == m.Value(v)
  {
    after := m.Write(Location(env, dest), value);
    IrHelpers.RunWithOne(m, ConstantLoadCode(env, dest, value)[0], f);
    assert ConstantLoadCode(env, dest, value) == [ConstantLoadCode(env, dest, value)[0]];
    IrHelpers.WriteElsewhere(m, Location(env, dest), value);
  }

  lemma ArgumentLoads(m: Machine, env: Env, argument: nat, dest: RegisterMir, f: (int, int) -> int) returns (after: Machine)
    requires Mapped(env, dest)
    ensures IrHelpers.RunWith(m, LoadArgumentCode(env, argument, dest), f) == Some(after)
    ensures after.Value(Location(env, dest)) == m.FrameValue(ArgumentStackOffset(argument))
    ensures forall v :: v != Location(env, dest) && v != Register(IntSpill) ==> after.Value(v) == m.Value(v)
  {
    var x := m.FrameValue(ArgumentStackOffset(argument));
    var to := Location(env, dest);
    match HardwareOf(env, dest)
    case Some(h) =>
      after := m.Write(to, x);
      IrHelpers.RunWithOne(m, LoadFrameMemory(h, ArgumentStackOffset(argument)), f);
      IrHelpers.WriteElsewhere(m, to, x);
    case None =>
      var m1 := m.Write(Register(IntSpill), x);
      after := m1.Write(to, x);
      IrHelpers.RunWithTwo(m, LoadFrameMemory(IntSpill, ArgumentStackOffset(argument)), StoreFrameMemory(Slot(env, dest), IntSpill), f);
      IrHelpers.WriteElsewhere(m, Register(IntSpill), x);
      IrHelpers.WriteElsewhere(m1, to, x);
  }

  /** `code` is `push`, then something, then `pop` and `tail`. */
  predicate Around(code: seq<InstructionIR>, push: seq<InstructionIR>, pop: seq<InstructionIR>, tail: seq<InstructionIR>) {
    |push| + |pop| + |tail| <= |code| && code == push + code[|push|..|code| - |pop| - |tail|] + pop + tail
  }

  lemma Decomposes(code: seq<InstructionIR>, push: seq<InstructionIR>, middle: seq<InstructionIR>, pop: seq<InstructionIR>, tail: seq<InstructionIR>)
    requires code == push + middle + pop + tail
    ensures Around(code, push, pop, tail)
  {
    assert code[|push|..|code| - |pop| - |tail|] == middle;
  }

  /** The code of `AroundCall` saves the alive registers first and reloads them last. */
  lemma AroundCallSaves(env: Env, position: nat, middle: seq<InstructionIR>, destination: Option<HardwareRegister>)
    ensures Around(AroundCall(env, position, middle, destination), IrHelpers.PushAliveCode(ParameterCount(env), AliveAt(env, position)),
                   IrHelpers.PopAliveCode(ParameterCount(env), AliveAt(env, position), destination), [])
  {
    var code := AroundCall(env, position, middle, destination);
    assert code == code + [];
    Decomposes(code, IrHelpers.PushAliveCode(ParameterCount(env), AliveAt(env, position)),
               middle, IrHelpers.PopAliveCode(ParameterCount(env), AliveAt(env, position), destination), []);
  }

  lemma DivideSaves(env: Env, position: nat, dest: RegisterMir, op1: RegisterMir, op2: RegisterMir)
    requires Mapped(env, dest) && Mapped(env, op1) && Mapped(env, op2)
    ensures Around(DivideCode(env, position, dest, op1, op2), IrHelpers.PushAliveCode(ParameterCount(env), AliveAt(env, position)),
                   IrHelpers.PopAliveCode(ParameterCount(env), AliveAt(env, position), Some(IntSpill)),
                   IrHelpers.MoveFromHardwareCode(ParameterCount(env), env.registers, ToVirtual(dest), IntSpill))
  {
    var pc := ParameterCount(env);
    Decomposes(DivideCode(env, position, dest, op1, op2), IrHelpers.PushAliveCode(pc, AliveAt(env, position)),
               IrHelpers.MoveToHardwareCode(pc, env.registers, IntSpill, ToVirtual(op1))
               + IrHelpers.MoveToHardwareCode(pc, env.registers, Int(5), ToVirtual(op2))
               + [InstructionIR.DivideInt32(IntSpill, Int(5))],
               IrHelpers.PopAliveCode(pc, AliveAt(env, position), Some(IntSpill)),
               IrHelpers.MoveFromHardwareCode(pc, env.registers, ToVirtual(dest), IntSpill));
  }

  /** `Call` saves the alive registers first and reloads them last, except the result's hardware register. */
  lemma CallSaves(env: Env, position: nat, signature: Signature, callResult: Option<RegisterMir>, arguments: seq<RegisterMir>)
    requires AllMapped(env, arguments) && (callResult.Some? ==> Mapped(env, callResult.value))
    requires CallCode(env, position, signature, callResult, arguments).Some?
    ensures Around(CallCode(env, position, signature, callResult, arguments).value, IrHelpers.PushAliveCode(ParameterCount(env), AliveAt(env, position)),
                   IrHelpers.PopAliveCode(ParameterCount(env), AliveAt(env, position), ResultHardware(env, callResult)), [])
  {
    AroundCallSaves(env, position, CallPart(env, signature, env.frame.functions[signature], callResult, arguments), ResultHardware(env, callResult));
  }

  /** `CallInstance` likewise: the null check of the instance comes after the save. */
  lemma CallInstanceSaves(env: Env, position: nat, signature: Signature, callResult: Option<RegisterMir>, arguments: seq<RegisterMir>)
    requires AllMapped(env, arguments) && (callResult.Some? ==> Mapped(env, callResult.value))
    requires CallInstanceCode(env, position, signature, callResult, arguments).Some?
    ensures Around(CallInstanceCode(env, position, signature, callResult, arguments).value,
                   IrHelpers.PushAliveCode(ParameterCount(env), AliveAt(env, position)),
                   IrHelpers.PopAliveCode(ParameterCount(env), AliveAt(env, position), ResultHardware(env, callResult)), [])
  {
    assert arguments[0] in arguments;
    var check := if FrameCompiler.CanBeNull(env.frame, position, arguments[0]).value then InstanceCheckCode(env, position, arguments[0]).value else [];
    AroundCallSaves(env, position, check + CallPart(env, signature, env.frame.functions[signature], callResult, arguments), ResultHardware(env, callResult));
  }

  /** `NewArray` saves the alive registers first and reloads them last, except the destination's hardware register. */
  lemma NewArraySaves(env: Env, position: nat, element: TypeId, dest: RegisterMir, size: RegisterMir)
    requires Mapped(env, dest) && Mapped(env, size)
    ensures NewArrayCode(env, position, element, dest, size).Some?
    ensures Around(NewArrayCode(env, position, element, dest, size).value, IrHelpers.PushAliveCode(ParameterCount(env), AliveAt(env, position)),
                   IrHelpers.PopAliveCode(ParameterCount(env), AliveAt(env, position), HardwareOf(env, dest)), [])
  {
    OneTemp(env, position, size);
    var s := GetTemp(env, position, TryRemoveTemp(env, FreshTemps, size), size).value;
    AroundCallSaves(env, position, s.code + [InstructionIR.NewArray(element, s.register, if s.alive then 1 else 0)]
                                   + NewReferenceCode(env, dest) + PopTemps(s.temps.pushed), HardwareOf(env, dest));
  }

  /** `NewObject` likewise. */
  lemma NewObjectSaves(env: Env, position: nat, classType: TypeId, dest: RegisterMir)
    requires Mapped(env, dest)
    ensures Around(NewObjectCode(env, position, classType, dest), IrHelpers.PushAliveCode(ParameterCount(env), AliveAt(env, position)),
                   IrHelpers.PopAliveCode(ParameterCount(env), AliveAt(env, position), HardwareOf(env, dest)), [])
  {
    AroundCallSaves(env, position, [InstructionIR.NewObject(classType)] + NewReferenceCode(env, dest), HardwareOf(env, dest));
  }

  /** Whether the code checks some register for null. */
  ghost predicate HasNullCheck(code: seq<InstructionIR>) {
    exists r :: NullReferenceCheck(r) in code
  }

  lemma PopTempsNeverCheck(pushed: seq<HardwareRegister>)
    ensures !HasNullCheck(PopTemps(pushed))
  {
    var code := PopTemps(pushed);
    assert forall k :: 0 <= k < |code| ==> code[k].Pop?;
  }

  /** A borrowed register's code only saves and loads. */
  lemma BorrowNeverChecks(env: Env, position: nat, t: Temps, r: RegisterMir)
    requires Mapped(env, r) && t.free <= IrHelpers.TempPool && GetTemp(env, position, t, r).Some?
    ensures !HasNullCheck(GetTemp(env, position, t, r).value.code)
  {
  }

  /** `LoadElement` checks the array reference for null exactly when it may be null. */
  lemma LoadElementChecksNull(env: Env, position: nat, element: TypeId, dest: RegisterMir, arrayRef: RegisterMir, index: RegisterMir)
    requires Mapped(env, dest) && Mapped(env, arrayRef) && Mapped(env, index)
    requires LoadElementCode(env, position, element, dest, arrayRef, index).Some?
    ensures HasNullCheck(LoadElementCode(env, position, element, dest, arrayRef, index).value) <==>
      FrameCompiler.CanBeNull(env.frame, position, arrayRef).value
  {
    var t := TryRemoveTemp(env, TryRemoveTemp(env, FreshTemps, arrayRef), index);
    var a := GetTemp(env, position, t, arrayRef).value;
    var i := GetTemp(env, position, a.temps, index).value;
    BorrowNeverChecks(env, position, t, arrayRef);
    BorrowNeverChecks(env, position, a.temps, index);
    PopTempsNeverCheck(i.temps.pushed);
  }

  /** `StoreElement` likewise. */
  lemma StoreElementChecksNull(env: Env, position: nat, element: TypeId, arrayRef: RegisterMir, index: RegisterMir, stored: RegisterMir)
    requires Mapped(env, arrayRef) && Mapped(env, index) && Mapped(env, stored)
    requires StoreElementCode(env, position, element, arrayRef, index, stored).Some?
    ensures HasNullCheck(StoreElementCode(env, position, element, arrayRef, index, stored).value) <==>
      FrameCompiler.CanBeNull(env.frame, position, arrayRef).value
  {
    var t := TryRemoveTemp(env, TryRemoveTemp(env, TryRemoveTemp(env, FreshTemps, arrayRef), index), stored);
    var a := GetTemp(env, position, t, arrayRef).value;
    var i := GetTemp(env, position, a.temps, index).value;
    var v := GetTemp(env, position, i.temps, stored).value;
    BorrowNeverChecks(env, position, t, arrayRef);
    BorrowNeverChecks(env, position, a.temps, index);
    BorrowNeverChecks(env, position, i.temps, stored);
    PopTempsNeverCheck(v.temps.pushed);
  }

  /** `LoadArrayLength` likewise. */
  lemma LoadArrayLengthChecksNull(env: Env, position: nat, dest: RegisterMir, arrayRef: RegisterMir)
    requires Mapped(env, dest) && Mapped(env, arrayRef)
    requires LoadArrayLengthCode(env, position, dest, arrayRef).Some?
    ensures HasNullCheck(LoadArrayLengthCode(env, position, dest, arrayRef).value) <==> FrameCompiler.CanBeNull(env.frame, position, arrayRef).value
  {
    var t := TryRemoveTemp(env, FreshTemps, arrayRef);
    BorrowNeverChecks(env, position, t, arrayRef);
    PopTempsNeverCheck(GetTemp(env, position, t, arrayRef).value.temps.pushed);
  }

  /** `LoadField` checks the object reference for null exactly when it may be null. */
  lemma LoadFieldChecksNull(env: Env, position: nat, classType: TypeId, field: string, dest: RegisterMir, objectRef: RegisterMir)
    requires Mapped(env, dest) && Mapped(env, objectRef)
    requires LoadFieldCode(env, position, classType, field, dest, objectRef).Some?
    ensures HasNullCheck(LoadFieldCode(env, position, classType, field, dest, objectRef).value) <==>
      FrameCompiler.CanBeNull(env.frame, position, objectRef).value
  {
    var t := TryRemoveTemp(env, FreshTemps, objectRef);
    BorrowNeverChecks(env, position, t, objectRef);
    PopTempsNeverCheck(GetTemp(env, position, t, objectRef).value.temps.pushed);
  }

  /** `StoreField` likewise. */
  lemma StoreFieldChecksNull(env: Env, position: nat, classType: TypeId, field: string, objectRef: RegisterMir, stored: RegisterMir)
    requires Mapped(env, objectRef) && Mapped(env, stored)
    requires StoreFieldCode(env, position, classType, field, objectRef, stored).Some?
    ensures HasNullCheck(StoreFieldCode(env, position, classType, field, objectRef, stored).value) <==>
      FrameCompiler.CanBeNull(env.frame, position, objectRef).value
  {
    var t := TryRemoveTemp(env, TryRemoveTemp(env, FreshTemps, objectRef), stored);
    var o := GetTemp(env, position, t, objectRef).value;
    var v := GetTemp(env, position, o.temps, stored).value;
    BorrowNeverChecks(env, position, t, objectRef);
    BorrowNeverChecks(env, position, o.temps, stored);
    PopTempsNeverCheck(v.temps.pushed);
  }

  /** `CallInstance` checks the instance for null exactly when it may be null. */
  lemma CallInstanceChecksNull(env: Env, position: nat, signature: Signature, callResult: Option<RegisterMir>, arguments: seq<RegisterMir>)
    requires AllMapped(env, arguments) && (callResult.Some? ==> Mapped(env, callResult.value))
    requires CallInstanceCode(env, position, signature, callResult, arguments).Some?
    ensures HasNullCheck(CallInstanceCode(env, position, signature, callResult, arguments).value) <==>
      FrameCompiler.CanBeNull(env.frame, position, arguments[0]).value
  {
    assert arguments[0] in arguments;
    var t := TryRemoveTemp(env, FreshTemps, arguments[0]);
    BorrowNeverChecks(env, position, t, arguments[0]);
    OneTemp(env, position, arguments[0]);
    PopTempsNeverCheck(GetTemp(env, position, t, arguments[0]).value.temps.pushed);
    var pc := ParameterCount(env);
    var part := CallPart(env, signature, env.frame.functions[signature], callResult, arguments);
    HandleReturnNeverChecks(env.frame.functions[signature].returnType, callResult, env);
    PushAliveNeverChecks(pc, AliveAt(env, position));
    PopAliveNeverChecks(pc, AliveAt(env, position), ResultHardware(env, callResult));
  }

  lemma HandleReturnNeverChecks(returnType: TypeId, callResult: Option<RegisterMir>, env: Env)
    requires callResult.Some? ==> Mapped(env, callResult.value)
    ensures callResult.Some? ==> !HasNullCheck(CallingConventions.HandleReturnCode(returnType, Location(env, callResult.value)))
  {
  }

  lemma {:induction false} PushAliveNeverChecks(parameterCount: nat, alive: seq<(Liveness.Register, HardwareRegister)>)
    ensures !HasNullCheck(IrHelpers.PushAliveCode(parameterCount, alive))
    decreases |alive|
  {
    if |alive| > 0 {
      PushAliveNeverChecks(parameterCount, alive[..|alive| - 1]);
    }
  }

  lemma {:induction false} PopAliveNeverChecks(parameterCount: nat, alive: seq<(Liveness.Register, HardwareRegister)>, destination: Option<HardwareRegister>)
    ensures !HasNullCheck(IrHelpers.PopAliveCode(parameterCount, alive, destination))
    decreases |alive|
  {
    if |alive| > 0 {
      PopAliveNeverChecks(parameterCount, alive[..|alive| - 1], destination);
    }
  }

  // ---------------------------------------------------------------------------------------------
  // The compiler object.

  /** `AllocatedInstructionIRCompiler`: the translation's inputs and the instructions emitted so far. */
  class InstructionIRCompiler {
    const env: Env
    const compilationResult: MirCompiler.MirCompilationResult
    const buffer: InstructionBuffer

    /** `new`: no instructions yet. */
    constructor (env: Env, compilationResult: MirCompiler.MirCompilationResult)
      ensures this.env == env && this.compilationResult == compilationResult
      ensures fresh(buffer) && buffer.instructions == []
    {
      this.env := env;
      this.compilationResult := compilationResult;
      buffer := new InstructionBuffer();
    }

    /** `compile_initialize_function`. */
    method CompileInitializeFunction()
      modifies buffer
      ensures buffer.instructions == old(buffer.instructions) + PrologueCode(env, compilationResult.needZeroInitializeRegisters)
    {
      ghost var start := buffer.instructions;
      buffer.Append([InitializeFunction]);
      if env.frame.stackSize > 0 {
        buffer.Append([SubFromStackPointer(env.frame.stackSize)]);
      }
      assert buffer.instructions == start + FrameCompiler.HeaderCode(env.frame);
      var _ := CallingConventions.MoveArgumentsToStack(env.frame.declaration.parameters, buffer);
      CompileZeroing(compilationResult.needZeroInitializeRegisters);
      AppendAssociates(start, FrameCompiler.HeaderCode(env.frame), CallingConventions.ArgumentsToFrameCode(env.frame.declaration.parameters, 0));
      AppendAssociates(start, FrameCompiler.HeaderCode(env.frame) + CallingConventions.ArgumentsToFrameCode(env.frame.declaration.parameters, 0),
                       ZeroingFrom(env, compilationResult.needZeroInitializeRegisters, false, false));
    }

    /** The zeroing loop of the prologue, with a flag per spill register telling whether it already holds zero. */
    method CompileZeroing(needZero: seq<RegisterMir>)
      modifies buffer
      ensures buffer.instructions == old(buffer.instructions) + ZeroingFrom(env, needZero, false, false)
    {
      ghost var start := buffer.instructions;
      var intInitialized, floatInitialized := false, false;
      for k := 0 to |needZero|
        invariant start + ZeroingFrom(env, needZero, false, false)
                  == buffer.instructions + ZeroingFrom(env, needZero[k..], intInitialized, floatInitialized)
      {
        var r := needZero[k];
        assert needZero[k..][1..] == needZero[k + 1..];
        if Mapped(env, r) {
          ghost var before := buffer.instructions;
          ghost var head := ZeroingHead(env, r, intInitialized, floatInitialized);
          var spill := SpillFor(r.valueType);
          if r.valueType == Float32 {
            if !floatInitialized {
              buffer.Append([LoadZeroToRegister(FloatSpill)]);
              floatInitialized := true;
            }
          } else {
            if !intInitialized {
              buffer.Append([LoadZeroToRegister(IntSpill)]);
              intInitialized := true;
            }
          }
          match HardwareOf(env, r) {
            case Some(h) => buffer.Append([InstructionIR.Move(h, spill)]);
            case None => buffer.Append([StoreFrameMemory(Slot(env, r), spill)]);
          }
          assert buffer.instructions == before + head;
          AppendAssociates(before, head, ZeroingFrom(env, needZero[k + 1..], intInitialized, floatInitialized));
        }
      }
      assert buffer.instructions + [] == buffer.instructions;
    }

    /** `Call`: the alive registers saved, the call with its argument sources, the result taken, the registers reloaded. */
    method CompileCall(position: nat, signature: Signature, callResult: Option<RegisterMir>, arguments: seq<RegisterMir>) returns (ok: bool)
      requires AllMapped(env, arguments) && (callResult.Some? ==> Mapped(env, callResult.value))
      modifies buffer
      ensures ok <==> CallCode(env, position, signature, callResult, arguments).Some?
      ensures ok ==> buffer.instructions == old(buffer.instructions) + CallCode(env, position, signature, callResult, arguments).value
    {
      if signature !in env.frame.functions {
        return false;
      }
      var callee := env.frame.functions[signature];
      ghost var start := buffer.instructions;
      IrHelpers.PushAliveRegisters(ParameterCount(env), AliveAt(env, position), buffer);
      ghost var pushed := buffer.instructions;
      CompileCallPart(env, signature, callee, callResult, arguments, buffer);
      IrHelpers.PopAliveRegisters(ParameterCount(env), AliveAt(env, position), ResultHardware(env, callResult), buffer);
      SavedAround(env, start, pushed, CallPart(env, signature, callee, callResult, arguments), buffer.instructions, position, ResultHardware(env, callResult));
      ok := true;
    }

    /** `CallInstance`: as `Call`, with the instance checked against null after the save when it may be null. */
    method CompileCallInstance(position: nat, signature: Signature, callResult: Option<RegisterMir>, arguments: seq<RegisterMir>) returns (ok: bool)
      requires AllMapped(env, arguments) && (callResult.Some? ==> Mapped(env, callResult.value))
      modifies buffer
      ensures ok <==> CallInstanceCode(env, position, signature, callResult, arguments).Some?
      ensures ok ==> buffer.instructions == old(buffer.instructions) + CallInstanceCode(env, position, signature, callResult, arguments).value
    {
      if signature !in env.frame.functions || |arguments| == 0 {
        return false;
      }
      var canBeNull := FrameCompiler.CanBeNull(env.frame, position, arguments[0]);
      if canBeNull.None? {
        return false;
      }
      var check := if canBeNull.value then InstanceCheckCode(env, position, arguments[0]) else Some([]);
      if check.None? {
        return false;
      }
      var callee := env.frame.functions[signature];
      ghost var start := buffer.instructions;
      IrHelpers.PushAliveRegisters(ParameterCount(env), AliveAt(env, position), buffer);
      ghost var pushed := buffer.instructions;
      buffer.Append(check.value);
      CompileCallPart(env, signature, callee, callResult, arguments, buffer);
      AppendAssociates(pushed, check.value, CallPart(env, signature, callee, callResult, arguments));
      IrHelpers.PopAliveRegisters(ParameterCount(env), AliveAt(env, position), ResultHardware(env, callResult), buffer);
      SavedAround(env, start, pushed, check.value + CallPart(env, signature, callee, callResult, arguments), buffer.instructions,
                  position, ResultHardware(env, callResult));
      ok := true;
    }

    /** The match of `compile_instruction` after the marker. */
    method CompileBody(position: nat, d: MirData) returns (ok: bool)
      modifies buffer
      ensures ok <==> Body(env, position, d).Some?
      ensures ok ==> buffer.instructions == old(buffer.instructions) + Body(env, position, d).value
    {
      if !AllMapped(env, d.Registers()) {
        return false;
      }
      if d.Call? {
        assert AllMapped(env, d.arguments);
        ok := CompileCall(position, d.signature, d.callResult, d.arguments);
      } else if d.CallInstance? {
        assert AllMapped(env, d.arguments);
        ok := CompileCallInstance(position, d.signature, d.callResult, d.arguments);
      } else {
        var code := Lowered(env, position, d);
        if code.None? {
          return false;
        }
        buffer.Append(code.value);
        ok := true;
      }
    }

    /** `compile_instruction`: `true` iff the instruction does not panic, and then its code is appended. */
    method CompileInstruction(position: nat, instruction: InstructionMir) returns (ok: bool)
      modifies buffer
      ensures ok <==> InstructionCode(env, position, instruction).Some?
      ensures ok ==> buffer.instructions == old(buffer.instructions) + InstructionCode(env, position, instruction).value
    {
      ghost var start := buffer.instructions;
      buffer.Append([Marker(instruction.index, position)]);
      ok := CompileBody(position, instruction.data);
      if ok {
        AppendAssociates(start, [Marker(instruction.index, position)], Body(env, position, instruction.data).value);
      }
    }

    /** `compile`: `true` iff no instruction panics, and then the code is the prologue and every instruction's code. */
    method Compile() returns (ok: bool)
      modifies buffer
      ensures ok <==> Compiled(env, compilationResult).Some?
      ensures ok ==> buffer.instructions == old(buffer.instructions) + Compiled(env, compilationResult).value
    {
      ghost var start := buffer.instructions;
      CompileInitializeFunction();
      ok := CompileInstructions();
      if ok {
        AppendAssociates(start, PrologueCode(env, compilationResult.needZeroInitializeRegisters),
                         InstructionsCode(env, compilationResult.instructions, |compilationResult.instructions|).value);
      }
    }

    /** The loop of `compile` over the instructions. */
    method CompileInstructions() returns (ok: bool)
      modifies buffer
      ensures ok <==> InstructionsCode(env, compilationResult.instructions, |compilationResult.instructions|).Some?
      ensures ok ==> buffer.instructions == old(buffer.instructions) + InstructionsCode(env, compilationResult.instructions, |compilationResult.instructions|).value
    {
      ghost var start := buffer.instructions;
      var instructions := compilationResult.instructions;
      ghost var codes := Codes(env, instructions);
      for position := 0 to |instructions|
        invariant Joined(codes, position).Some?
        invariant buffer.instructions == start + Joined(codes, position).value
      {
        ok := CompileNext(instructions, codes, position, start);
        if !ok {
          return;
        }
      }
      ok := true;
    }

    /** One turn of the loop: instruction `position` extends the code, or its panic ends the compilation. */
    method CompileNext(instructions: seq<InstructionMir>, ghost codes: seq<Option<seq<InstructionIR>>>, position: nat, ghost start: seq<InstructionIR>)
      returns (ok: bool)
      requires codes == Codes(env, instructions)
      requires position < |instructions| && Joined(codes, position).Some?
      requires buffer.instructions == start + Joined(codes, position).value
      modifies buffer
      ensures ok ==> Joined(codes, position + 1).Some?
      ensures ok ==> buffer.instructions == start + Joined(codes, position + 1).value
      ensures !ok ==> Joined(codes, |instructions|).None?
    {
      ok := CompileInstruction(position, instructions[position]);
      assert codes[position] == InstructionCode(env, position, instructions[position]);
      if !ok {
        JoinedStopsAtNone(codes, position + 1, |instructions|);
        return;
      }
      JoinedGrows(codes, position);
      AppendAssociates(start, Joined(codes, position).value, codes[position].value);
    }

    /** `done`. */
    function Done(): (code: seq<InstructionIR>)
      reads buffer
      ensures code == buffer.instructions
    {
      buffer.instructions
    }
  }

  /** `get_call_argument_sources`: the arguments from the last to the first, with the call registers claimed so far, then reversed. */
  method CallArgumentSources(env: Env, callee: Declaration, arguments: seq<RegisterMir>) returns (sources: seq<Variable>)
    requires AllMapped(env, arguments)
    ensures sources == ArgumentSources(env, callee, arguments)
  {
    var variables: seq<Variable> := [];
    var overwritten: set<MachineRegister> := {};
    var index := |arguments|;
    while index > 0
      invariant 0 <= index <= |arguments|
      invariant overwritten == Claimed(callee, arguments, index)
      invariant |variables| == |arguments| - index
      invariant forall j :: 0 <= j < |variables| ==> variables[j] == ArgumentSource(env, callee, arguments, |arguments| - 1 - j)
    {
      index := index - 1;
      var argument := arguments[index];
      var source: Variable;
      match HardwareOf(env, argument) {
        case Some(h) =>
          if h in env.registerMapping && env.registerMapping[h] in overwritten {
            source := FrameMemory(Slot(env, argument));
          } else {
            source := Register(h);
          }
        case None =>
          source := FrameMemory(Slot(env, argument));
      }
      variables := variables + [source];
      match CallingConventions.GetCallRegister(callee.parameters, index, argument.valueType) {
        case Some(m) => overwritten := overwritten + {m};
        case None =>
      }
    }
    sources := seq(|variables|, k requires 0 <= k < |variables| => variables[|variables| - 1 - k]);
  }

  /** The call with its argument sources, and the result, if kept, taken from the return register. */
  method CompileCallPart(env: Env, signature: Signature, callee: Declaration, callResult: Option<RegisterMir>, arguments: seq<RegisterMir>,
                         buffer: InstructionBuffer)
    requires AllMapped(env, arguments) && (callResult.Some? ==> Mapped(env, callResult.value))
    modifies buffer
    ensures buffer.instructions == old(buffer.instructions) + CallPart(env, signature, callee, callResult, arguments)
  {
    ghost var start := buffer.instructions;
    var sources := CallArgumentSources(env, callee, arguments);
    buffer.Append([InstructionIR.Call(signature, sources, 0)]);
    ghost var called := buffer.instructions;
    if callResult.Some? {
      CallingConventions.HandleReturnValue(callee.returnType, Location(env, callResult.value), buffer);
    }
    AppendAssociates(start, [InstructionIR.Call(signature, sources, 0)], buffer.instructions[|called|..]);
  }

  /** The three parts of a saved call laid end to end. */
  lemma SavedAround(env: Env, start: seq<InstructionIR>, pushed: seq<InstructionIR>, middle: seq<InstructionIR>, done: seq<InstructionIR>,
                    position: nat, destination: Option<HardwareRegister>)
    requires pushed == start + IrHelpers.PushAliveCode(ParameterCount(env), AliveAt(env, position))
    requires done == pushed + middle + IrHelpers.PopAliveCode(ParameterCount(env), AliveAt(env, position), destination)
    ensures done == start + AroundCall(env, position, middle, destination)
  {
  }

  /** Compiling with a fresh compiler gives `Compiled`. */
  method CompileFunction(env: Env, compilationResult: MirCompiler.MirCompilationResult) returns (code: Option<seq<InstructionIR>>)
    ensures code == Compiled(env, compilationResult)
  {
    var compiler := new InstructionIRCompiler(env, compilationResult);
    var ok := compiler.Compile();
    assert ok ==> compiler.buffer.instructions == Compiled(env, compilationResult).value;
    code := if ok then Some(compiler.Done()) else None;
  }
}
