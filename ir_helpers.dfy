/**
 * The helpers the allocated IR compiler lowers MIR instructions with. Every virtual register is
 * either in its allocated hardware register or in its own frame slot; the helpers move values
 * between those locations, save and restore the registers alive across a call, and emit binary
 * operations, going through the spill register of the operation's class where an instruction form
 * is missing.
 *
 * The operation a binary helper is handed (a closure per operand form in the source) is an
 * arbitrary function `f` here: `RunWith` runs code in which every arithmetic instruction
 * combines its two operands with `f`. Each binary helper is proved to leave `f(op1, op2)` in the
 * destination's location and to change nothing else but the spill register, whatever `f` is.
 */
module IrHelpers {
  import opened Wrappers
  import opened Scalars
  import opened Liveness
  import opened CompilerIr
  import opened StackLayout
  import opened RegisterAllocations

  type Allocation = map<Register, AllocatedRegister>

  /**
   * `virtual_register_stack_offset`: the frame slot of a virtual register, below the arguments.
   * The stack layout of this revision (`stack_layout.rs`) does not define it; the slots follow
   * the argument slots one entry apart, as the locals' slots do.
   */
  function VirtualRegisterStackOffset(parameterCount: nat, number: nat): (offset: int)
    ensures offset < 0 && offset % StackEntrySize == 0
    ensures parameterCount == 0 || offset < ArgumentStackOffset(parameterCount - 1)
  {
    (StackOffset + parameterCount + number) * -StackEntrySize
  }

  /** Distinct virtual registers never share a frame slot. */
  lemma VirtualSlotsApart(parameterCount: nat, a: nat, b: nat)
    requires a != b
    ensures VirtualRegisterStackOffset(parameterCount, a) != VirtualRegisterStackOffset(parameterCount, b)
  {
  }

  function Slot(parameterCount: nat, r: Register): int {
    VirtualRegisterStackOffset(parameterCount, r.number)
  }

  /** Where a virtual register's value lives: its hardware register, or its frame slot. */
  function Location(parameterCount: nat, registers: Allocation, r: Register): (v: Variable)
    requires r in registers
    ensures v.Register? <==> registers[r].Hardware?
    ensures v.Register? ==> v.register == registers[r].register
    ensures v.FrameMemory? ==> v.offset == Slot(parameterCount, r)
  {
    match registers[r]
    case Hardware(h, _) => Register(h)
    case Stack(_) => FrameMemory(Slot(parameterCount, r))
  }

  /** The allocation hands out only numbered registers, never a spill register. */
  predicate SpillFree(registers: Allocation) {
    forall r :: r in registers && registers[r].Hardware? ==> registers[r].register.Int? || registers[r].register.Float?
  }

  /** What the register allocation builds is spill-free. */
  lemma BuiltIsSpillFree(registers: Allocation, granted: map<LiveInterval, nat>, spilled: seq<LiveInterval>)
    requires Built(registers, granted, spilled)
    ensures SpillFree(registers)
  {
  }

  /** Writing one location changes no other location's value. */
  lemma WriteValue(m: Machine, v: Variable, x: int, w: Variable)
    ensures m.Write(v, x).Value(w) == if w == v then x else m.Value(w)
  {
  }

  // Code with arithmetic

  /** What an arithmetic instruction combines: the location it updates and its second operand. */
  datatype Combination = Combination(into: Variable, second: Operand2)
  datatype Operand2 = FromLocation(location: Variable) | Immediate(value: int)

  /** The combination an arithmetic instruction performs; `None` for every other instruction. */
  function Arithmetic(i: InstructionIR): Option<Combination> {
    match i
    case AddInt32(d, s) => Some(Combination(Register(d), FromLocation(Register(s))))
    case SubInt32(d, s) => Some(Combination(Register(d), FromLocation(Register(s))))
    case AndInt32(d, s) => Some(Combination(Register(d), FromLocation(Register(s))))
    case OrInt32(d, s) => Some(Combination(Register(d), FromLocation(Register(s))))
    case MultiplyInt32(d, s) => Some(Combination(Register(d), FromLocation(Register(s))))
    case AddFloat32(d, s) => Some(Combination(Register(d), FromLocation(Register(s))))
    case SubFloat32(d, s) => Some(Combination(Register(d), FromLocation(Register(s))))
    case MultiplyFloat32(d, s) => Some(Combination(Register(d), FromLocation(Register(s))))
    case DivideFloat32(d, s) => Some(Combination(Register(d), FromLocation(Register(s))))
    case AddInt32FromFrameMemory(d, offset) => Some(Combination(Register(d), FromLocation(FrameMemory(offset))))
    case SubInt32FromFrameMemory(d, offset) => Some(Combination(Register(d), FromLocation(FrameMemory(offset))))
    case AndInt32FromFrameMemory(d, offset) => Some(Combination(Register(d), FromLocation(FrameMemory(offset))))
    case OrInt32FromFrameMemory(d, offset) => Some(Combination(Register(d), FromLocation(FrameMemory(offset))))
    case MultiplyInt32FromFrameMemory(d, offset) => Some(Combination(Register(d), FromLocation(FrameMemory(offset))))
    case AddFloat32FromFrameMemory(d, offset) => Some(Combination(Register(d), FromLocation(FrameMemory(offset))))
    case SubFloat32FromFrameMemory(d, offset) => Some(Combination(Register(d), FromLocation(FrameMemory(offset))))
    case MultiplyFloat32FromFrameMemory(d, offset) => Some(Combination(Register(d), FromLocation(FrameMemory(offset))))
    case DivideFloat32FromFrameMemory(d, offset) => Some(Combination(Register(d), FromLocation(FrameMemory(offset))))
    case AddInt32ToFrameMemory(offset, s) => Some(Combination(FrameMemory(offset), FromLocation(Register(s))))
    case SubInt32ToFrameMemory(offset, s) => Some(Combination(FrameMemory(offset), FromLocation(Register(s))))
    case AndInt32ToFrameMemory(offset, s) => Some(Combination(FrameMemory(offset), FromLocation(Register(s))))
    case OrInt32ToFrameMemory(offset, s) => Some(Combination(FrameMemory(offset), FromLocation(Register(s))))
    case AddInt32Constant(d, value) => Some(Combination(Register(d), Immediate(value)))
    case SubInt32Constant(d, value) => Some(Combination(Register(d), Immediate(value)))
    case AndInt32Constant(d, value) => Some(Combination(Register(d), Immediate(value)))
    case OrInt32Constant(d, value) => Some(Combination(Register(d), Immediate(value)))
    case AddInt32ConstantToFrameMemory(offset, value) => Some(Combination(FrameMemory(offset), Immediate(value)))
    case SubInt32ConstantToFrameMemory(offset, value) => Some(Combination(FrameMemory(offset), Immediate(value)))
    case AndInt32ConstantToFrameMemory(offset, value) => Some(Combination(FrameMemory(offset), Immediate(value)))
    case OrInt32ConstantToFrameMemory(offset, value) => Some(Combination(FrameMemory(offset), Immediate(value)))
    case _ => None
  }

  function SecondValue(m: Machine, second: Operand2): int {
    match second
    case FromLocation(v) => m.Value(v)
    case Immediate(value) => value
  }

  /** One instruction, the arithmetic ones combining their first operand with their second by `f` into the first. */
  function EffectWith(m: Machine, i: InstructionIR, f: (int, int) -> int): Option<Machine> {
    match Arithmetic(i)
    case Some(c) => Some(m.Write(c.into, f(m.Value(c.into), SecondValue(m, c.second))))
    case None => Effect(m, i)
  }

  function RunWith(m: Machine, code: seq<InstructionIR>, f: (int, int) -> int): Option<Machine>
    decreases |code|
  {
    if |code| == 0 then Some(m)
    else match EffectWith(m, code[0], f)
      case None => None
      case Some(next) => RunWith(next, code[1..], f)
  }

  lemma {:induction false} RunWithAppend(m: Machine, a: seq<InstructionIR>, b: seq<InstructionIR>, f: (int, int) -> int)
    ensures RunWith(m, a + b, f) == match RunWith(m, a, f) case None => None case Some(n) => RunWith(n, b, f)
    decreases |a|
  {
    if |a| > 0 {
      assert (a + b)[0] == a[0] && (a + b)[1..] == a[1..] + b;
      match EffectWith(m, a[0], f)
      case None =>
      case Some(next) => RunWithAppend(next, a[1..], b, f);
    } else {
      assert a + b == b;
    }
  }

  /** One instruction run alone. */
  lemma RunWithOne(m: Machine, i: InstructionIR, f: (int, int) -> int)
    ensures RunWith(m, [i], f) == EffectWith(m, i, f)
  {
    assert [i][1..] == [];
  }

  /** Two instructions, one after the other. */
  lemma RunWithTwo(m: Machine, i: InstructionIR, j: InstructionIR, f: (int, int) -> int)
    ensures RunWith(m, [i, j], f) == match EffectWith(m, i, f) case None => None case Some(n) => EffectWith(n, j, f)
  {
    assert [i, j] == [i] + [j];
    RunWithAppend(m, [i], [j], f);
    RunWithOne(m, i, f);
    match EffectWith(m, i, f)
    case None =>
    case Some(n) => RunWithOne(n, j, f);
  }

  /** Three instructions, one after the other. */
  lemma RunWithThree(m: Machine, i: InstructionIR, j: InstructionIR, k: InstructionIR, f: (int, int) -> int)
    ensures RunWith(m, [i, j, k], f) ==
      match EffectWith(m, i, f) case None => None case Some(n) => RunWith(n, [j, k], f)
  {
    assert [i, j, k] == [i] + [j, k];
    RunWithAppend(m, [i], [j, k], f);
    RunWithOne(m, i, f);
  }

  /** Writing a location leaves every other location as it was. */
  lemma WriteElsewhere(m: Machine, v: Variable, x: int)
    ensures forall w :: w != v ==> m.Write(v, x).Value(w) == m.Value(w)
  {
  }

  // Saving and restoring the registers alive across a call

  /** `push_alive_registers`' code: each alive register stored to its virtual register's slot, in list order. */
  function PushAliveCode(parameterCount: nat, alive: seq<(Register, HardwareRegister)>): seq<InstructionIR> {
    if |alive| == 0 then []
    else
      var last := alive[|alive| - 1];
      PushAliveCode(parameterCount, alive[..|alive| - 1]) + [StoreFrameMemory(Slot(parameterCount, last.0), last.1)]
  }

  /** The reload of one alive register, left out for the register receiving the result. */
  function PopPiece(parameterCount: nat, entry: (Register, HardwareRegister), destination: Option<HardwareRegister>): seq<InstructionIR> {
    if destination == Some(entry.1) then [] else [LoadFrameMemory(entry.1, Slot(parameterCount, entry.0))]
  }

  /** `pop_alive_registers`' code: reloads in reverse order, except into the register that receives the result. */
  function PopAliveCode(parameterCount: nat, alive: seq<(Register, HardwareRegister)>, destination: Option<HardwareRegister>): seq<InstructionIR> {
    if |alive| == 0 then []
    else PopPiece(parameterCount, alive[|alive| - 1], destination) + PopAliveCode(parameterCount, alive[..|alive| - 1], destination)
  }

  lemma PopAliveSplit(parameterCount: nat, alive: seq<(Register, HardwareRegister)>, k: nat, destination: Option<HardwareRegister>)
    requires 0 < k <= |alive|
    ensures PopAliveCode(parameterCount, alive[..k], destination) ==
      PopPiece(parameterCount, alive[k - 1], destination) + PopAliveCode(parameterCount, alive[..k - 1], destination)
  {
    assert alive[..k][..k - 1] == alive[..k - 1];
  }

  /** `push_alive_registers` (with the alive registers given). */
  method PushAliveRegisters(parameterCount: nat, alive: seq<(Register, HardwareRegister)>, buffer: InstructionBuffer)
    modifies buffer
    ensures buffer.instructions == old(buffer.instructions) + PushAliveCode(parameterCount, alive)
  {
    for k := 0 to |alive|
      invariant buffer.instructions == old(buffer.instructions) + PushAliveCode(parameterCount, alive[..k])
    {
      assert alive[..k + 1][..k] == alive[..k];
      buffer.Append([StoreFrameMemory(Slot(parameterCount, alive[k].0), alive[k].1)]);
    }
    assert alive[..|alive|] == alive;
  }

  /** `pop_alive_registers`. */
  method PopAliveRegisters(parameterCount: nat, alive: seq<(Register, HardwareRegister)>, destination: Option<HardwareRegister>, buffer: InstructionBuffer)
    modifies buffer
    ensures buffer.instructions == old(buffer.instructions) + PopAliveCode(parameterCount, alive, destination)
  {
    var k := |alive|;
    assert alive[..k] == alive;
    while k > 0
      invariant 0 <= k <= |alive|
      invariant buffer.instructions + PopAliveCode(parameterCount, alive[..k], destination) ==
        old(buffer.instructions) + PopAliveCode(parameterCount, alive, destination)
    {
      PopAliveSplit(parameterCount, alive, k, destination);
      buffer.Append(PopPiece(parameterCount, alive[k - 1], destination));
      k := k - 1;
    }
  }

  predicate DistinctVirtual(alive: seq<(Register, HardwareRegister)>) {
    forall i, j :: 0 <= i < j < |alive| ==> alive[i].0.number != alive[j].0.number
  }

  predicate DistinctHardware(alive: seq<(Register, HardwareRegister)>) {
    forall i, j :: 0 <= i < j < |alive| ==> alive[i].1 != alive[j].1
  }

  /** Saving stores every alive register's value in its virtual register's slot and touches nothing else but the frame. */
  lemma {:induction false} SavedInSlots(m: Machine, parameterCount: nat, alive: seq<(Register, HardwareRegister)>) returns (saved: Machine)
    requires DistinctVirtual(alive)
    ensures Run(m, PushAliveCode(parameterCount, alive)) == Some(saved)
    ensures forall k :: 0 <= k < |alive| ==> saved.FrameValue(Slot(parameterCount, alive[k].0)) == m.HardwareValue(alive[k].1)
    ensures saved.hardware == m.hardware && saved.explicit == m.explicit && saved.stack == m.stack
    decreases |alive|
  {
    if |alive| == 0 {
      saved := m;
    } else {
      var front := alive[..|alive| - 1];
      var last := alive[|alive| - 1];
      var middle := SavedInSlots(m, parameterCount, front);
      var store := [StoreFrameMemory(Slot(parameterCount, last.0), last.1)];
      RunAppend(m, PushAliveCode(parameterCount, front), store);
      saved := middle.Write(FrameMemory(Slot(parameterCount, last.0)), middle.HardwareValue(last.1));
      assert Run(middle, store) == Some(saved) by {
        assert store[1..] == [];
      }
      forall k | 0 <= k < |alive|
        ensures saved.FrameValue(Slot(parameterCount, alive[k].0)) == m.HardwareValue(alive[k].1)
      {
        if k < |alive| - 1 {
          assert front[k] == alive[k];
          VirtualSlotsApart(parameterCount, alive[k].0.number, last.0.number);
        }
      }
    }
  }

  /**
   * Restoring reloads every alive register from its slot except the one receiving the result,
   * which keeps its value, and touches nothing else but the hardware registers.
   */
  lemma {:induction false} RestoredFromSlots(m: Machine, parameterCount: nat, alive: seq<(Register, HardwareRegister)>, destination: Option<HardwareRegister>)
    returns (restored: Machine)
    requires DistinctHardware(alive)
    ensures Run(m, PopAliveCode(parameterCount, alive, destination)) == Some(restored)
    ensures forall k :: 0 <= k < |alive| && destination != Some(alive[k].1) ==>
      restored.HardwareValue(alive[k].1) == m.FrameValue(Slot(parameterCount, alive[k].0))
    ensures destination.Some? ==> restored.HardwareValue(destination.value) == m.HardwareValue(destination.value)
    ensures restored.frame == m.frame && restored.explicit == m.explicit && restored.stack == m.stack
    decreases |alive|
  {
    if |alive| == 0 {
      restored := m;
    } else {
      var front := alive[..|alive| - 1];
      var last := alive[|alive| - 1];
      var load := PopPiece(parameterCount, last, destination);
      var first := if destination == Some(last.1) then m else m.Write(Register(last.1), m.FrameValue(Slot(parameterCount, last.0)));
      assert Run(m, load) == Some(first) by {
        if load != [] {
          assert load[1..] == [];
        }
      }
      RunAppend(m, load, PopAliveCode(parameterCount, front, destination));
      assert DistinctHardware(front) by {
        forall i, j | 0 <= i < j < |front| ensures front[i].1 != front[j].1 {
          assert front[i] == alive[i] && front[j] == alive[j];
        }
      }
      restored := RestoredFromSlots(first, parameterCount, front, destination);
      forall k | 0 <= k < |alive| && destination != Some(alive[k].1)
        ensures restored.HardwareValue(alive[k].1) == m.FrameValue(Slot(parameterCount, alive[k].0))
      {
        if k < |alive| - 1 {
          assert front[k] == alive[k];
        } else {
          assert forall i :: 0 <= i < |front| ==> front[i].1 != last.1 by {
            forall i | 0 <= i < |front| ensures front[i].1 != last.1 {
              assert front[i] == alive[i];
            }
          }
          RestoredMissing(first, parameterCount, front, destination, last.1);
        }
      }
    }
  }

  /** Restoring leaves a register no entry names as it was. */
  lemma {:induction false} RestoredMissing(m: Machine, parameterCount: nat, alive: seq<(Register, HardwareRegister)>, destination: Option<HardwareRegister>,
                                           untouched: HardwareRegister)
    requires forall i :: 0 <= i < |alive| ==> alive[i].1 != untouched
    ensures Run(m, PopAliveCode(parameterCount, alive, destination)).Some?
    ensures Run(m, PopAliveCode(parameterCount, alive, destination)).value.HardwareValue(untouched) == m.HardwareValue(untouched)
    decreases |alive|
  {
    if |alive| > 0 {
      var front := alive[..|alive| - 1];
      var last := alive[|alive| - 1];
      var load := PopPiece(parameterCount, last, destination);
      var first := if destination == Some(last.1) then m else m.Write(Register(last.1), m.FrameValue(Slot(parameterCount, last.0)));
      assert Run(m, load) == Some(first) by {
        if load != [] {
          assert load[1..] == [];
        }
      }
      RunAppend(m, load, PopAliveCode(parameterCount, front, destination));
      assert forall i :: 0 <= i < |front| ==> front[i] == alive[i];
      RestoredMissing(first, parameterCount, front, destination, untouched);
    }
  }

  /**
   * Around a call: whatever the call does to the registers, if it leaves the save slots alone, every
   * alive register except the one receiving the result holds its value from before the save.
   */
  lemma AliveSurviveCall(m: Machine, called: Machine, parameterCount: nat, alive: seq<(Register, HardwareRegister)>, destination: Option<HardwareRegister>)
    returns (restored: Machine)
    requires DistinctVirtual(alive) && DistinctHardware(alive)
    requires Run(m, PushAliveCode(parameterCount, alive)).Some?
    requires forall k :: 0 <= k < |alive| ==>
      called.FrameValue(Slot(parameterCount, alive[k].0)) == Run(m, PushAliveCode(parameterCount, alive)).value.FrameValue(Slot(parameterCount, alive[k].0))
    ensures Run(called, PopAliveCode(parameterCount, alive, destination)) == Some(restored)
    ensures forall k :: 0 <= k < |alive| && destination != Some(alive[k].1) ==> restored.HardwareValue(alive[k].1) == m.HardwareValue(alive[k].1)
  {
    var saved := SavedInSlots(m, parameterCount, alive);
    restored := RestoredFromSlots(called, parameterCount, alive, destination);
  }

  /** `push_if_alive`'s code: a stack operand's register is saved if alive, then loaded from the operand's slot. */
  function PushIfAliveCode(parameterCount: nat, alive: seq<HardwareRegister>, operand: Register, register: HardwareRegister, isStack: bool): seq<InstructionIR> {
    (if isStack && register in alive then [Push(register)] else [])
      + (if isStack then [LoadFrameMemory(register, Slot(parameterCount, operand))] else [])
  }

  /** `push_if_alive`: returns whether it pushed. */
  method PushIfAlive(parameterCount: nat, alive: seq<HardwareRegister>, operand: Register, register: HardwareRegister, isStack: bool, buffer: InstructionBuffer)
    returns (pushed: bool)
    modifies buffer
    ensures pushed <==> isStack && register in alive
    ensures buffer.instructions == old(buffer.instructions) + PushIfAliveCode(parameterCount, alive, operand, register, isStack)
  {
    if isStack && register in alive {
      buffer.Append([Push(register)]);
      pushed := true;
    } else {
      pushed := false;
    }
    if isStack {
      buffer.Append([LoadFrameMemory(register, Slot(parameterCount, operand))]);
    }
  }

  /** A stack operand ends up in the register, whose old value is pushed exactly when it was alive. */
  lemma PushIfAliveLoads(m: Machine, parameterCount: nat, alive: seq<HardwareRegister>, operand: Register, register: HardwareRegister, isStack: bool)
    ensures var code := PushIfAliveCode(parameterCount, alive, operand, register, isStack);
      var pushed := if isStack && register in alive then [m.HardwareValue(register)] else [];
      Run(m, code).Some? &&
      Run(m, code).value.stack == m.stack + pushed &&
      (isStack ==> Run(m, code).value.HardwareValue(register) == m.FrameValue(Slot(parameterCount, operand))) &&
      (!isStack ==> Run(m, code).value == m)
  {
    var load := if isStack then [LoadFrameMemory(register, Slot(parameterCount, operand))] else [];
    var push := if isStack && register in alive then [Push(register)] else [];
    var afterPush := if isStack && register in alive then m.(stack := m.stack + [m.HardwareValue(register)]) else m;
    assert Run(m, push) == Some(afterPush) by {
      if push != [] {
        assert push[1..] == [];
      }
    }
    if load != [] {
      assert load[1..] == [];
    }
    RunAppend(m, push, load);
  }

  // Moves between virtual registers and hardware registers

  /** `move_register`'s code. */
  function MoveRegisterCode(parameterCount: nat, registers: Allocation, destination: Register, source: Register): seq<InstructionIR>
    requires destination in registers && source in registers
  {
    match (registers[destination], registers[source])
    case (Hardware(d, _), Hardware(s, _)) => [Move(d, s)]
    case (Hardware(d, _), Stack(_)) => [LoadFrameMemory(d, Slot(parameterCount, source))]
    case (Stack(_), Hardware(s, _)) => [StoreFrameMemory(Slot(parameterCount, destination), s)]
    case (Stack(_), Stack(_)) =>
      [LoadFrameMemory(IntSpill, Slot(parameterCount, source)), StoreFrameMemory(Slot(parameterCount, destination), IntSpill)]
  }

  /** `move_from_hardware_register`'s code. */
  function MoveFromHardwareCode(parameterCount: nat, registers: Allocation, destination: Register, source: HardwareRegister): seq<InstructionIR>
    requires destination in registers
  {
    match registers[destination].HardwareRegisterOf()
    case Some(d) => [Move(d, source)]
    case None => [StoreFrameMemory(Slot(parameterCount, destination), source)]
  }

  /** `move_to_hardware_register`'s code. */
  function MoveToHardwareCode(parameterCount: nat, registers: Allocation, destination: HardwareRegister, source: Register): seq<InstructionIR>
    requires source in registers
  {
    match registers[source].HardwareRegisterOf()
    case Some(s) => [Move(destination, s)]
    case None => [LoadFrameMemory(destination, Slot(parameterCount, source))]
  }

  method MoveRegister(parameterCount: nat, registers: Allocation, destination: Register, source: Register, buffer: InstructionBuffer)
    requires destination in registers && source in registers
    modifies buffer
    ensures buffer.instructions == old(buffer.instructions) + MoveRegisterCode(parameterCount, registers, destination, source)
  {
    match (registers[destination], registers[source])
    case (Hardware(d, _), Hardware(s, _)) => buffer.Append([Move(d, s)]);
    case (Hardware(d, _), Stack(_)) => buffer.Append([LoadFrameMemory(d, Slot(parameterCount, source))]);
    case (Stack(_), Hardware(s, _)) => buffer.Append([StoreFrameMemory(Slot(parameterCount, destination), s)]);
    case (Stack(_), Stack(_)) =>
      buffer.Append([LoadFrameMemory(IntSpill, Slot(parameterCount, source))]);
      buffer.Append([StoreFrameMemory(Slot(parameterCount, destination), IntSpill)]);
  }

  method MoveFromHardwareRegister(parameterCount: nat, registers: Allocation, destination: Register, source: HardwareRegister, buffer: InstructionBuffer)
    requires destination in registers
    modifies buffer
    ensures buffer.instructions == old(buffer.instructions) + MoveFromHardwareCode(parameterCount, registers, destination, source)
  {
    match registers[destination].HardwareRegisterOf()
    case Some(d) => buffer.Append([Move(d, source)]);
    case None => buffer.Append([StoreFrameMemory(Slot(parameterCount, destination), source)]);
  }

  method MoveToHardwareRegister(parameterCount: nat, registers: Allocation, destination: HardwareRegister, source: Register, buffer: InstructionBuffer)
    requires source in registers
    modifies buffer
    ensures buffer.instructions == old(buffer.instructions) + MoveToHardwareCode(parameterCount, registers, destination, source)
  {
    match registers[source].HardwareRegisterOf()
    case Some(s) => buffer.Append([Move(destination, s)]);
    case None => buffer.Append([LoadFrameMemory(destination, Slot(parameterCount, source))]);
  }

  /**
   * `move_register` copies the source's value to the destination's location and changes nothing
   * else; only a stack-to-stack copy also leaves the value in the integer spill register.
   */
  lemma MoveRegisterMoves(m: Machine, parameterCount: nat, registers: Allocation, destination: Register, source: Register, f: (int, int) -> int)
    returns (after: Machine)
    requires destination in registers && source in registers
    ensures RunWith(m, MoveRegisterCode(parameterCount, registers, destination, source), f) == Some(after)
    ensures after.Value(Location(parameterCount, registers, destination)) == m.Value(Location(parameterCount, registers, source))
    ensures forall v :: v != Location(parameterCount, registers, destination) && v != Register(IntSpill) ==> after.Value(v) == m.Value(v)
  {
    var from := Location(parameterCount, registers, source);
    var to := Location(parameterCount, registers, destination);
    var x := m.Value(from);
    match (registers[destination], registers[source])
    case (Hardware(d, _), Hardware(s, _)) =>
      RunWithOne(m, Move(d, s), f);
      after := m.Write(to, x);
      WriteElsewhere(m, to, x);
    case (Hardware(d, _), Stack(_)) =>
      RunWithOne(m, LoadFrameMemory(d, Slot(parameterCount, source)), f);
      after := m.Write(to, x);
      WriteElsewhere(m, to, x);
    case (Stack(_), Hardware(s, _)) =>
      RunWithOne(m, StoreFrameMemory(Slot(parameterCount, destination), s), f);
      after := m.Write(to, x);
      WriteElsewhere(m, to, x);
    case (Stack(_), Stack(_)) =>
      var carried := m.Write(Register(IntSpill), x);
      RunWithTwo(m, LoadFrameMemory(IntSpill, Slot(parameterCount, source)), StoreFrameMemory(Slot(parameterCount, destination), IntSpill), f);
      after := carried.Write(to, x);
      WriteElsewhere(m, Register(IntSpill), x);
      WriteElsewhere(carried, to, x);
  }

  /** `move_from_hardware_register` writes the hardware register's value to the virtual register's location and changes nothing else. */
  lemma MoveFromHardwareMoves(m: Machine, parameterCount: nat, registers: Allocation, destination: Register, source: HardwareRegister, f: (int, int) -> int)
    requires destination in registers
    ensures RunWith(m, MoveFromHardwareCode(parameterCount, registers, destination, source), f) ==
      Some(m.Write(Location(parameterCount, registers, destination), m.HardwareValue(source)))
  {
    assert MoveFromHardwareCode(parameterCount, registers, destination, source)[1..] == [];
  }

  /** `move_to_hardware_register` writes the virtual register's value to the hardware register and changes nothing else. */
  lemma MoveToHardwareMoves(m: Machine, parameterCount: nat, registers: Allocation, destination: HardwareRegister, source: Register, f: (int, int) -> int)
    requires source in registers
    ensures RunWith(m, MoveToHardwareCode(parameterCount, registers, destination, source), f) ==
      Some(m.Write(Register(destination), m.Value(Location(parameterCount, registers, source))))
  {
    assert MoveToHardwareCode(parameterCount, registers, destination, source)[1..] == [];
  }

  // Binary operations

  /** The operations handed to the binary helpers, one per MIR arithmetic or logic instruction. */
  datatype BinaryOperator =
    | AddInt32Op | SubInt32Op | AndInt32Op | OrInt32Op | MultiplyInt32Op
    | AddFloat32Op | SubFloat32Op | MultiplyFloat32Op | DivideFloat32Op
  {
    /** The operations with a form that combines into a frame slot. */
    predicate StoresToMemory() { AddInt32Op? || SubInt32Op? || AndInt32Op? || OrInt32Op? }
  }

  /** The register-register form (`reg_reg`). */
  function RegReg(op: BinaryOperator, d: HardwareRegister, s: HardwareRegister): (i: InstructionIR)
    ensures Arithmetic(i) == Some(Combination(Register(d), FromLocation(Register(s))))
  {
    match op
    case AddInt32Op => AddInt32(d, s)
    case SubInt32Op => SubInt32(d, s)
    case AndInt32Op => AndInt32(d, s)
    case OrInt32Op => OrInt32(d, s)
    case MultiplyInt32Op => MultiplyInt32(d, s)
    case AddFloat32Op => AddFloat32(d, s)
    case SubFloat32Op => SubFloat32(d, s)
    case MultiplyFloat32Op => MultiplyFloat32(d, s)
    case DivideFloat32Op => DivideFloat32(d, s)
  }

  /** The register-memory form (`reg_mem`). */
  function RegMem(op: BinaryOperator, d: HardwareRegister, offset: int): (i: InstructionIR)
    ensures Arithmetic(i) == Some(Combination(Register(d), FromLocation(FrameMemory(offset))))
  {
    match op
    case AddInt32Op => AddInt32FromFrameMemory(d, offset)
    case SubInt32Op => SubInt32FromFrameMemory(d, offset)
    case AndInt32Op => AndInt32FromFrameMemory(d, offset)
    case OrInt32Op => OrInt32FromFrameMemory(d, offset)
    case MultiplyInt32Op => MultiplyInt32FromFrameMemory(d, offset)
    case AddFloat32Op => AddFloat32FromFrameMemory(d, offset)
    case SubFloat32Op => SubFloat32FromFrameMemory(d, offset)
    case MultiplyFloat32Op => MultiplyFloat32FromFrameMemory(d, offset)
    case DivideFloat32Op => DivideFloat32FromFrameMemory(d, offset)
  }

  /** The memory-register form (`mem_reg`). */
  function MemReg(op: BinaryOperator, offset: int, s: HardwareRegister): (i: InstructionIR)
    requires op.StoresToMemory()
    ensures Arithmetic(i) == Some(Combination(FrameMemory(offset), FromLocation(Register(s))))
  {
    match op
    case AddInt32Op => AddInt32ToFrameMemory(offset, s)
    case SubInt32Op => SubInt32ToFrameMemory(offset, s)
    case AndInt32Op => AndInt32ToFrameMemory(offset, s)
    case OrInt32Op => OrInt32ToFrameMemory(offset, s)
  }

  /** An operand as the helpers see it: its hardware register if it has one, and its frame slot. */
  datatype Operand = Operand(register: Option<HardwareRegister>, offset: int)

  function OperandOf(parameterCount: nat, registers: Allocation, r: Register): Operand
    requires r in registers
  {
    Operand(registers[r].HardwareRegisterOf(), Slot(parameterCount, r))
  }

  /** Where an operand's value is read from and its result written to. */
  function OperandLocation(o: Operand): Variable {
    if o.register.Some? then Register(o.register.value) else FrameMemory(o.offset)
  }

  lemma OperandAtLocation(parameterCount: nat, registers: Allocation, r: Register)
    requires r in registers
    ensures OperandLocation(OperandOf(parameterCount, registers, r)) == Location(parameterCount, registers, r)
  {
  }

  /** `binary_operator_internal`'s code: both memory operands go through the integer spill register. */
  function BinaryInternalCode(op: BinaryOperator, operand1: Operand, operand2: Operand): seq<InstructionIR>
    requires op.StoresToMemory()
  {
    match (operand1.register, operand2.register)
    case (Some(r1), Some(r2)) => [RegReg(op, r1, r2)]
    case (Some(r1), None) => [RegMem(op, r1, operand2.offset)]
    case (None, Some(r2)) => [MemReg(op, operand1.offset, r2)]
    case (None, None) => [LoadFrameMemory(IntSpill, operand2.offset), MemReg(op, operand1.offset, IntSpill)]
  }

  /**
   * `binary_operator_no_memory_store_internal` and `binary_operator_internal_f32`, which differ only
   * in the spill register: a memory first operand is loaded into it, combined, and stored back.
   */
  function NoMemoryStoreInternalCode(op: BinaryOperator, operand1: Operand, operand2: Operand, spill: HardwareRegister): seq<InstructionIR> {
    match (operand1.register, operand2.register)
    case (Some(r1), Some(r2)) => [RegReg(op, r1, r2)]
    case (Some(r1), None) => [RegMem(op, r1, operand2.offset)]
    case (None, Some(r2)) => [LoadFrameMemory(spill, operand1.offset), RegReg(op, spill, r2), StoreFrameMemory(operand1.offset, spill)]
    case (None, None) => [LoadFrameMemory(spill, operand1.offset), RegMem(op, spill, operand2.offset), StoreFrameMemory(operand1.offset, spill)]
  }

  /** The value of an operand. */
  function OperandValue(m: Machine, o: Operand): int {
    m.Value(OperandLocation(o))
  }

  /** `binary_operator_internal` combines the operands into the first one and changes nothing else but the integer spill register. */
  lemma BinaryInternalComputes(m: Machine, op: BinaryOperator, operand1: Operand, operand2: Operand, f: (int, int) -> int)
    returns (after: Machine)
    requires op.StoresToMemory()
    ensures RunWith(m, BinaryInternalCode(op, operand1, operand2), f) == Some(after)
    ensures after.Value(OperandLocation(operand1)) == f(OperandValue(m, operand1), OperandValue(m, operand2))
    ensures forall v :: v != OperandLocation(operand1) && v != Register(IntSpill) ==> after.Value(v) == m.Value(v)
  {
    var a, b := OperandValue(m, operand1), OperandValue(m, operand2);
    var to := OperandLocation(operand1);
    match (operand1.register, operand2.register)
    case (Some(r1), Some(r2)) =>
      RunWithOne(m, RegReg(op, r1, r2), f);
      after := m.Write(to, f(a, b));
      WriteElsewhere(m, to, f(a, b));
    case (Some(r1), None) =>
      RunWithOne(m, RegMem(op, r1, operand2.offset), f);
      after := m.Write(to, f(a, b));
      WriteElsewhere(m, to, f(a, b));
    case (None, Some(r2)) =>
      RunWithOne(m, MemReg(op, operand1.offset, r2), f);
      after := m.Write(to, f(a, b));
      WriteElsewhere(m, to, f(a, b));
    case (None, None) =>
      var carried := m.Write(Register(IntSpill), b);
      RunWithTwo(m, LoadFrameMemory(IntSpill, operand2.offset), MemReg(op, operand1.offset, IntSpill), f);
      WriteElsewhere(m, Register(IntSpill), b);
      after := carried.Write(to, f(a, b));
      WriteElsewhere(carried, to, f(a, b));
  }

  /**
   * `binary_operator_no_memory_store_internal` / `binary_operator_internal_f32` combine the
   * operands into the first one and change nothing else but the spill register.
   */
  lemma NoMemoryStoreInternalComputes(m: Machine, op: BinaryOperator, operand1: Operand, operand2: Operand, spill: HardwareRegister, f: (int, int) -> int)
    returns (after: Machine)
    requires operand2.register != Some(spill)
    ensures RunWith(m, NoMemoryStoreInternalCode(op, operand1, operand2, spill), f) == Some(after)
    ensures after.Value(OperandLocation(operand1)) == f(OperandValue(m, operand1), OperandValue(m, operand2))
    ensures forall v :: v != OperandLocation(operand1) && v != Register(spill) ==> after.Value(v) == m.Value(v)
  {
    var a, b := OperandValue(m, operand1), OperandValue(m, operand2);
    var to := OperandLocation(operand1);
    match (operand1.register, operand2.register)
    case (Some(r1), Some(r2)) =>
      RunWithOne(m, RegReg(op, r1, r2), f);
      after := m.Write(to, f(a, b));
      WriteElsewhere(m, to, f(a, b));
    case (Some(r1), None) =>
      RunWithOne(m, RegMem(op, r1, operand2.offset), f);
      after := m.Write(to, f(a, b));
      WriteElsewhere(m, to, f(a, b));
    case (None, Some(r2)) =>
      var loaded := m.Write(Register(spill), a);
      WriteElsewhere(m, Register(spill), a);
      var combined := loaded.Write(Register(spill), f(a, b));
      WriteElsewhere(loaded, Register(spill), f(a, b));
      RunWithThree(m, LoadFrameMemory(spill, operand1.offset), RegReg(op, spill, r2), StoreFrameMemory(operand1.offset, spill), f);
      RunWithTwo(loaded, RegReg(op, spill, r2), StoreFrameMemory(operand1.offset, spill), f);
      after := combined.Write(to, f(a, b));
      WriteElsewhere(combined, to, f(a, b));
    case (None, None) =>
      var loaded := m.Write(Register(spill), a);
      WriteElsewhere(m, Register(spill), a);
      var combined := loaded.Write(Register(spill), f(a, b));
      WriteElsewhere(loaded, Register(spill), f(a, b));
      RunWithThree(m, LoadFrameMemory(spill, operand1.offset), RegMem(op, spill, operand2.offset), StoreFrameMemory(operand1.offset, spill), f);
      RunWithTwo(loaded, RegMem(op, spill, operand2.offset), StoreFrameMemory(operand1.offset, spill), f);
      after := combined.Write(to, f(a, b));
      WriteElsewhere(combined, to, f(a, b));
  }

  /**
   * `binary_operator_with_destination`'s code: in place when the destination is the first
   * operand, otherwise through the integer spill register.
   */
  function BinaryWithDestinationCode(parameterCount: nat, registers: Allocation, op: BinaryOperator,
                                     destination: Register, operand1: Register, operand2: Register): seq<InstructionIR>
    requires op.StoresToMemory() && destination in registers && operand1 in registers && operand2 in registers
  {
    if destination == operand1 then
      BinaryInternalCode(op, OperandOf(parameterCount, registers, destination), OperandOf(parameterCount, registers, operand2))
    else
      MoveToHardwareCode(parameterCount, registers, IntSpill, operand1)
        + BinaryInternalCode(op, Operand(Some(IntSpill), 0), OperandOf(parameterCount, registers, operand2))
        + MoveFromHardwareCode(parameterCount, registers, destination, IntSpill)
  }

  /**
   * `binary_operator_no_memory_store_with_destination` (`spill` = `IntSpill`) and
   * `binary_operator_with_destination_f32` (`spill` = `FloatSpill`).
   */
  function NoMemoryStoreWithDestinationCode(parameterCount: nat, registers: Allocation, op: BinaryOperator,
                                            destination: Register, operand1: Register, operand2: Register, spill: HardwareRegister): seq<InstructionIR>
    requires destination in registers && operand1 in registers && operand2 in registers
  {
    if destination == operand1 then
      NoMemoryStoreInternalCode(op, OperandOf(parameterCount, registers, destination), OperandOf(parameterCount, registers, operand2), spill)
    else
      MoveToHardwareCode(parameterCount, registers, spill, operand1)
        + NoMemoryStoreInternalCode(op, Operand(Some(spill), 0), OperandOf(parameterCount, registers, operand2), spill)
        + MoveFromHardwareCode(parameterCount, registers, destination, spill)
  }

  /** `binary_operator`: in place on the first operand. */
  function BinaryCode(parameterCount: nat, registers: Allocation, op: BinaryOperator, operand1: Register, operand2: Register): seq<InstructionIR>
    requires op.StoresToMemory() && operand1 in registers && operand2 in registers
  {
    BinaryInternalCode(op, OperandOf(parameterCount, registers, operand1), OperandOf(parameterCount, registers, operand2))
  }

  /**
   * The through-the-spill-register shape: copy the first operand into the spill register, run
   * `middle`, which changes only the spill register, and copy the spill register out to the
   * destination. Nothing else changes but the spill register.
   */
  lemma ThroughSpill(m: Machine, parameterCount: nat, registers: Allocation, destination: Register, operand1: Register,
                     spill: HardwareRegister, middle: seq<InstructionIR>, combined: Machine, f: (int, int) -> int)
    returns (after: Machine)
    requires destination in registers && operand1 in registers
    requires RunWith(m.Write(Register(spill), m.Value(Location(parameterCount, registers, operand1))), middle, f) == Some(combined)
    requires forall v :: v != Register(spill) ==> combined.Value(v) == m.Value(v)
    ensures RunWith(m, MoveToHardwareCode(parameterCount, registers, spill, operand1) + middle + MoveFromHardwareCode(parameterCount, registers, destination, spill), f)
      == Some(after)
    ensures after.Value(Location(parameterCount, registers, destination)) == combined.HardwareValue(spill)
    ensures forall v :: v != Location(parameterCount, registers, destination) && v != Register(spill) ==> after.Value(v) == m.Value(v)
  {
    var load := MoveToHardwareCode(parameterCount, registers, spill, operand1);
    var store := MoveFromHardwareCode(parameterCount, registers, destination, spill);
    var to := Location(parameterCount, registers, destination);
    MoveToHardwareMoves(m, parameterCount, registers, spill, operand1, f);
    MoveFromHardwareMoves(combined, parameterCount, registers, destination, spill, f);
    RunWithAppend(m, load, middle, f);
    RunWithAppend(m, load + middle, store, f);
    after := combined.Write(to, combined.HardwareValue(spill));
    WriteElsewhere(combined, to, combined.HardwareValue(spill));
  }

  /**
   * `binary_operator_with_destination` leaves `f(op1, op2)` in the destination's location and
   * changes nothing else but the integer spill register.
   */
  lemma BinaryWithDestinationComputes(m: Machine, parameterCount: nat, registers: Allocation, op: BinaryOperator,
                                      destination: Register, operand1: Register, operand2: Register, f: (int, int) -> int)
    returns (after: Machine)
    requires op.StoresToMemory() && destination in registers && operand1 in registers && operand2 in registers && SpillFree(registers)
    ensures RunWith(m, BinaryWithDestinationCode(parameterCount, registers, op, destination, operand1, operand2), f) == Some(after)
    ensures after.Value(Location(parameterCount, registers, destination)) ==
      f(m.Value(Location(parameterCount, registers, operand1)), m.Value(Location(parameterCount, registers, operand2)))
    ensures forall v :: v != Location(parameterCount, registers, destination) && v != Register(IntSpill) ==> after.Value(v) == m.Value(v)
  {
    OperandAtLocation(parameterCount, registers, destination);
    OperandAtLocation(parameterCount, registers, operand2);
    var o2 := OperandOf(parameterCount, registers, operand2);
    if destination == operand1 {
      after := BinaryInternalComputes(m, op, OperandOf(parameterCount, registers, destination), o2, f);
    } else {
      var a := m.Value(Location(parameterCount, registers, operand1));
      var loaded := m.Write(Register(IntSpill), a);
      WriteElsewhere(m, Register(IntSpill), a);
      var combined := BinaryInternalComputes(loaded, op, Operand(Some(IntSpill), 0), o2, f);
      after := ThroughSpill(m, parameterCount, registers, destination, operand1, IntSpill,
        BinaryInternalCode(op, Operand(Some(IntSpill), 0), o2), combined, f);
    }
  }

  /**
   * `binary_operator_no_memory_store_with_destination` and `binary_operator_with_destination_f32`
   * leave `f(op1, op2)` in the destination's location and change nothing else but their spill register.
   */
  lemma NoMemoryStoreWithDestinationComputes(m: Machine, parameterCount: nat, registers: Allocation, op: BinaryOperator,
                                             destination: Register, operand1: Register, operand2: Register,
                                             spill: HardwareRegister, f: (int, int) -> int)
    returns (after: Machine)
    requires destination in registers && operand1 in registers && operand2 in registers && SpillFree(registers)
    requires spill == IntSpill || spill == FloatSpill
    ensures RunWith(m, NoMemoryStoreWithDestinationCode(parameterCount, registers, op, destination, operand1, operand2, spill), f) == Some(after)
    ensures after.Value(Location(parameterCount, registers, destination)) ==
      f(m.Value(Location(parameterCount, registers, operand1)), m.Value(Location(parameterCount, registers, operand2)))
    ensures forall v :: v != Location(parameterCount, registers, destination) && v != Register(spill) ==> after.Value(v) == m.Value(v)
  {
    OperandAtLocation(parameterCount, registers, destination);
    OperandAtLocation(parameterCount, registers, operand2);
    var o2 := OperandOf(parameterCount, registers, operand2);
    if destination == operand1 {
      after := NoMemoryStoreInternalComputes(m, op, OperandOf(parameterCount, registers, destination), o2, spill, f);
    } else {
      var a := m.Value(Location(parameterCount, registers, operand1));
      var loaded := m.Write(Register(spill), a);
      WriteElsewhere(m, Register(spill), a);
      var combined := NoMemoryStoreInternalComputes(loaded, op, Operand(Some(spill), 0), o2, spill, f);
      after := ThroughSpill(m, parameterCount, registers, destination, operand1, spill,
        NoMemoryStoreInternalCode(op, Operand(Some(spill), 0), o2, spill), combined, f);
    }
  }

  /** `binary_operator` leaves `f(op1, op2)` in the first operand's location and changes nothing else but the integer spill register. */
  lemma BinaryComputes(m: Machine, parameterCount: nat, registers: Allocation, op: BinaryOperator, operand1: Register, operand2: Register, f: (int, int) -> int)
    returns (after: Machine)
    requires op.StoresToMemory() && operand1 in registers && operand2 in registers
    ensures RunWith(m, BinaryCode(parameterCount, registers, op, operand1, operand2), f) == Some(after)
    ensures after.Value(Location(parameterCount, registers, operand1)) ==
      f(m.Value(Location(parameterCount, registers, operand1)), m.Value(Location(parameterCount, registers, operand2)))
    ensures forall v :: v != Location(parameterCount, registers, operand1) && v != Register(IntSpill) ==> after.Value(v) == m.Value(v)
  {
    OperandAtLocation(parameterCount, registers, operand1);
    OperandAtLocation(parameterCount, registers, operand2);
    after := BinaryInternalComputes(m, op, OperandOf(parameterCount, registers, operand1), OperandOf(parameterCount, registers, operand2), f);
  }

  method BinaryOperatorInternal(op: BinaryOperator, operand1: Operand, operand2: Operand, buffer: InstructionBuffer)
    requires op.StoresToMemory()
    modifies buffer
    ensures buffer.instructions == old(buffer.instructions) + BinaryInternalCode(op, operand1, operand2)
  {
    match (operand1.register, operand2.register)
    case (Some(r1), Some(r2)) => buffer.Append([RegReg(op, r1, r2)]);
    case (Some(r1), None) => buffer.Append([RegMem(op, r1, operand2.offset)]);
    case (None, Some(r2)) => buffer.Append([MemReg(op, operand1.offset, r2)]);
    case (None, None) =>
      buffer.Append([LoadFrameMemory(IntSpill, operand2.offset)]);
      buffer.Append([MemReg(op, operand1.offset, IntSpill)]);
  }

  method NoMemoryStoreInternal(op: BinaryOperator, operand1: Operand, operand2: Operand, spill: HardwareRegister, buffer: InstructionBuffer)
    modifies buffer
    ensures buffer.instructions == old(buffer.instructions) + NoMemoryStoreInternalCode(op, operand1, operand2, spill)
  {
    match (operand1.register, operand2.register)
    case (Some(r1), Some(r2)) => buffer.Append([RegReg(op, r1, r2)]);
    case (Some(r1), None) => buffer.Append([RegMem(op, r1, operand2.offset)]);
    case (None, Some(r2)) =>
      buffer.Append([LoadFrameMemory(spill, operand1.offset)]);
      buffer.Append([RegReg(op, spill, r2)]);
      buffer.Append([StoreFrameMemory(operand1.offset, spill)]);
    case (None, None) =>
      buffer.Append([LoadFrameMemory(spill, operand1.offset)]);
      buffer.Append([RegMem(op, spill, operand2.offset)]);
      buffer.Append([StoreFrameMemory(operand1.offset, spill)]);
  }

  /** `binary_operator_with_destination`. */
  method BinaryOperatorWithDestination(parameterCount: nat, registers: Allocation, op: BinaryOperator,
                                       destination: Register, operand1: Register, operand2: Register, buffer: InstructionBuffer)
    requires op.StoresToMemory() && destination in registers && operand1 in registers && operand2 in registers
    modifies buffer
    ensures buffer.instructions == old(buffer.instructions) + BinaryWithDestinationCode(parameterCount, registers, op, destination, operand1, operand2)
  {
    var o2 := OperandOf(parameterCount, registers, operand2);
    if destination == operand1 {
      BinaryOperatorInternal(op, OperandOf(parameterCount, registers, destination), o2, buffer);
    } else {
      MoveToHardwareRegister(parameterCount, registers, IntSpill, operand1, buffer);
      BinaryOperatorInternal(op, Operand(Some(IntSpill), 0), o2, buffer);
      MoveFromHardwareRegister(parameterCount, registers, destination, IntSpill, buffer);
    }
  }

  /** `binary_operator_no_memory_store_with_destination` (`IntSpill`) and `binary_operator_with_destination_f32` (`FloatSpill`). */
  method NoMemoryStoreWithDestination(parameterCount: nat, registers: Allocation, op: BinaryOperator,
                                      destination: Register, operand1: Register, operand2: Register, spill: HardwareRegister, buffer: InstructionBuffer)
    requires destination in registers && operand1 in registers && operand2 in registers
    modifies buffer
    ensures buffer.instructions == old(buffer.instructions) + NoMemoryStoreWithDestinationCode(parameterCount, registers, op, destination, operand1, operand2, spill)
  {
    var o2 := OperandOf(parameterCount, registers, operand2);
    if destination == operand1 {
      NoMemoryStoreInternal(op, OperandOf(parameterCount, registers, destination), o2, spill, buffer);
    } else {
      MoveToHardwareRegister(parameterCount, registers, spill, operand1, buffer);
      NoMemoryStoreInternal(op, Operand(Some(spill), 0), o2, spill, buffer);
      MoveFromHardwareRegister(parameterCount, registers, destination, spill, buffer);
    }
  }

  // Binary operations with a constant

  datatype ConstantOperator = AddConstant | SubConstant | AndConstant | OrConstant

  /** `reg_constant`. */
  function RegConst(op: ConstantOperator, d: HardwareRegister, value: I32): (i: InstructionIR)
    ensures Arithmetic(i) == Some(Combination(Register(d), Immediate(value)))
  {
    match op
    case AddConstant => AddInt32Constant(d, value)
    case SubConstant => SubInt32Constant(d, value)
    case AndConstant => AndInt32Constant(d, value)
    case OrConstant => OrInt32Constant(d, value)
  }

  /** `mem_constant`. */
  function MemConst(op: ConstantOperator, offset: int, value: I32): (i: InstructionIR)
    ensures Arithmetic(i) == Some(Combination(FrameMemory(offset), Immediate(value)))
  {
    match op
    case AddConstant => AddInt32ConstantToFrameMemory(offset, value)
    case SubConstant => SubInt32ConstantToFrameMemory(offset, value)
    case AndConstant => AndInt32ConstantToFrameMemory(offset, value)
    case OrConstant => OrInt32ConstantToFrameMemory(offset, value)
  }

  function ConstantHandleCode(op: ConstantOperator, operand1: Operand, value: I32): seq<InstructionIR> {
    match operand1.register
    case Some(r1) => [RegConst(op, r1, value)]
    case None => [MemConst(op, operand1.offset, value)]
  }

  /** `binary_operator_with_constant_and_destination`'s code. */
  function ConstantWithDestinationCode(parameterCount: nat, registers: Allocation, op: ConstantOperator,
                                       destination: Register, operand1: Register, value: I32): seq<InstructionIR>
    requires destination in registers && operand1 in registers
  {
    if destination == operand1 then ConstantHandleCode(op, OperandOf(parameterCount, registers, destination), value)
    else
      MoveToHardwareCode(parameterCount, registers, IntSpill, operand1)
        + ConstantHandleCode(op, Operand(Some(IntSpill), 0), value)
        + MoveFromHardwareCode(parameterCount, registers, destination, IntSpill)
  }

  method ConstantWithDestination(parameterCount: nat, registers: Allocation, op: ConstantOperator,
                                 destination: Register, operand1: Register, value: I32, buffer: InstructionBuffer)
    requires destination in registers && operand1 in registers
    modifies buffer
    ensures buffer.instructions == old(buffer.instructions) + ConstantWithDestinationCode(parameterCount, registers, op, destination, operand1, value)
  {
    if destination == operand1 {
      match registers[destination].HardwareRegisterOf()
      case Some(r1) => buffer.Append([RegConst(op, r1, value)]);
      case None => buffer.Append([MemConst(op, Slot(parameterCount, destination), value)]);
    } else {
      MoveToHardwareRegister(parameterCount, registers, IntSpill, operand1, buffer);
      buffer.Append([RegConst(op, IntSpill, value)]);
      MoveFromHardwareRegister(parameterCount, registers, destination, IntSpill, buffer);
    }
  }

  /**
   * `binary_operator_with_constant_and_destination` leaves `f(op1, value)` in the destination's
   * location and changes nothing else but the integer spill register.
   */
  lemma ConstantWithDestinationComputes(m: Machine, parameterCount: nat, registers: Allocation, op: ConstantOperator,
                                        destination: Register, operand1: Register, value: I32, f: (int, int) -> int)
    returns (after: Machine)
    requires destination in registers && operand1 in registers && SpillFree(registers)
    ensures RunWith(m, ConstantWithDestinationCode(parameterCount, registers, op, destination, operand1, value), f) == Some(after)
    ensures after.Value(Location(parameterCount, registers, destination)) == f(m.Value(Location(parameterCount, registers, operand1)), value)
    ensures forall v :: v != Location(parameterCount, registers, destination) && v != Register(IntSpill) ==> after.Value(v) == m.Value(v)
  {
    OperandAtLocation(parameterCount, registers, destination);
    var to := Location(parameterCount, registers, destination);
    var a := m.Value(Location(parameterCount, registers, operand1));
    if destination == operand1 {
      match registers[destination].HardwareRegisterOf() {
        case Some(r1) => RunWithOne(m, RegConst(op, r1, value), f);
        case None => RunWithOne(m, MemConst(op, Slot(parameterCount, destination), value), f);
      }
      after := m.Write(to, f(a, value));
      WriteElsewhere(m, to, f(a, value));
    } else {
      var loaded := m.Write(Register(IntSpill), a);
      WriteElsewhere(m, Register(IntSpill), a);
      var combined := loaded.Write(Register(IntSpill), f(a, value));
      WriteElsewhere(loaded, Register(IntSpill), f(a, value));
      RunWithOne(loaded, RegConst(op, IntSpill, value), f);
      after := ThroughSpill(m, parameterCount, registers, destination, operand1, IntSpill,
        ConstantHandleCode(op, Operand(Some(IntSpill), 0), value), combined, f);
    }
  }

  // Temporary registers

  /** The integer registers the helpers borrow as temporaries. */
  const TempPool: set<HardwareRegister> := {Int(3), Int(4), Int(5)}

  /** The largest free temporary in the derived register order (`iter().rev().next()`). */
  function LargestTemp(free: set<HardwareRegister>): (r: Option<HardwareRegister>)
    requires free <= TempPool
    ensures r.None? <==> free == {}
    ensures r.Some? ==> r.value in free && forall x :: x in free && x != r.value ==> HardwareLess(x, r.value)
  {
    if Int(5) in free then Some(Int(5))
    else if Int(4) in free then Some(Int(4))
    else if Int(3) in free then Some(Int(3))
    else None
  }

  /** `TempRegisters`: the free temporaries, borrowed only for operands without a hardware register. */
  class TempRegisters {
    const registers: Allocation
    var intRegisters: set<HardwareRegister>

    ghost predicate Valid()
      reads this
    {
      intRegisters <= TempPool
    }

    constructor (registers: Allocation)
      ensures Valid() && this.registers == registers && intRegisters == TempPool
    {
      this.registers := registers;
      intRegisters := TempPool;
    }

    /** `try_remove`: an operand already in a hardware register keeps that register out of the pool. */
    method TryRemove(register: Register)
      requires Valid() && register in registers
      modifies this
      ensures Valid()
      ensures registers[register].Hardware? ==> intRegisters == old(intRegisters) - {registers[register].register}
      ensures registers[register].Stack? ==> intRegisters == old(intRegisters)
    {
      match registers[register].HardwareRegisterOf()
      case Some(r) => intRegisters := intRegisters - {r};
      case None =>
    }

    /**
     * `get_register`: an operand's own hardware register, borrowing nothing; otherwise the largest
     * free temporary, which leaves the pool. `None` is the panic of an exhausted pool.
     */
    method GetRegister(register: Register) returns (result: Option<(bool, HardwareRegister)>)
      requires Valid() && register in registers
      modifies this
      ensures Valid() && intRegisters <= old(intRegisters)
      ensures registers[register].Hardware? ==> result == Some((false, registers[register].register)) && intRegisters == old(intRegisters)
      ensures registers[register].Stack? ==> (result.None? <==> old(intRegisters) == {})
      ensures registers[register].Stack? && result.Some? ==>
        && result.value.0
        && result.value.1 in old(intRegisters)
        && (forall x :: x in old(intRegisters) && x != result.value.1 ==> HardwareLess(x, result.value.1))
        && intRegisters == old(intRegisters) - {result.value.1}
    {
      match registers[register].HardwareRegisterOf()
      case Some(r) => result := Some((false, r));
      case None =>
        var largest := LargestTemp(intRegisters);
        if largest.Some? {
          intRegisters := intRegisters - {largest.value};
          result := Some((true, largest.value));
        } else {
          result := None;
        }
    }
  }

  /** Three spilled operands borrow `Int(5)`, `Int(4)` and `Int(3)` in that order; a fourth finds the pool exhausted. */
  method TempRegistersExhaust(registers: Allocation, a: Register, b: Register, c: Register, d: Register)
    returns (first: Option<(bool, HardwareRegister)>, second: Option<(bool, HardwareRegister)>,
             third: Option<(bool, HardwareRegister)>, fourth: Option<(bool, HardwareRegister)>)
    requires a in registers && b in registers && c in registers && d in registers
    requires registers[a].Stack? && registers[b].Stack? && registers[c].Stack? && registers[d].Stack?
    ensures first == Some((true, Int(5))) && second == Some((true, Int(4))) && third == Some((true, Int(3)))
    ensures fourth.None?
  {
    HardwareClassesOrdered(3, 4);
    HardwareClassesOrdered(4, 5);
    HardwareClassesOrdered(3, 5);
    var temps := new TempRegisters(registers);
    first := temps.GetRegister(a);
    assert temps.intRegisters == {Int(3), Int(4)};
    second := temps.GetRegister(b);
    assert temps.intRegisters == {Int(3)};
    third := temps.GetRegister(c);
    fourth := temps.GetRegister(d);
  }
}
