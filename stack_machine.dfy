/**
 * The machine the stack-based IRs are given a meaning on: the registers the IR names, the machine
 * registers of the calling convention, the frame's memory slots (by offset from the frame base)
 * and the operand stack that pushes and pops work on, top last. Values are unbounded integers; the
 * 32-bit arithmetic of the IRs wraps explicitly. A register or slot never written reads as zero.
 */
module StackMachines {
  import opened Scalars
  import CompilerIr

  type MachineRegister = CompilerIr.MachineRegister

  datatype StackMachine<R(==,!new)> = StackMachine(
    registers: map<R, int>,
    explicit: map<MachineRegister, int>,
    memory: map<int, int>,
    operands: seq<int>)
  {
    function Register(r: R): int { if r in registers then registers[r] else 0 }
    function Explicit(e: MachineRegister): int { if e in explicit then explicit[e] else 0 }
    function Memory(offset: int): int { if offset in memory then memory[offset] else 0 }

    function SetRegister(r: R, v: int): (m: StackMachine<R>)
      ensures m.Register(r) == v && m.operands == operands && m.memory == memory && m.explicit == explicit
    {
      this.(registers := registers[r := v])
    }

    function SetExplicit(e: MachineRegister, v: int): (m: StackMachine<R>)
      ensures m.Explicit(e) == v && m.operands == operands && m.memory == memory && m.registers == registers
    {
      this.(explicit := explicit[e := v])
    }

    function SetMemory(offset: int, v: int): (m: StackMachine<R>)
      ensures m.Memory(offset) == v && m.operands == operands && m.registers == registers && m.explicit == explicit
    {
      this.(memory := memory[offset := v])
    }

    function Push(v: int): (m: StackMachine<R>)
      ensures m.operands == operands + [v] && m.registers == registers && m.memory == memory && m.explicit == explicit
    {
      this.(operands := operands + [v])
    }

    /** The top of the operand stack, removed. */
    function Dropped(): (m: StackMachine<R>)
      requires |operands| > 0
      ensures m.operands == operands[..|operands| - 1] && m.registers == registers && m.memory == memory && m.explicit == explicit
    {
      this.(operands := operands[..|operands| - 1])
    }

    function Top(): int
      requires |operands| > 0
    {
      operands[|operands| - 1]
    }
  }
}
