/**
 * `RegisterAllocation`: the result of the linear-scan allocator keyed by virtual register. An
 * interval with a register becomes a hardware register of its class; a spilled one lives on the
 * stack. Spilled intervals are entered after the assigned ones, so a register with both is on the
 * stack. The counts of the two kinds add up to the number of registers, and the hardware
 * registers alive at an instruction are those whose interval covers it; after a sound
 * allocation, two of them are never the same hardware register.
 */
module RegisterAllocations {
  import opened Wrappers
  import opened TypeIds
  import opened Liveness
  import opened CompilerIr
  import LinearScan

  datatype AllocatedRegister = Hardware(register: HardwareRegister, liveInterval: LiveInterval) | Stack(liveInterval: LiveInterval)
  {
    /** `hardware_register`. */
    function HardwareRegisterOf(): (r: Option<HardwareRegister>)
      ensures r.Some? <==> Hardware?
      ensures r.Some? ==> r.value == register
    {
      if Hardware? then Some(register) else None
    }
  }

  /** A register number of the allocator as a hardware register of the interval's class: float only for `Float32`. */
  function HardwareFor(interval: LiveInterval, number: nat): (h: HardwareRegister)
    ensures h.Float? <==> interval.register.valueType == Float32
    ensures h.Int? <==> interval.register.valueType != Float32
    ensures h.index == number
  {
    if interval.register.valueType == Float32 then Float(number) else Int(number)
  }

  /** The virtual registers of a set of intervals. */
  function RegistersOf(intervals: set<LiveInterval>): set<Register> {
    set x | x in intervals :: x.register
  }

  function SpilledRegisters(spilled: seq<LiveInterval>): set<Register> {
    set x | x in spilled :: x.register
  }

  /** Whether an interval covers an instruction index, both ends included. */
  predicate Covers(interval: LiveInterval, index: nat) {
    interval.start <= index <= interval.end
  }

  /**
   * What `new` builds from the assigned and the spilled intervals: one entry per register of either,
   * each holding an interval of its own register; a register of a spilled interval is on the stack
   * with such an interval, and any other holds the hardware register the allocator gave one of its
   * intervals.
   */
  ghost predicate Built(registers: map<Register, AllocatedRegister>, granted: map<LiveInterval, nat>, spilled: seq<LiveInterval>) {
    && registers.Keys == RegistersOf(granted.Keys) + SpilledRegisters(spilled)
    && (forall r :: r in registers ==> registers[r].liveInterval.register == r)
    && (forall r :: r in registers ==> (registers[r].Stack? <==> r in SpilledRegisters(spilled)))
    && (forall r :: r in registers && registers[r].Stack? ==> registers[r].liveInterval in spilled)
    && (forall r :: r in registers && registers[r].Hardware? ==>
          registers[r].liveInterval in granted &&
          registers[r].register == HardwareFor(registers[r].liveInterval, granted[registers[r].liveInterval]))
  }

  /** The hardware entries after the assigned intervals in `done` are entered. */
  ghost predicate HardwareEntered(registers: map<Register, AllocatedRegister>, granted: map<LiveInterval, nat>, done: set<LiveInterval>)
    requires done <= granted.Keys
  {
    && registers.Keys == RegistersOf(done)
    && (forall r :: r in registers ==> registers[r].Hardware? && registers[r].liveInterval in done)
    && (forall r :: r in registers ==> registers[r].liveInterval.register == r)
    && (forall r :: r in registers ==>
          registers[r].register == HardwareFor(registers[r].liveInterval, granted[registers[r].liveInterval]))
  }

  class RegisterAllocation {
    var registers: map<Register, AllocatedRegister>

    /** Every entry holds an interval of its own register. */
    ghost predicate Valid()
      reads this
    {
      forall r :: r in registers ==> registers[r].liveInterval.register == r
    }

    /** `new`: the assigned intervals in the map's order, then the spilled ones in order. */
    constructor (granted: map<LiveInterval, nat>, spilled: seq<LiveInterval>)
      ensures Valid() && Built(registers, granted, spilled)
    {
      var entries: map<Register, AllocatedRegister> := map[];
      var remaining := granted.Keys;
      while remaining != {}
        invariant remaining <= granted.Keys
        invariant HardwareEntered(entries, granted, granted.Keys - remaining)
        decreases |remaining|
      {
        var x :| x in remaining;
        entries := entries[x.register := Hardware(HardwareFor(x, granted[x]), x)];
        remaining := remaining - {x};
      }
      assert granted.Keys - remaining == granted.Keys;
      for i := 0 to |spilled|
        invariant entries.Keys == RegistersOf(granted.Keys) + SpilledRegisters(spilled[..i])
        invariant forall r :: r in entries ==> entries[r].liveInterval.register == r
        invariant forall r :: r in entries ==> (entries[r].Stack? <==> r in SpilledRegisters(spilled[..i]))
        invariant forall r :: r in entries && entries[r].Stack? ==> entries[r].liveInterval in spilled[..i]
        invariant forall r :: r in entries && entries[r].Hardware? ==>
          entries[r].liveInterval in granted &&
          entries[r].register == HardwareFor(entries[r].liveInterval, granted[entries[r].liveInterval])
      {
        assert spilled[..i + 1] == spilled[..i] + [spilled[i]];
        entries := entries[spilled[i].register := Stack(spilled[i])];
      }
      assert spilled[..|spilled|] == spilled;
      registers := entries;
    }

    /** The registers that got a hardware register. */
    ghost function AllocatedKeys(): set<Register>
      reads this
    {
      set r | r in registers && registers[r].Hardware?
    }

    /** The registers that live on the stack. */
    ghost function SpilledKeys(): set<Register>
      reads this
    {
      set r | r in registers && registers[r].Stack?
    }

    /** `num_allocated_registers`: the entries with a hardware register. */
    function NumAllocated(): (n: nat)
      reads this
      ensures n == |AllocatedKeys()|
    {
      |set r | r in registers && registers[r].Hardware?|
    }

    /** `num_spilled_registers`: the entries on the stack. */
    function NumSpilled(): (n: nat)
      reads this
      ensures n == |SpilledKeys()|
    {
      |set r | r in registers && registers[r].Stack?|
    }

    /** Every entry is counted by exactly one of the two counts. */
    lemma CountsAddUp()
      ensures NumAllocated() + NumSpilled() == |registers|
    {
      assert AllocatedKeys() + SpilledKeys() == registers.Keys;
      assert AllocatedKeys() * SpilledKeys() == {};
    }

    /** `get_register`; `None` is the panic of an unmapped register. */
    function GetRegister(register: Register): (a: Option<AllocatedRegister>)
      reads this
      requires Valid()
      ensures a.Some? <==> register in registers
      ensures a.Some? ==> a.value.liveInterval.register == register
    {
      if register in registers then Some(registers[register]) else None
    }

    /** The registers whose hardware register is alive at an instruction. */
    ghost function AliveKeys(index: nat): set<Register>
      reads this
    {
      set r | r in registers && registers[r].Hardware? && Covers(registers[r].liveInterval, index)
    }

    /**
     * `alive_registers_at`: in the map's order, the hardware register of every entry whose
     * interval covers the index, one per such entry.
     */
    method AliveRegistersAt(index: nat) returns (alive: seq<HardwareRegister>)
      ensures |alive| == |AliveKeys(index)|
      ensures forall h :: h in alive <==> exists r :: r in AliveKeys(index) && registers[r].register == h
    {
      alive := [];
      var remaining := registers.Keys;
      ghost var seen: set<Register> := {};
      while remaining != {}
        invariant remaining <= registers.Keys && seen == AliveKeys(index) - remaining
        invariant |alive| == |seen|
        invariant forall h :: h in alive <==> exists r :: r in seen && registers[r].register == h
        decreases |remaining|
      {
        var r :| r in remaining;
        var entry := registers[r];
        if entry.Hardware? && Covers(entry.liveInterval, index) {
          assert r !in seen;
          alive := alive + [entry.register];
          seen := seen + {r};
        }
        remaining := remaining - {r};
        assert seen == AliveKeys(index) - remaining;
      }
      assert seen == AliveKeys(index);
    }
  }

  /**
   * After a sound allocation, two registers alive at the same instruction never hold the same
   * hardware register: their intervals overlap, so the allocator kept them apart by class or by
   * register number.
   */
  lemma AliveApart(registers: map<Register, AllocatedRegister>, granted: map<LiveInterval, nat>, spilled: seq<LiveInterval>,
                   index: nat, r1: Register, r2: Register)
    requires Built(registers, granted, spilled) && LinearScan.NoOverlap(granted)
    requires r1 in registers && r2 in registers && r1 != r2
    requires registers[r1].Hardware? && Covers(registers[r1].liveInterval, index)
    requires registers[r2].Hardware? && Covers(registers[r2].liveInterval, index)
    ensures registers[r1].register != registers[r2].register
  {
    var x1, x2 := registers[r1].liveInterval, registers[r2].liveInterval;
    assert x1.register == r1 && x2.register == r2;
  }

  /** The hardware registers the allocator gives: a register's entry is on the stack exactly when one of its intervals was spilled. */
  lemma SpilledWins(registers: map<Register, AllocatedRegister>, granted: map<LiveInterval, nat>, spilled: seq<LiveInterval>, x: LiveInterval)
    requires Built(registers, granted, spilled)
    requires x in spilled
    ensures x.register in registers && registers[x.register].Stack?
  {
    assert x.register in SpilledRegisters(spilled);
  }

  /** An assigned interval whose register was never spilled keeps a hardware register of its class. */
  lemma AssignedIsHardware(registers: map<Register, AllocatedRegister>, granted: map<LiveInterval, nat>, spilled: seq<LiveInterval>, x: LiveInterval)
    requires Built(registers, granted, spilled)
    requires x in granted && x.register !in SpilledRegisters(spilled)
    ensures x.register in registers && registers[x.register].Hardware?
    ensures registers[x.register].register.Float? <==> x.register.valueType == Float32
  {
    assert x.register in RegistersOf(granted.Keys);
  }
}
