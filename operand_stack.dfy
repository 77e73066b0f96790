/**
 * The per-function compilation state of `src/compiler/mod.rs`: the calls left to patch once every
 * function has an address, and the tracker of the operand stack kept in the frame. The tracker
 * knows only how deep the stack is; each push or pop returns the one low-level instruction that
 * moves a value between a machine register and the slot of the current top.
 *
 * The file imports the instructions from the oldest IR module, but the instructions it builds
 * (`StoreMemoryExplicit`, `MoveInt32ToMemory`, `LoadMemoryExplicit`) are those of the low-level IR,
 * which is what the model uses.
 */
module OperandStacks {
  import opened Wrappers
  import opened Scalars
  import opened StackLayout
  import opened StackMachines
  import FunctionSignatures
  import ModelFunction
  import opened LowIr

  /** `FunctionCallType`: how a call site is patched. */
  datatype FunctionCallType = Relative | Absolute

  /** `UnresolvedFunctionCall`: a call at `callOffset` in the function's code, to `signature`. */
  datatype UnresolvedFunctionCall = UnresolvedFunctionCall(
    callType: FunctionCallType,
    callOffset: nat,
    signature: FunctionSignatures.FunctionSignature)

  /** The operand-stack slot of entry `index` of `owner`'s frame. */
  function OperandSlot(owner: ModelFunction.Function, index: nat): int
    reads owner
  {
    OperandStackOffset(|owner.definition.parameters|, |owner.locals|, index)
  }

  /** `OperandStack`: the index of the top entry, `None` when the stack is empty. */
  class OperandStack {
    var topIndex: Option<nat>

    /** The number of entries on the stack. */
    function Depth(): (depth: nat)
      reads this
      ensures depth == 0 <==> topIndex.None?
    {
      match topIndex
      case None => 0
      case Some(index) => index + 1
    }

    /** `new`: an empty stack. */
    constructor ()
      ensures topIndex.None? && Depth() == 0
    {
      topIndex := None;
    }

    /**
     * `push_register`: the stack grows by one, and the register is stored into the slot of the
     * new top, which is the slot just below the old top.
     */
    method PushRegister(owner: ModelFunction.Function, register: MachineRegister) returns (instruction: InstructionIR)
      modifies this
      ensures Depth() == old(Depth()) + 1 && topIndex == Some(old(Depth()))
      ensures instruction == StoreMemoryExplicit(OperandSlot(owner, old(Depth())), register)
    {
      topIndex := match topIndex case None => Some(0) case Some(index) => Some(index + 1);
      var stackFrameOffset := OperandStackOffset(|owner.definition.parameters|, |owner.locals|, topIndex.value);
      instruction := StoreMemoryExplicit(stackFrameOffset, register);
    }

    /** `push_i32`: as `push_register`, with a constant written into the new top's slot. */
    method PushI32(owner: ModelFunction.Function, value: I32) returns (instruction: InstructionIR)
      modifies this
      ensures Depth() == old(Depth()) + 1 && topIndex == Some(old(Depth()))
      ensures instruction == MoveInt32ToMemory(OperandSlot(owner, old(Depth())), value)
    {
      topIndex := match topIndex case None => Some(0) case Some(index) => Some(index + 1);
      var stackFrameOffset := OperandStackOffset(|owner.definition.parameters|, |owner.locals|, topIndex.value);
      instruction := MoveInt32ToMemory(stackFrameOffset, value);
    }

    /**
     * `pop_register`: the top's slot is loaded into the register and the stack shrinks by one;
     * popping the last entry leaves it empty. `None` is a pop of an empty stack (the `unwrap`
     * panic), which changes nothing.
     */
    method PopRegister(owner: ModelFunction.Function, register: MachineRegister) returns (instruction: Option<InstructionIR>)
      modifies this
      ensures instruction.None? <==> old(Depth()) == 0
      ensures instruction.None? ==> topIndex == old(topIndex)
      ensures instruction.Some? ==>
        && instruction.value == LoadMemoryExplicit(register, OperandSlot(owner, old(Depth()) - 1))
        && Depth() == old(Depth()) - 1
    {
      if topIndex.None? {
        return None;
      }
      var top := topIndex.value;
      var stackFrameOffset := OperandStackOffset(|owner.definition.parameters|, |owner.locals|, top);
      instruction := Some(LoadMemoryExplicit(register, stackFrameOffset));
      if top == 0 {
        topIndex := None;
      } else {
        topIndex := Some(top - 1);
      }
    }
  }

  /** `FunctionCompilationData`: no call to patch yet and an empty operand stack. */
  class FunctionCompilationData {
    var unresolvedFunctionCalls: seq<UnresolvedFunctionCall>
    const operandStack: OperandStack

    constructor ()
      ensures unresolvedFunctionCalls == [] && fresh(operandStack) && operandStack.Depth() == 0
    {
      unresolvedFunctionCalls := [];
      operandStack := new OperandStack();
    }
  }

  /** The values in the first `depth` operand-stack slots of a frame, bottom first. */
  function Contents(m: LowMachine, parameterCount: nat, localCount: nat, depth: nat): (s: seq<int>)
    ensures |s| == depth
  {
    seq(depth, i requires 0 <= i < depth => m.Memory(OperandStackOffset(parameterCount, localCount, i)))
  }

  /**
   * What a push's store does to the frame: the stack seen through the slots gains the register's
   * value on top, and no register changes.
   */
  lemma PushStores(m: LowMachine, parameterCount: nat, localCount: nat, depth: nat, register: MachineRegister, float: FloatOps)
    ensures var n := Effect(m, StoreMemoryExplicit(OperandStackOffset(parameterCount, localCount, depth), register), float);
      && n.Some?
      && Contents(n.value, parameterCount, localCount, depth + 1) == Contents(m, parameterCount, localCount, depth) + [m.Explicit(register)]
      && n.value.registers == m.registers && n.value.explicit == m.explicit && n.value.operands == m.operands
  {
    var slot := OperandStackOffset(parameterCount, localCount, depth);
    var n := m.SetMemory(slot, m.Explicit(register));
    forall i | 0 <= i < depth
      ensures n.Memory(OperandStackOffset(parameterCount, localCount, i)) == m.Memory(OperandStackOffset(parameterCount, localCount, i))
    {
      SlotsDecrease(parameterCount, localCount, i, depth);
    }
    assert Contents(n, parameterCount, localCount, depth + 1) == Contents(m, parameterCount, localCount, depth) + [m.Explicit(register)];
  }

  /** What `push_i32`'s move does to the frame: the stack gains the constant on top. */
  lemma PushI32Stores(m: LowMachine, parameterCount: nat, localCount: nat, depth: nat, value: I32, float: FloatOps)
    ensures var n := Effect(m, MoveInt32ToMemory(OperandStackOffset(parameterCount, localCount, depth), value), float);
      && n.Some?
      && Contents(n.value, parameterCount, localCount, depth + 1) == Contents(m, parameterCount, localCount, depth) + [value]
      && n.value.registers == m.registers && n.value.explicit == m.explicit && n.value.operands == m.operands
  {
    var slot := OperandStackOffset(parameterCount, localCount, depth);
    var n := m.SetMemory(slot, value);
    forall i | 0 <= i < depth
      ensures n.Memory(OperandStackOffset(parameterCount, localCount, i)) == m.Memory(OperandStackOffset(parameterCount, localCount, i))
    {
      SlotsDecrease(parameterCount, localCount, i, depth);
    }
    assert Contents(n, parameterCount, localCount, depth + 1) == Contents(m, parameterCount, localCount, depth) + [value];
  }

  /**
   * What a pop's load does: the register receives the top of the stack, the frame is unchanged,
   * and the stack seen with one entry fewer is the old one without its top.
   */
  lemma PopLoads(m: LowMachine, parameterCount: nat, localCount: nat, depth: nat, register: MachineRegister, float: FloatOps)
    requires depth > 0
    ensures var n := Effect(m, LoadMemoryExplicit(register, OperandStackOffset(parameterCount, localCount, depth - 1)), float);
      && n.Some?
      && n.value.Explicit(register) == Contents(m, parameterCount, localCount, depth)[depth - 1]
      && n.value.memory == m.memory && n.value.registers == m.registers && n.value.operands == m.operands
      && Contents(n.value, parameterCount, localCount, depth - 1) == Contents(m, parameterCount, localCount, depth)[..depth - 1]
  {
    var n := m.SetExplicit(register, m.Memory(OperandStackOffset(parameterCount, localCount, depth - 1)));
    assert Contents(n, parameterCount, localCount, depth - 1) == Contents(m, parameterCount, localCount, depth)[..depth - 1];
  }

  /**
   * A push followed by a pop through the tracker: the pop reads the slot the push wrote, the
   * depth is back where it was, and run on a frame the pair copies the pushed register into the
   * popped one and leaves the stack's earlier entries as they were.
   */
  method PushThenPop(stack: OperandStack, owner: ModelFunction.Function, from: MachineRegister, to: MachineRegister)
    returns (push: InstructionIR, pop: Option<InstructionIR>)
    modifies stack
    ensures stack.Depth() == old(stack.Depth())
    ensures pop.Some? && push.StoreMemoryExplicit? && pop.value.LoadMemoryExplicit? && push.offset == pop.value.offset
    ensures forall m: LowMachine, float: FloatOps ::
      var n := Run(m, [push, pop.value], float);
      && n.Some? && n.value.Explicit(to) == m.Explicit(from)
      && Contents(n.value, |owner.definition.parameters|, |owner.locals|, old(stack.Depth())) ==
         Contents(m, |owner.definition.parameters|, |owner.locals|, old(stack.Depth()))
  {
    ghost var depth := stack.Depth();
    ghost var parameterCount := |owner.definition.parameters|;
    ghost var localCount := |owner.locals|;
    push := stack.PushRegister(owner, from);
    pop := stack.PopRegister(owner, to);
    forall m: LowMachine, float: FloatOps
      ensures var n := Run(m, [push, pop.value], float);
        && n.Some? && n.value.Explicit(to) == m.Explicit(from)
        && Contents(n.value, parameterCount, localCount, depth) == Contents(m, parameterCount, localCount, depth)
    {
      PushStores(m, parameterCount, localCount, depth, from, float);
      var stored := Effect(m, push, float).value;
      PopLoads(stored, parameterCount, localCount, depth + 1, to, float);
      RunCons(m, push, [pop.value], float);
      RunCons(stored, pop.value, [], float);
      assert Contents(m, parameterCount, localCount, depth) == (Contents(m, parameterCount, localCount, depth) + [m.Explicit(from)])[..depth];
    }
  }
}
