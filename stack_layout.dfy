/**
 * The frame layout of a compiled function. Every slot is one 8-byte stack entry below the frame
 * base: first the arguments, then the locals, then the operand stack, each region in index
 * order towards lower addresses. The offsets are stated over unbounded integers.
 */
module StackLayout {
  const StackEntrySize: int := 8
  /** The entry next to the frame base is left free. */
  const StackOffset: nat := 1

  /** `stack_size`: one entry per argument, local and operand-stack slot. */
  function StackSize(parameterCount: nat, localCount: nat, operandStackSize: nat): (size: int)
    ensures size >= 0 && size % StackEntrySize == 0
    ensures size == 8 * parameterCount + 8 * localCount + 8 * operandStackSize
  {
    (parameterCount + localCount + operandStackSize) * StackEntrySize
  }

  /** `argument_stack_offset`. */
  function ArgumentStackOffset(index: nat): int {
    (StackOffset + index) * -StackEntrySize
  }

  /** `local_stack_offset`: below the arguments. */
  function LocalStackOffset(parameterCount: nat, index: nat): int {
    (StackOffset + parameterCount + index) * -StackEntrySize
  }

  /** `operand_stack_offset`: below the arguments and the locals. */
  function OperandStackOffset(parameterCount: nat, localCount: nat, index: nat): int {
    (StackOffset + parameterCount + localCount + index) * -StackEntrySize
  }

  /** Within each region, consecutive slots are one entry apart, going down. */
  lemma SlotsOneEntryApart(parameterCount: nat, localCount: nat, index: nat)
    ensures ArgumentStackOffset(index + 1) == ArgumentStackOffset(index) - StackEntrySize
    ensures LocalStackOffset(parameterCount, index + 1) == LocalStackOffset(parameterCount, index) - StackEntrySize
    ensures OperandStackOffset(parameterCount, localCount, index + 1) == OperandStackOffset(parameterCount, localCount, index) - StackEntrySize
  {
  }

  /** Within each region, a larger index is a strictly lower slot, so distinct indices never share a slot. */
  lemma SlotsDecrease(parameterCount: nat, localCount: nat, i: nat, j: nat)
    requires i < j
    ensures ArgumentStackOffset(j) < ArgumentStackOffset(i)
    ensures LocalStackOffset(parameterCount, j) < LocalStackOffset(parameterCount, i)
    ensures OperandStackOffset(parameterCount, localCount, j) < OperandStackOffset(parameterCount, localCount, i)
  {
  }

  /** The regions follow one another: every argument slot is above every local slot, which is above every operand slot. */
  lemma RegionsApart(parameterCount: nat, localCount: nat, argument: nat, local: nat, operand: nat)
    requires argument < parameterCount && local < localCount
    ensures OperandStackOffset(parameterCount, localCount, operand) < LocalStackOffset(parameterCount, local) < ArgumentStackOffset(argument)
  {
  }

  /** Every in-range slot is an entry-aligned offset inside the frame: between `-stack_size` and the first entry. */
  lemma SlotsInFrame(parameterCount: nat, localCount: nat, operandStackSize: nat, argument: nat, local: nat, operand: nat)
    requires argument < parameterCount && local < localCount && operand < operandStackSize
    ensures var size := StackSize(parameterCount, localCount, operandStackSize);
      && -size <= ArgumentStackOffset(argument) <= -StackEntrySize
      && -size <= LocalStackOffset(parameterCount, local) <= -StackEntrySize
      && -size <= OperandStackOffset(parameterCount, localCount, operand) <= -StackEntrySize
    ensures ArgumentStackOffset(argument) % StackEntrySize == 0
    ensures LocalStackOffset(parameterCount, local) % StackEntrySize == 0
    ensures OperandStackOffset(parameterCount, localCount, operand) % StackEntrySize == 0
  {
  }

  /**
   * `align_size`: a frame size rounded up to the 16 bytes the ABI keeps the stack aligned to,
   * `((size + 15) / 16) * 16`. The oldest compiler writes this rounding inline; the later
   * compilers call it under this name, which this revision of the layout does not define.
   */
  function AlignSize(size: int): (aligned: int)
    requires size >= 0
    ensures aligned % 16 == 0 && size <= aligned < size + 16
    ensures aligned > 0 <==> size > 0
  {
    ((size + 15) / 16) * 16
  }
}
