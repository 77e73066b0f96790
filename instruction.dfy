/** The nine instructions of the model revision and their display. */
module ModelInstruction {
  import opened Scalars
  import opened TypeSystem
  import opened Text
  import opened FunctionSignatures

  datatype Instruction =
    | LoadInt32(value: I32)
    | LoadFloat32(fvalue: Float32Bits)
    | LoadLocal(local: nat)
    | StoreLocal(local: nat)
    | Add
    | Sub
    | Call(signature: FunctionSignature)
    | LoadArgument(argument: nat)
    | Return

  /** Display of an instruction; `floatText` is how the host renders a 32-bit float. */
  function InstructionText(i: Instruction, floatText: Float32Bits -> string): string {
    match i
    case LoadInt32(v) => "LoadInt32 " + IntToString(v)
    case LoadFloat32(f) => "LoadFloat32 " + floatText(f)
    case LoadLocal(n) => "LoadLocal " + NatToString(n)
    // The source displays a store under the load mnemonic.
    case StoreLocal(n) => "LoadLocal " + NatToString(n)
    case Add => "Add"
    case Sub => "Sub"
    case Call(s) => "Call " + SignatureText(s)
    case LoadArgument(n) => "LoadArgument " + NatToString(n)
    case Return => "Return"
  }

  /** Operand-carrying instructions display as mnemonic, one space, operand; the others as the bare mnemonic. */
  lemma InstructionTextShape(i: Instruction, floatText: Float32Bits -> string)
    ensures i.LoadInt32? ==> InstructionText(i, floatText) == "LoadInt32 " + IntToString(i.value)
    ensures i.LoadLocal? ==> InstructionText(i, floatText) == "LoadLocal " + NatToString(i.local)
    ensures i.LoadArgument? ==> InstructionText(i, floatText) == "LoadArgument " + NatToString(i.argument)
    ensures i.Add? ==> InstructionText(i, floatText) == "Add"
    ensures i.Sub? ==> InstructionText(i, floatText) == "Sub"
    ensures i.Return? ==> InstructionText(i, floatText) == "Return"
    ensures i.Call? ==> InstructionText(i, floatText) == "Call " + SignatureText(i.signature)
  {
  }

  /** As coded, a store and a load of the same local cannot be told apart by their display. */
  /** The operand of a local or argument instruction reads back from its display. */
  lemma OperandReadsBack(i: Instruction, floatText: Float32Bits -> string)
    requires i.LoadLocal? || i.StoreLocal? || i.LoadArgument?
    ensures var t := InstructionText(i, floatText);
      var k := if i.LoadArgument? then 13 else 10;
      |t| > k && AllDigits(t[k..]) &&
      DecimalValue(t[k..]) == (if i.LoadArgument? then i.argument else i.local)
  {
    var t := InstructionText(i, floatText);
    if i.LoadArgument? {
      assert t[13..] == NatToString(i.argument);
      DecimalValueOfNatToString(i.argument);
    } else {
      assert t[10..] == NatToString(i.local);
      DecimalValueOfNatToString(i.local);
    }
  }

  lemma StoreLocalDisplaysAsLoad(n: nat, floatText: Float32Bits -> string)
    ensures InstructionText(StoreLocal(n), floatText) == InstructionText(LoadLocal(n), floatText)
    ensures InstructionText(StoreLocal(n), floatText)[..10] == "LoadLocal "
  {
  }
}
