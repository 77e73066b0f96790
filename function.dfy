/** Function metadata of the model revision: definitions, signatures and the per-function records the verifier fills in. */
module ModelFunction {
  import opened Wrappers
  import opened TypeSystem
  import opened FunctionSignatures
  import opened ModelInstruction

  datatype FunctionType = External | Managed

  /** A native entry point address. */
  type Address = nat

  datatype FunctionDefinition = FunctionDefinition(
    functionType: FunctionType,
    name: string,
    parameters: seq<Type>,
    returnType: Type,
    address: Option<Address>)
  {
    function CallSignature(): (s: FunctionSignature)
      ensures s.name == name && s.parameters == parameters
    {
      FunctionSignature(name, parameters)
    }

    /** The full signature text: the call signature's display, a space, then the return type. */
    function Signature(): string {
      SignatureText(CallSignature()) + " " + TypeText(returnType)
    }

    function WithAddress(a: Address): (d: FunctionDefinition)
      ensures d.address == Some(a)
      ensures d.(address := address) == this
    {
      this.(address := Some(a))
    }

    predicate IsEntryPoint() {
      functionType == Managed && name == "main" && parameters == [] && returnType == Int32
    }
  }

  function NewExternal(name: string, parameters: seq<Type>, returnType: Type, address: Address): (d: FunctionDefinition)
    ensures d.functionType == External && d.address == Some(address)
    ensures d.name == name && d.parameters == parameters && d.returnType == returnType
  {
    FunctionDefinition(External, name, parameters, returnType, Some(address))
  }

  function NewManaged(name: string, parameters: seq<Type>, returnType: Type): (d: FunctionDefinition)
    ensures d.functionType == Managed && d.address == None
    ensures d.name == name && d.parameters == parameters && d.returnType == returnType
  {
    FunctionDefinition(Managed, name, parameters, returnType, None)
  }

  /** The signature text of a definition starts with its call signature and ends with its return type. */
  lemma SignatureTextParts(d: FunctionDefinition)
    ensures d.Signature()[..|SignatureText(d.CallSignature())|] == SignatureText(d.CallSignature())
    ensures d.Signature()[|d.Signature()| - |TypeText(d.returnType)|..] == TypeText(d.returnType)
    ensures NewManaged("main", [], Int32).Signature() == "main() Int32"
  {
    assert SignatureText(FunctionSignature("main", [])) == "main()";
  }

  /** Only a managed `main` without parameters returning `Int32` is an entry point; an external one never is. */
  lemma EntryPointExactly(d: FunctionDefinition)
    ensures d.IsEntryPoint() <==>
      d == NewManaged("main", [], Int32).(address := d.address)
    ensures NewExternal(d.name, d.parameters, d.returnType, 0).IsEntryPoint() == false
    ensures NewManaged("main", [Int32], Int32).IsEntryPoint() == false
  {
  }

  /** A function with its locals, instructions, and the operand types and stack size that verification records. */
  class Function {
    var definition: FunctionDefinition
    var locals: seq<Type>
    var instructions: seq<Instruction>
    var operandTypes: seq<seq<Type>>
    var operandStackSize: nat

    ghost predicate Valid()
      reads this
    {
      |operandTypes| == |instructions|
    }

    constructor (definition: FunctionDefinition, locals: seq<Type>, instructions: seq<Instruction>)
      ensures Valid()
      ensures this.definition == definition && this.locals == locals && this.instructions == instructions
      ensures |operandTypes| == |instructions| && forall i :: 0 <= i < |instructions| ==> operandTypes[i] == []
      ensures operandStackSize == 0
    {
      this.definition := definition;
      this.locals := locals;
      this.instructions := instructions;
      this.operandTypes := seq(|instructions|, _ => []);
      this.operandStackSize := 0;
    }

    method SetOperandStackSize(value: nat)
      modifies this
      ensures operandStackSize == value
      ensures definition == old(definition) && locals == old(locals)
      ensures instructions == old(instructions) && operandTypes == old(operandTypes)
    {
      operandStackSize := value;
    }

    method SetOperandTypes(index: nat, types: seq<Type>)
      requires index < |operandTypes|
      modifies this
      ensures operandTypes == old(operandTypes)[index := types]
      ensures definition == old(definition) && locals == old(locals)
      ensures instructions == old(instructions) && operandStackSize == old(operandStackSize)
    {
      operandTypes := operandTypes[index := types];
    }
  }
}
