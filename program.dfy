/**
 * The program representation of the later revision that the parser produces and the compiler
 * consumes: signatures and declarations over `TypeId`, the full bytecode instruction set, and a
 * function with its per-instruction operand types. The later revision's model files are not part
 * of this model; these declarations follow their uses in the compiler.
 */
module Program {
  import opened Wrappers
  import opened Scalars
  import opened TypeIds

  datatype FunctionKind = External | Managed

  datatype Signature = Signature(name: string, parameters: seq<TypeId>)

  datatype Declaration = Declaration(
    kind: FunctionKind,
    name: string,
    parameters: seq<TypeId>,
    returnType: TypeId,
    address: Option<nat>)
  {
    function Sig(): (s: Signature)
      ensures s.name == name && s.parameters == parameters
    {
      Signature(name, parameters)
    }
  }

  function NewManagedDeclaration(name: string, parameters: seq<TypeId>, returnType: TypeId): (d: Declaration)
    ensures d.kind == Managed && d.address == None
    ensures d.name == name && d.parameters == parameters && d.returnType == returnType
  {
    Declaration(Managed, name, parameters, returnType, None)
  }

  /** Comparison conditions shared by conditional branches and compare instructions. */
  datatype Condition = Equal | NotEqual | GreaterThan | GreaterThanOrEqual | LessThan | LessThanOrEqual

  /** The bytecode instruction set. Conditional branches and compares carry their condition. */
  datatype Op =
    | LoadInt32(value: I32)
    | LoadFloat32(fvalue: Float32Bits)
    | LoadTrue
    | LoadFalse
    | LoadNull(nullType: TypeId)
    | LoadLocal(local: nat)
    | StoreLocal(local: nat)
    | Add
    | Sub
    | Multiply
    | Divide
    | And
    | Or
    | Not
    | Call(signature: Signature)
    | LoadArgument(argument: nat)
    | Return
    | NewArray(element: TypeId)
    | LoadElement(element: TypeId)
    | StoreElement(element: TypeId)
    | LoadArrayLength
    | NewObject(className: string)
    | LoadField(className: string, fieldName: string)
    | StoreField(className: string, fieldName: string)
    | Branch(target: nat)
    | BranchIf(condition: Condition, target: nat)
    | Compare(condition: Condition)
  {
    predicate IsBranchInstruction() { Branch? || BranchIf? }
  }

  /** A function: its declaration, local types, instructions and the operand types recorded before each instruction. */
  datatype Function = Function(
    declaration: Declaration,
    locals: seq<TypeId>,
    instructions: seq<Op>,
    operandTypes: seq<seq<TypeId>>)
  {
    predicate WellFormed() { |operandTypes| == |instructions| }
  }

  /** A freshly built function has one empty operand-type list per instruction. */
  function NewFunction(declaration: Declaration, locals: seq<TypeId>, instructions: seq<Op>): (f: Function)
    ensures f.WellFormed() && f.declaration == declaration && f.locals == locals && f.instructions == instructions
    ensures forall i :: 0 <= i < |instructions| ==> f.operandTypes[i] == []
  {
    Function(declaration, locals, instructions, seq(|instructions|, _ => []))
  }
}
