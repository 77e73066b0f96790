/**
 * The stack-effect and type verifier: an abstract interpreter over a stack of operand types.
 * `Step` and `RunPrefix` give the meaning of the instruction loop; the `Verifier` class is the
 * in-place loop of the source, proved to compute the same thing.
 */
module Verifier {
  import opened Wrappers
  import opened Scalars
  import opened TypeSystem
  import opened FunctionSignatures
  import opened ModelInstruction
  import opened ModelFunction
  import EngineBinder

  datatype VerifyError =
    | EmptyOperandStack
    | NonEmptyOperandStackOnReturn
    | LocalIndexOutOfRange
    | ArgumentIndexOutOfRange
    | WrongType(expected: Type, actual: Type)
    | WrongArithmeticOperands
    | FunctionNotDefined(signature: FunctionSignature)
    | ExpectedNumberOfOperands(count: nat)
    | ParameterCannotBeVoid

  /** What verification of one function can see: its definition, its locals and the function table. */
  datatype Context = Context(
    parameters: seq<Type>,
    returnType: Type,
    locals: seq<Type>,
    functions: map<FunctionSignature, FunctionDefinition>)

  function SameType(expected: Type, actual: Type): (r: Result<(), VerifyError>)
    ensures r.Ok? <==> expected == actual
    ensures r.Err? ==> r.error == WrongType(expected, actual)
  {
    if expected != actual then Err(WrongType(expected, actual)) else Ok(())
  }

  /**
   * Pops one operand per parameter, last parameter first, checking each against its parameter
   * type; `k` parameters remain to be checked.
   */
  function CheckArguments(parameters: seq<Type>, stack: seq<Type>, k: nat): Result<seq<Type>, VerifyError>
    requires |stack| >= |parameters| && k <= |parameters|
  {
    var base := |stack| - |parameters|;
    if k == 0 then Ok(stack[..base])
    else if parameters[k - 1] != stack[base + k - 1] then Err(WrongType(parameters[k - 1], stack[base + k - 1]))
    else CheckArguments(parameters, stack, k - 1)
  }

  function PopParameters(parameters: seq<Type>, stack: seq<Type>): Result<seq<Type>, VerifyError>
    requires |stack| >= |parameters|
  {
    CheckArguments(parameters, stack, |parameters|)
  }

  /** The effect of one instruction on the operand-type stack. */
  function Step(c: Context, stack: seq<Type>, instruction: Instruction): Result<seq<Type>, VerifyError> {
    match instruction
    case LoadInt32(_) => Ok(stack + [Int32])
    case LoadFloat32(_) => Ok(stack + [Float32])
    case LoadLocal(n) =>
      if n < |c.locals| then Ok(stack + [c.locals[n]]) else Err(LocalIndexOutOfRange)
    case StoreLocal(n) =>
      if stack == [] then Err(EmptyOperandStack)
      else if n >= |c.locals| then Err(LocalIndexOutOfRange)
      else if c.locals[n] != stack[|stack| - 1] then Err(WrongType(c.locals[n], stack[|stack| - 1]))
      else Ok(stack[..|stack| - 1])
    case Add => Arithmetic(stack)
    case Sub => Arithmetic(stack)
    case Call(signature) =>
      if signature !in c.functions then Err(FunctionNotDefined(signature))
      else
        var callee := c.functions[signature];
        if |stack| < |callee.parameters| then Err(ExpectedNumberOfOperands(|callee.parameters|))
        else (match PopParameters(callee.parameters, stack)
          case Err(e) => Err(e)
          case Ok(rest) => Ok(if callee.returnType != Void then rest + [callee.returnType] else rest))
    case LoadArgument(n) =>
      if n < |c.parameters| then Ok(stack + [c.parameters[n]]) else Err(ArgumentIndexOutOfRange)
    case Return =>
      if c.returnType == Void then Ok(stack)
      else if stack == [] then Err(EmptyOperandStack)
      else if c.returnType != stack[|stack| - 1] then Err(WrongType(c.returnType, stack[|stack| - 1]))
      else Ok(stack[..|stack| - 1])
  }

  function Arithmetic(stack: seq<Type>): Result<seq<Type>, VerifyError> {
    if |stack| < 2 then Err(EmptyOperandStack)
    else
      var op1, op2 := stack[|stack| - 2], stack[|stack| - 1];
      if (op1 == Int32 && op2 == Int32) || (op1 == Float32 && op2 == Float32)
      then Ok(stack[..|stack| - 2] + [op1])
      else Err(WrongArithmeticOperands)
  }

  /** The operand-type stack after the first `i` instructions, starting from an empty stack. */
  function RunPrefix(c: Context, instructions: seq<Instruction>, i: nat): Result<seq<Type>, VerifyError>
    requires i <= |instructions|
  {
    if i == 0 then Ok([])
    else match RunPrefix(c, instructions, i - 1)
      case Err(e) => Err(e)
      case Ok(s) => Step(c, s, instructions[i - 1])
  }

  /** The largest stack depth seen before any of the first `i` instructions. */
  function MaxDepth(c: Context, instructions: seq<Instruction>, i: nat): nat
    requires i <= |instructions|
  {
    if i == 0 then 0
    else
      var before := RunPrefix(c, instructions, i - 1);
      var here := if before.Ok? then |before.value| else 0;
      var rest := MaxDepth(c, instructions, i - 1);
      if here > rest then here else rest
  }

  /** The whole check of one subject. */
  function VerifyFunction(c: Context, instructions: seq<Instruction>): Result<(), VerifyError> {
    if Void in c.parameters then Err(ParameterCannotBeVoid)
    else match RunPrefix(c, instructions, |instructions|)
      case Err(e) => Err(e)
      case Ok(s) => if s != [] then Err(NonEmptyOperandStackOnReturn) else Ok(())
  }

  class Verifier {
    const subject: Function
    const binder: EngineBinder.Binder
    var operandStack: seq<Type>

    constructor (binder: EngineBinder.Binder, subject: Function)
      ensures this.subject == subject && this.binder == binder && operandStack == []
    {
      this.subject := subject;
      this.binder := binder;
      this.operandStack := [];
    }

    function Ctx(): Context
      reads this, subject, binder
    {
      Context(subject.definition.parameters, subject.definition.returnType, subject.locals, binder.functions)
    }

    method PopOperandStack() returns (r: Result<Type, VerifyError>)
      modifies this
      ensures old(operandStack) == [] ==> r == Err(EmptyOperandStack) && operandStack == []
      ensures old(operandStack) != [] ==>
        r == Ok(old(operandStack)[|old(operandStack)| - 1]) && operandStack == old(operandStack)[..|old(operandStack)| - 1]
    {
      if operandStack == [] {
        return Err(EmptyOperandStack);
      }
      r := Ok(operandStack[|operandStack| - 1]);
      operandStack := operandStack[..|operandStack| - 1];
    }

    /** Applies one instruction to `operandStack`. On failure the stack is left partly popped, as in the source. */
    method VerifyInstruction(instruction: Instruction) returns (r: Result<(), VerifyError>)
      requires binder.Valid()
      modifies this
      ensures var expected := Step(Ctx(), old(operandStack), instruction);
        (r.Ok? <==> expected.Ok?) &&
        (r.Ok? ==> operandStack == expected.value) &&
        (r.Err? ==> r.error == expected.error)
    {
      var stack := operandStack;
      match instruction {
        case LoadInt32(_) => operandStack := operandStack + [Int32]; r := Ok(());
        case LoadFloat32(_) => operandStack := operandStack + [Float32]; r := Ok(());
        case LoadLocal(n) =>
          if n >= |subject.locals| { return Err(LocalIndexOutOfRange); }
          operandStack := operandStack + [subject.locals[n]];
          r := Ok(());
        case StoreLocal(n) =>
          var operand := PopOperandStack();
          if operand.Err? { return Err(operand.error); }
          if n >= |subject.locals| { return Err(LocalIndexOutOfRange); }
          var same := SameType(subject.locals[n], operand.value);
          if same.Err? { return Err(same.error); }
          r := Ok(());
        case Add => r := VerifyArithmetic();
        case Sub => r := VerifyArithmetic();
        case Call(signature) =>
          var callee := binder.Get(signature);
          if callee.None? { return Err(FunctionNotDefined(signature)); }
          var parameters := callee.value.parameters;
          if |operandStack| < |parameters| { return Err(ExpectedNumberOfOperands(|parameters|)); }
          var k := |parameters|;
          while k > 0
            invariant 0 <= k <= |parameters|
            invariant operandStack == stack[..|stack| - |parameters| + k]
            invariant PopParameters(parameters, stack) == CheckArguments(parameters, stack, k)
          {
            var operand := PopOperandStack();
            var same := SameType(parameters[k - 1], operand.value);
            if same.Err? { return Err(same.error); }
            k := k - 1;
          }
          if callee.value.returnType != Void {
            operandStack := operandStack + [callee.value.returnType];
          }
          r := Ok(());
        case LoadArgument(n) =>
          if n >= |subject.definition.parameters| { return Err(ArgumentIndexOutOfRange); }
          operandStack := operandStack + [subject.definition.parameters[n]];
          r := Ok(());
        case Return =>
          r := Ok(());
          if subject.definition.returnType != Void {
            var operand := PopOperandStack();
            if operand.Err? { return Err(operand.error); }
            var same := SameType(subject.definition.returnType, operand.value);
            if same.Err? { return Err(same.error); }
          }
      }
    }

    method VerifyArithmetic() returns (r: Result<(), VerifyError>)
      modifies this
      ensures var expected := Arithmetic(old(operandStack));
        (r.Ok? <==> expected.Ok?) &&
        (r.Ok? ==> operandStack == expected.value) &&
        (r.Err? ==> r.error == expected.error)
    {
      var op2 := PopOperandStack();
      if op2.Err? { return Err(op2.error); }
      var op1 := PopOperandStack();
      if op1.Err? { return Err(op1.error); }
      if (op1.value == Int32 && op2.value == Int32) || (op1.value == Float32 && op2.value == Float32) {
        operandStack := operandStack + [op1.value];
        r := Ok(());
      } else {
        r := Err(WrongArithmeticOperands);
      }
    }

    /**
     * Records the operand-type stack before every instruction, applies each instruction, and on
     * success stores the maximum depth seen as the operand stack size.
     */
    method VerifyInstructions() returns (r: Result<(), VerifyError>)
      requires binder.Valid() && subject.Valid() && operandStack == []
      modifies this, subject
      ensures subject.Valid()
      ensures subject.definition == old(subject.definition) && subject.locals == old(subject.locals)
      ensures subject.instructions == old(subject.instructions)
      ensures var expected := RunPrefix(old(Ctx()), subject.instructions, |subject.instructions|);
        (r.Ok? <==> expected.Ok?) &&
        (r.Err? ==> r.error == expected.error) &&
        (r.Ok? ==>
          && operandStack == expected.value
          && subject.operandStackSize == MaxDepth(old(Ctx()), subject.instructions, |subject.instructions|)
          && forall k :: 0 <= k < |subject.instructions| ==>
               Some(subject.operandTypes[k]) == StackBefore(old(Ctx()), subject.instructions, k))
    {
      ghost var c := Ctx();
      var instructions := subject.instructions;
      var maxStackSize := 0;
      var i := 0;
      while i < |instructions|
        invariant 0 <= i <= |instructions|
        invariant Ctx() == c && subject.instructions == instructions && subject.Valid()
        invariant subject.definition == old(subject.definition) && subject.locals == old(subject.locals)
        invariant RunPrefix(c, instructions, i) == Ok(operandStack)
        invariant maxStackSize == MaxDepth(c, instructions, i)
        invariant forall k :: 0 <= k < i ==> Some(subject.operandTypes[k]) == StackBefore(c, instructions, k)
      {
        subject.SetOperandTypes(i, operandStack);
        if |operandStack| > maxStackSize {
          maxStackSize := |operandStack|;
        }
        var step := VerifyInstruction(instructions[i]);
        if step.Err? {
          PrefixFailureIsFinal(c, instructions, i + 1);
          return Err(step.error);
        }
        i := i + 1;
      }
      subject.SetOperandStackSize(maxStackSize);
      r := Ok(());
    }

    /** Parameters are checked for `Void` first; an operand left over at the end is an error. */
    method Verify() returns (r: Result<(), VerifyError>)
      requires binder.Valid() && subject.Valid() && operandStack == []
      modifies this, subject
      ensures subject.Valid()
      ensures subject.instructions == old(subject.instructions)
      ensures r == VerifyFunction(old(Ctx()), subject.instructions)
      ensures r.Ok? ==>
        && subject.operandStackSize == MaxDepth(old(Ctx()), subject.instructions, |subject.instructions|)
        && forall k :: 0 <= k < |subject.instructions| ==>
             Some(subject.operandTypes[k]) == StackBefore(old(Ctx()), subject.instructions, k)
    {
      var parameters := subject.definition.parameters;
      var j := 0;
      while j < |parameters|
        invariant 0 <= j <= |parameters|
        invariant Void !in parameters[..j]
        invariant Ctx() == old(Ctx()) && subject.instructions == old(subject.instructions)
        invariant operandStack == [] && subject.Valid()
      {
        if parameters[j] == Void {
          assert Void in parameters;
          assert VerifyFunction(old(Ctx()), subject.instructions) == Err(ParameterCannotBeVoid);
          return Err(ParameterCannotBeVoid);
        }
        assert parameters[..j + 1] == parameters[..j] + [parameters[j]];
        j := j + 1;
      }
      assert parameters[..j] == parameters;
      ghost var c := Ctx();
      r := VerifyInstructions();
      ghost var expected := RunPrefix(c, subject.instructions, |subject.instructions|);
      assert c == old(Ctx());
      if r.Err? {
        assert r == VerifyFunction(c, subject.instructions);
        return;
      }
      assert expected.Ok? && operandStack == expected.value;
      assert Void !in c.parameters;
      if operandStack != [] {
        return Err(NonEmptyOperandStackOnReturn);
      }
      r := Ok(());
    }
  }

  /** The stack recorded before instruction `k`, when the first `k` instructions verify. */
  function StackBefore(c: Context, instructions: seq<Instruction>, k: nat): Option<seq<Type>>
    requires k <= |instructions|
  {
    var before := RunPrefix(c, instructions, k);
    if before.Ok? then Some(before.value) else None
  }

  /** Once a prefix fails, every longer prefix fails with the same error. */
  lemma {:induction false} PrefixFailureIsFinal(c: Context, instructions: seq<Instruction>, i: nat)
    requires i <= |instructions| && RunPrefix(c, instructions, i).Err?
    ensures RunPrefix(c, instructions, |instructions|) == RunPrefix(c, instructions, i)
    decreases |instructions| - i
  {
    if i < |instructions| {
      PrefixFailureIsFinal(c, instructions, i + 1);
    }
  }

  /** Arithmetic accepts two Int32 or two Float32 operands and pushes the left operand's type. */
  lemma ArithmeticTyping(stack: seq<Type>)
    ensures |stack| < 2 ==> Arithmetic(stack) == Err(EmptyOperandStack)
    ensures |stack| >= 2 ==>
      var op1, op2 := stack[|stack| - 2], stack[|stack| - 1];
      (Arithmetic(stack).Ok? <==> op1 == op2 && op1 != Void) &&
      (Arithmetic(stack).Ok? ==> Arithmetic(stack).value == stack[..|stack| - 2] + [op1]) &&
      (Arithmetic(stack).Err? ==> Arithmetic(stack).error == WrongArithmeticOperands)
  {
  }

  /**
   * The arguments of a call are the top |parameters| operands; they are checked from the last
   * parameter to the first, and the error names the last mismatching parameter.
   */
  lemma {:induction false} CheckArgumentsMeaning(parameters: seq<Type>, stack: seq<Type>, k: nat)
    requires |stack| >= |parameters| && k <= |parameters|
    ensures var base := |stack| - |parameters|;
      var r := CheckArguments(parameters, stack, k);
      (r.Ok? <==> forall j :: 0 <= j < k ==> parameters[j] == stack[base + j]) &&
      (r.Ok? ==> r.value == stack[..base]) &&
      (r.Err? ==>
        exists j :: 0 <= j < k && parameters[j] != stack[base + j] &&
          r.error == WrongType(parameters[j], stack[base + j]) &&
          forall m :: j < m < k ==> parameters[m] == stack[base + m])
  {
    if k > 0 {
      CheckArgumentsMeaning(parameters, stack, k - 1);
    }
  }

  /** The recorded operand stack size bounds every recorded stack and is reached by one of them. */
  lemma {:induction false} MaxDepthIsMaximum(c: Context, instructions: seq<Instruction>, i: nat)
    requires i <= |instructions|
    ensures forall k :: 0 <= k < i && StackBefore(c, instructions, k).Some? ==>
      |StackBefore(c, instructions, k).value| <= MaxDepth(c, instructions, i)
    ensures MaxDepth(c, instructions, i) == 0 ||
      exists k :: 0 <= k < i && StackBefore(c, instructions, k).Some? &&
        |StackBefore(c, instructions, k).value| == MaxDepth(c, instructions, i)
  {
    if i > 0 {
      MaxDepthIsMaximum(c, instructions, i - 1);
      var before := StackBefore(c, instructions, i - 1);
      if before.Some? && |before.value| > MaxDepth(c, instructions, i - 1) {
        assert |StackBefore(c, instructions, i - 1).value| == MaxDepth(c, instructions, i);
      }
    }
  }

  /** A parameter of type Void is rejected before any instruction is looked at. */
  lemma VoidParameterRejectedFirst(c: Context, instructions: seq<Instruction>)
    requires Void in c.parameters
    ensures VerifyFunction(c, instructions) == Err(ParameterCannotBeVoid)
  {
  }

  const NoFunctions: map<FunctionSignature, FunctionDefinition> := map[]

  /** The operand-type stacks of the add example, one instruction at a time. */
  lemma AddPrefixes(c: Context, body: seq<Instruction>)
    requires c == Context([], Int32, [], NoFunctions) && body == [LoadInt32(4711), LoadInt32(1337), Add, Return]
    ensures RunPrefix(c, body, 1) == Ok([Int32]) && RunPrefix(c, body, 2) == Ok([Int32, Int32])
    ensures RunPrefix(c, body, 3) == Ok([Int32]) && RunPrefix(c, body, 4) == Ok([])
  {
    assert [] + [Int32] == [Int32];
    assert RunPrefix(c, body, 1) == Ok([Int32]);
    assert [Int32] + [Int32] == [Int32, Int32];
    assert RunPrefix(c, body, 2) == Ok([Int32, Int32]);
    assert RunPrefix(c, body, 3) == Arithmetic([Int32, Int32]);
    assert RunPrefix(c, body, 4) == Ok([Int32][..0]);
  }

  /** Two integer loads, an add and a return verify, and [Int32, Int32] is recorded before the add. */
  lemma AddRecordsBothOperands()
    ensures var c := Context([], Int32, [], NoFunctions);
      var body := [LoadInt32(4711), LoadInt32(1337), Add, Return];
      VerifyFunction(c, body) == Ok(()) &&
      StackBefore(c, body, 2) == Some([Int32, Int32]) &&
      MaxDepth(c, body, 4) == 2
  {
    var c := Context([], Int32, [], NoFunctions);
    var body := [LoadInt32(4711), LoadInt32(1337), Add, Return];
    AddPrefixes(c, body);
    assert MaxDepth(c, body, 2) == 1;
    assert MaxDepth(c, body, 3) == 2;
  }

  /** A Void function leaving a value on the stack, or returning the wrong type, is rejected. */
  lemma ReturnChecks()
    ensures VerifyFunction(Context([], Void, [], NoFunctions), [LoadInt32(1), LoadInt32(2), Return])
      == Err(NonEmptyOperandStackOnReturn)
    ensures VerifyFunction(Context([], Float32, [], NoFunctions), [LoadInt32(1), LoadInt32(2), Add, Return])
      == Err(WrongType(Float32, Int32))
  {
    var body := [LoadInt32(1), LoadInt32(2), Return];
    var c := Context([], Void, [], NoFunctions);
    assert RunPrefix(c, body, 1).Ok? && RunPrefix(c, body, 1).value == [Int32];
    assert RunPrefix(c, body, 2).Ok? && RunPrefix(c, body, 2).value == [Int32, Int32];
    assert RunPrefix(c, body, 3).Ok? && RunPrefix(c, body, 3).value == [Int32, Int32];
    var body2 := [LoadInt32(1), LoadInt32(2), Add, Return];
    var c2 := Context([], Float32, [], NoFunctions);
    assert RunPrefix(c2, body2, 1).Ok? && RunPrefix(c2, body2, 1).value == [Int32];
    assert RunPrefix(c2, body2, 2).Ok? && RunPrefix(c2, body2, 2).value == [Int32, Int32];
    assert RunPrefix(c2, body2, 3).Ok? && RunPrefix(c2, body2, 3).value == [Int32];
    assert RunPrefix(c2, body2, 4) == Err(WrongType(Float32, Int32));
  }

  /** A store to a missing local fails after popping its operand. */
  lemma StoreToMissingLocal()
    ensures VerifyFunction(Context([], Int32, [], NoFunctions), [LoadInt32(4711), StoreLocal(0), LoadLocal(0), Return])
      == Err(LocalIndexOutOfRange)
  {
    var c := Context([], Int32, [], NoFunctions);
    var body := [LoadInt32(4711), StoreLocal(0), LoadLocal(0), Return];
    assert RunPrefix(c, body, 1).Ok? && RunPrefix(c, body, 1).value == [Int32];
    assert RunPrefix(c, body, 2) == Err(LocalIndexOutOfRange);
    PrefixFailureIsFinal(c, body, 2);
  }

  /** The callee of the call examples: five parameters, mixing Int32 and Float32. */
  function TestCallee(): FunctionDefinition {
    NewManaged("test_call", [Int32, Int32, Float32, Int32, Float32], Int32)
  }

  function TestCallContext(): Context {
    Context([Int32], Int32, [], map[TestCallee().CallSignature() := TestCallee()])
  }

  /** A call with fewer operands on the stack than the callee has parameters is rejected. */
  lemma CallWithTooFewOperands()
    ensures VerifyFunction(TestCallContext(), [LoadInt32(1), LoadInt32(2), LoadFloat32(Float32Bits(0)),
      Call(TestCallee().CallSignature()), Return]) == Err(ExpectedNumberOfOperands(5))
  {
    var c := TestCallContext();
    var body := [LoadInt32(1), LoadInt32(2), LoadFloat32(Float32Bits(0)), Call(TestCallee().CallSignature()), Return];
    assert RunPrefix(c, body, 1).Ok? && RunPrefix(c, body, 1).value == [Int32];
    assert RunPrefix(c, body, 2).Ok? && RunPrefix(c, body, 2).value == [Int32, Int32];
    assert RunPrefix(c, body, 3).Ok? && RunPrefix(c, body, 3).value == [Int32, Int32, Float32];
    assert RunPrefix(c, body, 4) == Err(ExpectedNumberOfOperands(5));
    PrefixFailureIsFinal(c, body, 4);
  }

  /** The arguments are checked from the last one down; the fourth is the first mismatch. */
  lemma WrongArgumentTypeCall()
    ensures Step(TestCallContext(), [Int32, Int32, Int32, Int32, Float32], Call(TestCallee().CallSignature()))
      == Err(WrongType(Float32, Int32))
  {
    var params := [Int32, Int32, Float32, Int32, Float32];
    var st := [Int32, Int32, Int32, Int32, Float32];
    assert TestCallee().parameters == params;
    assert CheckArguments(params, st, 4) == CheckArguments(params, st, 3);
    assert CheckArguments(params, st, 3) == Err(WrongType(Float32, Int32));
  }

  /** A call whose fourth argument has the wrong type is rejected with the expected and found types. */
  lemma CallWithWrongArgumentType()
    ensures VerifyFunction(TestCallContext(), [LoadInt32(1), LoadInt32(2), LoadInt32(3), LoadInt32(4),
      LoadFloat32(Float32Bits(0)), Call(TestCallee().CallSignature()), Return]) == Err(WrongType(Float32, Int32))
  {
    var c := TestCallContext();
    var body := [LoadInt32(1), LoadInt32(2), LoadInt32(3), LoadInt32(4), LoadFloat32(Float32Bits(0)),
                 Call(TestCallee().CallSignature()), Return];
    assert RunPrefix(c, body, 1).Ok? && RunPrefix(c, body, 1).value == [Int32];
    assert RunPrefix(c, body, 2).Ok? && RunPrefix(c, body, 2).value == [Int32, Int32];
    assert RunPrefix(c, body, 3).Ok? && RunPrefix(c, body, 3).value == [Int32, Int32, Int32];
    assert RunPrefix(c, body, 4).Ok? && RunPrefix(c, body, 4).value == [Int32, Int32, Int32, Int32];
    assert RunPrefix(c, body, 5).Ok? && RunPrefix(c, body, 5).value == [Int32, Int32, Int32, Int32, Float32];
    WrongArgumentTypeCall();
    assert RunPrefix(c, body, 6) == Err(WrongType(Float32, Int32));
    PrefixFailureIsFinal(c, body, 6);
  }
}
