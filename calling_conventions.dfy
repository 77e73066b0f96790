/**
 * The System V style calling convention the compiler uses. Integer-class arguments go in RDI,
 * RSI, RDX, RCX, R8 and R9 and float arguments in XMM0 to XMM7, each class counted separately in
 * parameter order; the rest are pushed by the caller from the last parameter to the first and
 * read by the callee above its frame base. Results come back in RAX, or in XMM0 for `Float32`.
 *
 * The caller's side (`CallFunctionArguments`) and the callee's side (`MoveArgumentsToStack`) are
 * proved to agree: a register argument is read from the register it was put in, and the k-th
 * stack argument is the k-th value from the top of the caller's pushes.
 */
module CallingConventions {
  import opened Wrappers
  import opened TypeIds
  import opened CompilerIr
  import opened StackLayout

  const IntArgumentCount: nat := 6
  const FloatArgumentCount: nat := 8
  const IntReturnValue: MachineRegister := RAX
  const FloatReturnValue: MachineRegister := XMM0

  function Min(a: nat, b: nat): nat { if a <= b then a else b }

  /** `register_call_arguments::get_argument`; `None` is its panic. */
  function IntArgument(index: nat): (r: Option<MachineRegister>)
    ensures r.Some? <==> index < IntArgumentCount
  {
    match index
    case 0 => Some(RDI)
    case 1 => Some(RSI)
    case 2 => Some(RDX)
    case 3 => Some(RCX)
    case 4 => Some(R8)
    case 5 => Some(R9)
    case _ => None
  }

  /** `float_register_call_arguments::get_argument`; `None` is its panic. */
  function FloatArgument(index: nat): (r: Option<MachineRegister>)
    ensures r.Some? <==> index < FloatArgumentCount
  {
    match index
    case 0 => Some(XMM0)
    case 1 => Some(XMM1)
    case 2 => Some(XMM2)
    case 3 => Some(XMM3)
    case 4 => Some(XMM4)
    case 5 => Some(XMM5)
    case 6 => Some(XMM6)
    case 7 => Some(XMM7)
    case _ => None
  }

  /** Distinct indices name distinct argument registers, and the two classes share none. */
  lemma ArgumentRegistersApart(a: nat, b: nat)
    ensures IntArgument(a).Some? && IntArgument(b).Some? && a != b ==> IntArgument(a) != IntArgument(b)
    ensures FloatArgument(a).Some? && FloatArgument(b).Some? && a != b ==> FloatArgument(a) != FloatArgument(b)
    ensures IntArgument(a).Some? && FloatArgument(b).Some? ==> IntArgument(a).value != FloatArgument(b).value
  {
  }

  // Class-relative indices

  /** The integer-class parameters among the first `n`. */
  function NonFloatsBefore(parameters: seq<TypeId>, n: nat): nat
    requires n <= |parameters|
  {
    if n == 0 then 0 else NonFloatsBefore(parameters, n - 1) + (if parameters[n - 1] != Float32 then 1 else 0)
  }

  /** The `Float32` parameters among the first `n`. */
  function FloatsBefore(parameters: seq<TypeId>, n: nat): nat
    requires n <= |parameters|
  {
    if n == 0 then 0 else FloatsBefore(parameters, n - 1) + (if parameters[n - 1] == Float32 then 1 else 0)
  }

  /** What `register_call_arguments::get_relative_index` computes: its loop stops at the index or at the end. */
  function IntRelativeIndexOf(parameters: seq<TypeId>, argumentIndex: nat): nat {
    NonFloatsBefore(parameters, Min(argumentIndex, |parameters|))
  }

  /** What `float_register_call_arguments::get_relative_index` computes. */
  function FloatRelativeIndexOf(parameters: seq<TypeId>, argumentIndex: nat): nat {
    FloatsBefore(parameters, Min(argumentIndex, |parameters|))
  }

  /** `register_call_arguments::get_relative_index`. */
  method IntRelativeIndex(parameters: seq<TypeId>, argumentIndex: nat) returns (relative: nat)
    ensures relative == IntRelativeIndexOf(parameters, argumentIndex)
  {
    relative := 0;
    var index := 0;
    while index < |parameters| && index != argumentIndex
      invariant index <= |parameters| && index <= argumentIndex
      invariant relative == NonFloatsBefore(parameters, index)
    {
      if parameters[index] != Float32 {
        relative := relative + 1;
      }
      index := index + 1;
    }
  }

  /** `float_register_call_arguments::get_relative_index`. */
  method FloatRelativeIndex(parameters: seq<TypeId>, argumentIndex: nat) returns (relative: nat)
    ensures relative == FloatRelativeIndexOf(parameters, argumentIndex)
  {
    relative := 0;
    var index := 0;
    while index < |parameters| && index != argumentIndex
      invariant index <= |parameters| && index <= argumentIndex
      invariant relative == FloatsBefore(parameters, index)
    {
      if parameters[index] == Float32 {
        relative := relative + 1;
      }
      index := index + 1;
    }
  }

  /** Every earlier parameter is counted by exactly one of the two relative indices. */
  lemma {:induction false} RelativeIndicesAddUp(parameters: seq<TypeId>, n: nat)
    requires n <= |parameters|
    ensures NonFloatsBefore(parameters, n) + FloatsBefore(parameters, n) == n
    decreases n
  {
    if n > 0 {
      RelativeIndicesAddUp(parameters, n - 1);
    }
  }

  lemma {:induction false} CountsGrow(parameters: seq<TypeId>, a: nat, b: nat)
    requires a <= b <= |parameters|
    ensures NonFloatsBefore(parameters, a) <= NonFloatsBefore(parameters, b)
    ensures FloatsBefore(parameters, a) <= FloatsBefore(parameters, b)
    decreases b
  {
    if a < b {
      CountsGrow(parameters, a, b - 1);
    }
  }

  /** A later parameter of the same class has a strictly larger relative index. */
  lemma RelativeIndexIncreases(parameters: seq<TypeId>, i: nat, j: nat)
    requires i < j && i < |parameters|
    ensures parameters[i] != Float32 ==> IntRelativeIndexOf(parameters, i) < IntRelativeIndexOf(parameters, j)
    ensures parameters[i] == Float32 ==> FloatRelativeIndexOf(parameters, i) < FloatRelativeIndexOf(parameters, j)
  {
    CountsGrow(parameters, i + 1, Min(j, |parameters|));
  }

  // Which parameters travel in registers

  /** `get_call_register`: the argument register of the parameter's class, if its relative index is in range. */
  function GetCallRegister(parameters: seq<TypeId>, index: nat, argumentType: TypeId): (r: Option<MachineRegister>)
    ensures argumentType == Float32 ==> (r.Some? <==> FloatRelativeIndexOf(parameters, index) < FloatArgumentCount)
    ensures argumentType != Float32 ==> (r.Some? <==> IntRelativeIndexOf(parameters, index) < IntArgumentCount)
  {
    if argumentType == Float32 then
      var relative := FloatRelativeIndexOf(parameters, index);
      if relative < FloatArgumentCount then FloatArgument(relative) else None
    else
      var relative := IntRelativeIndexOf(parameters, index);
      if relative < IntArgumentCount then IntArgument(relative) else None
  }

  /** Two parameters never get the same call register. */
  lemma CallRegistersApart(parameters: seq<TypeId>, i: nat, j: nat)
    requires i < j < |parameters|
    requires GetCallRegister(parameters, i, parameters[i]).Some? && GetCallRegister(parameters, j, parameters[j]).Some?
    ensures GetCallRegister(parameters, i, parameters[i]) != GetCallRegister(parameters, j, parameters[j])
  {
    RelativeIndexIncreases(parameters, i, j);
    var ri, rj := IntRelativeIndexOf(parameters, i), IntRelativeIndexOf(parameters, j);
    var fi, fj := FloatRelativeIndexOf(parameters, i), FloatRelativeIndexOf(parameters, j);
    ArgumentRegistersApart(ri, rj);
    ArgumentRegistersApart(fi, fj);
    ArgumentRegistersApart(ri, fj);
    ArgumentRegistersApart(rj, fi);
  }

  /** A parameter passed on the stack: its class-relative index is past the class's registers. */
  predicate IsStackArgument(parameters: seq<TypeId>, index: nat)
    requires index < |parameters|
  {
    if parameters[index] == Float32 then FloatRelativeIndexOf(parameters, index) >= FloatArgumentCount
    else IntRelativeIndexOf(parameters, index) >= IntArgumentCount
  }

  /** A parameter goes on the stack exactly when it has no call register. */
  lemma StackArgumentHasNoRegister(parameters: seq<TypeId>, index: nat)
    requires index < |parameters|
    ensures IsStackArgument(parameters, index) <==> GetCallRegister(parameters, index, parameters[index]).None?
  {
  }

  /** The stack parameters among the first `n`. */
  function StackArgumentsBefore(parameters: seq<TypeId>, n: nat): nat
    requires n <= |parameters|
  {
    if n == 0 then 0 else StackArgumentsBefore(parameters, n - 1) + (if IsStackArgument(parameters, n - 1) then 1 else 0)
  }

  /** How far a count runs past a limit. */
  function Excess(count: nat, limit: nat): nat { if count > limit then count - limit else 0 }

  /** The stack parameters are the integer parameters past the sixth and the float parameters past the eighth. */
  lemma {:induction false} StackArgumentsByClass(parameters: seq<TypeId>, n: nat)
    requires n <= |parameters|
    ensures StackArgumentsBefore(parameters, n) ==
      Excess(NonFloatsBefore(parameters, n), IntArgumentCount) + Excess(FloatsBefore(parameters, n), FloatArgumentCount)
    decreases n
  {
    if n > 0 {
      StackArgumentsByClass(parameters, n - 1);
      assert Min(n - 1, |parameters|) == n - 1;
    }
  }

  /** `get_stack_argument_index`: the stack parameters before the argument. */
  method GetStackArgumentIndex(parameters: seq<TypeId>, argumentIndex: nat) returns (stackIndex: nat)
    ensures stackIndex == StackArgumentsBefore(parameters, Min(argumentIndex, |parameters|))
  {
    stackIndex := 0;
    var index := 0;
    while index < |parameters| && index != argumentIndex
      invariant index <= |parameters| && index <= argumentIndex
      invariant stackIndex == StackArgumentsBefore(parameters, index)
    {
      if parameters[index] == Float32 {
        var relative := FloatRelativeIndex(parameters, index);
        if relative >= FloatArgumentCount {
          stackIndex := stackIndex + 1;
        }
      } else {
        var relative := IntRelativeIndex(parameters, index);
        if relative >= IntArgumentCount {
          stackIndex := stackIndex + 1;
        }
      }
      index := index + 1;
    }
  }

  /** `num_stack_arguments`. */
  method NumStackArguments(parameters: seq<TypeId>) returns (count: nat)
    ensures count == StackArgumentsBefore(parameters, |parameters|)
  {
    count := 0;
    for index := 0 to |parameters|
      invariant count == StackArgumentsBefore(parameters, index)
    {
      if parameters[index] == Float32 {
        var relative := FloatRelativeIndex(parameters, index);
        if relative >= FloatArgumentCount {
          count := count + 1;
        }
      } else {
        var relative := IntRelativeIndex(parameters, index);
        if relative >= IntArgumentCount {
          count := count + 1;
        }
      }
    }
  }

  lemma {:induction false} OneClassCounts(parameters: seq<TypeId>, n: nat)
    requires n <= |parameters| && forall i :: 0 <= i < |parameters| ==> parameters[i] == Int32
    ensures NonFloatsBefore(parameters, n) == n && FloatsBefore(parameters, n) == 0
    decreases n
  {
    if n > 0 {
      OneClassCounts(parameters, n - 1);
    }
  }

  /** With only `Int32` parameters, all but six go on the stack: eight give two and nine give three. */
  lemma IntegerStackArguments(parameters: seq<TypeId>)
    requires forall i :: 0 <= i < |parameters| ==> parameters[i] == Int32
    ensures StackArgumentsBefore(parameters, |parameters|) == Excess(|parameters|, IntArgumentCount)
    ensures |parameters| == 8 ==> StackArgumentsBefore(parameters, |parameters|) == 2
    ensures |parameters| == 9 ==> StackArgumentsBefore(parameters, |parameters|) == 3
  {
    OneClassCounts(parameters, |parameters|);
    StackArgumentsByClass(parameters, |parameters|);
  }

  /**
   * `stack_alignment`: one more entry when the stack arguments and the saved registers together
   * are an odd number of entries, so that all of them plus the padding keep the stack 16-byte aligned.
   */
  function StackAlignment(parameters: seq<TypeId>, numSaved: nat): (padding: int)
    ensures padding == 0 || padding == StackEntrySize
    ensures (StackEntrySize * (StackArgumentsBefore(parameters, |parameters|) + numSaved) + padding) % 16 == 0
  {
    ((StackArgumentsBefore(parameters, |parameters|) + numSaved) % 2) * StackEntrySize
  }

  // The callee's side: where each argument is found

  /**
   * `move_float_arguments_to_stack` / `move_non_float_arguments_to_stack`: a register argument is
   * read from its argument register; a stack argument with `k` stack arguments before it from
   * `8 * (STACK_OFFSET + k + 1)` above the frame base, past the saved frame base and the return address.
   */
  function ArgumentSource(parameters: seq<TypeId>, index: nat): (source: Variable)
    requires index < |parameters|
    ensures source.FrameMemory? <==> IsStackArgument(parameters, index)
    ensures source.RegisterExplicit? ==> GetCallRegister(parameters, index, parameters[index]) == Some(source.explicit)
    ensures source.FrameMemory? ==> source.offset == 16 + 8 * StackArgumentsBefore(parameters, index)
  {
    if parameters[index] == Float32 then
      var relative := FloatRelativeIndexOf(parameters, index);
      if relative >= FloatArgumentCount then
        FrameMemory(StackEntrySize * (StackOffset + StackArgumentsBefore(parameters, index) + 1))
      else RegisterExplicit(FloatArgument(relative).value)
    else
      var relative := IntRelativeIndexOf(parameters, index);
      if relative >= IntArgumentCount then
        FrameMemory(StackEntrySize * (StackOffset + StackArgumentsBefore(parameters, index) + 1))
      else RegisterExplicit(IntArgument(relative).value)
  }

  /** The callee's copies of the arguments from index `from` on, last parameter first, each into its argument slot. */
  function ArgumentsToFrameCode(parameters: seq<TypeId>, from: nat): seq<InstructionIR>
    decreases |parameters| - from
  {
    if from >= |parameters| then []
    else ArgumentsToFrameCode(parameters, from + 1) + MoveToStackFrame(ArgumentSource(parameters, from), ArgumentStackOffset(from))
  }

  /** `move_arguments_to_stack`: copies every argument into its slot, last first, and returns where each was found, in parameter order. */
  method MoveArgumentsToStack(parameters: seq<TypeId>, buffer: InstructionBuffer) returns (sources: seq<Variable>)
    modifies buffer
    ensures buffer.instructions == old(buffer.instructions) + ArgumentsToFrameCode(parameters, 0)
    ensures |sources| == |parameters|
    ensures forall i :: 0 <= i < |parameters| ==> sources[i] == ArgumentSource(parameters, i)
  {
    sources := [];
    var index: nat := |parameters|;
    while index > 0
      invariant index <= |parameters|
      invariant buffer.instructions == old(buffer.instructions) + ArgumentsToFrameCode(parameters, index)
      invariant |sources| == |parameters| - index
      invariant forall i :: index <= i < |parameters| ==> sources[i - index] == ArgumentSource(parameters, i)
    {
      index := index - 1;
      var source := FindArgument(parameters, index);
      ghost var before := buffer.instructions;
      MoveToStackFrameInto(source, ArgumentStackOffset(index), buffer);
      AppendCopy(old(buffer.instructions), before, parameters, index, buffer.instructions);
      // pushing each source and reversing at the end is prepending it
      PrependSource(parameters, index, source, sources);
      sources := [source] + sources;
    }
  }

  /** Putting the source of argument `index` before the sources of the arguments after it gives the sources from `index` on. */
  lemma PrependSource(parameters: seq<TypeId>, index: nat, source: Variable, sources: seq<Variable>)
    requires index < |parameters| && source == ArgumentSource(parameters, index)
    requires |sources| == |parameters| - (index + 1)
    requires forall i :: index + 1 <= i < |parameters| ==> sources[i - (index + 1)] == ArgumentSource(parameters, i)
    ensures |[source] + sources| == |parameters| - index
    ensures forall i :: index <= i < |parameters| ==> ([source] + sources)[i - index] == ArgumentSource(parameters, i)
  {
    forall i | index <= i < |parameters| ensures ([source] + sources)[i - index] == ArgumentSource(parameters, i) {
      if i > index {
        assert ([source] + sources)[i - index] == sources[i - (index + 1)];
      }
    }
  }

  /** Appending the copy of argument `index` to the copies after it gives the copies from `index` on. */
  lemma AppendCopy(start: seq<InstructionIR>, before: seq<InstructionIR>, parameters: seq<TypeId>, index: nat, after: seq<InstructionIR>)
    requires index < |parameters|
    requires before == start + ArgumentsToFrameCode(parameters, index + 1)
    requires after == before + MoveToStackFrame(ArgumentSource(parameters, index), ArgumentStackOffset(index))
    ensures after == start + ArgumentsToFrameCode(parameters, index)
  {
  }

  /** The body of the argument loop: where the argument at `index` is read from. */
  method FindArgument(parameters: seq<TypeId>, index: nat) returns (source: Variable)
    requires index < |parameters|
    ensures source == ArgumentSource(parameters, index)
  {
    if parameters[index] == Float32 {
      var relative := FloatRelativeIndex(parameters, index);
      if relative >= FloatArgumentCount {
        var stackIndex := GetStackArgumentIndex(parameters, index);
        source := FrameMemory(StackEntrySize * (StackOffset + stackIndex + 1));
      } else {
        source := RegisterExplicit(FloatArgument(relative).value);
      }
    } else {
      var relative := IntRelativeIndex(parameters, index);
      if relative >= IntArgumentCount {
        var stackIndex := GetStackArgumentIndex(parameters, index);
        source := FrameMemory(StackEntrySize * (StackOffset + stackIndex + 1));
      } else {
        source := RegisterExplicit(IntArgument(relative).value);
      }
    }
  }

  /** Where the callee finds an argument is never one of the argument slots the copies write. */
  lemma SourceAboveSlots(parameters: seq<TypeId>, index: nat)
    requires index < |parameters|
    ensures ArgumentSource(parameters, index).FrameMemory? ==> ArgumentSource(parameters, index).offset > 0
  {
  }

  /** A location the argument copies never write: a machine register or a slot above the frame base. */
  predicate AboveFrame(v: Variable) {
    v.RegisterExplicit? || (v.FrameMemory? && v.offset > 0)
  }

  /** The copy of one argument into its slot writes that slot and at most the integer spill register. */
  lemma LandOne(middle: Machine, source: Variable, slot: int) returns (after: Machine)
    requires AboveFrame(source) && slot < 0
    ensures Run(middle, MoveToStackFrame(source, slot)) == Some(after)
    ensures forall v :: AboveFrame(v) ==> after.Value(v) == middle.Value(v)
    ensures after.FrameValue(slot) == middle.Value(source)
    ensures forall o :: o != slot ==> after.FrameValue(o) == middle.FrameValue(o)
  {
    MoveToStackFrameStores(middle, source, slot);
    var carried := if source.FrameMemory? then middle.Write(Register(IntSpill), middle.Value(source)) else middle;
    after := carried.Write(FrameMemory(slot), middle.Value(source));
  }

  /**
   * The callee's copies leave every argument in its slot, and every place an argument was
   * found still holds it.
   */
  lemma {:induction false} ArgumentsLanded(m: Machine, parameters: seq<TypeId>, from: nat) returns (after: Machine)
    ensures Run(m, ArgumentsToFrameCode(parameters, from)) == Some(after)
    ensures forall j :: 0 <= j < |parameters| ==> after.Value(ArgumentSource(parameters, j)) == m.Value(ArgumentSource(parameters, j))
    ensures forall j :: from <= j < |parameters| ==> after.FrameValue(ArgumentStackOffset(j)) == m.Value(ArgumentSource(parameters, j))
    decreases |parameters| - from
  {
    if from >= |parameters| {
      after := m;
    } else {
      var middle := ArgumentsLanded(m, parameters, from + 1);
      SourceAboveSlots(parameters, from);
      after := LandOne(middle, ArgumentSource(parameters, from), ArgumentStackOffset(from));
      RunAppend(m, ArgumentsToFrameCode(parameters, from + 1), MoveToStackFrame(ArgumentSource(parameters, from), ArgumentStackOffset(from)));
      forall j | 0 <= j < |parameters|
        ensures after.Value(ArgumentSource(parameters, j)) == m.Value(ArgumentSource(parameters, j))
      {
        SourceAboveSlots(parameters, j);
      }
      forall j | from < j < |parameters|
        ensures after.FrameValue(ArgumentStackOffset(j)) == m.Value(ArgumentSource(parameters, j))
      {
        SlotsDecrease(0, 0, from, j);
      }
    }
  }

  // The caller's side: where each argument is put

  /** `call_function_argument`: a register argument is moved to its call register; any other is pushed. */
  function CallArgumentCode(parameters: seq<TypeId>, arguments: seq<Variable>, index: nat): seq<InstructionIR>
    requires index < |parameters| && index < |arguments|
  {
    if parameters[index] == Float32 then
      var relative := FloatRelativeIndexOf(parameters, index);
      if relative >= FloatArgumentCount then MoveToStack(arguments[index])
      else MoveToExplicit(arguments[index], FloatArgument(relative).value)
    else
      var relative := IntRelativeIndexOf(parameters, index);
      if relative >= IntArgumentCount then MoveToStack(arguments[index])
      else MoveToExplicit(arguments[index], IntArgument(relative).value)
  }

  /** The caller's argument code from index `from` on, last parameter first. */
  function CallArgumentsCode(parameters: seq<TypeId>, arguments: seq<Variable>, from: nat): seq<InstructionIR>
    requires |parameters| <= |arguments|
    decreases |parameters| - from
  {
    if from >= |parameters| then []
    else CallArgumentsCode(parameters, arguments, from + 1) + CallArgumentCode(parameters, arguments, from)
  }

  /** `call_function_argument`. */
  method CallFunctionArgument(parameters: seq<TypeId>, arguments: seq<Variable>, index: nat, buffer: InstructionBuffer)
    requires index < |parameters| && index < |arguments|
    modifies buffer
    ensures buffer.instructions == old(buffer.instructions) + CallArgumentCode(parameters, arguments, index)
  {
    if parameters[index] == Float32 {
      var relative := FloatRelativeIndex(parameters, index);
      if relative >= FloatArgumentCount {
        MoveToStackInto(arguments[index], buffer);
      } else {
        MoveToExplicitInto(arguments[index], FloatArgument(relative).value, buffer);
      }
    } else {
      var relative := IntRelativeIndex(parameters, index);
      if relative >= IntArgumentCount {
        MoveToStackInto(arguments[index], buffer);
      } else {
        MoveToExplicitInto(arguments[index], IntArgument(relative).value, buffer);
      }
    }
  }

  /** `call_function_arguments`: every argument, last parameter first. */
  method CallFunctionArguments(parameters: seq<TypeId>, arguments: seq<Variable>, buffer: InstructionBuffer)
    requires |parameters| <= |arguments|
    modifies buffer
    ensures buffer.instructions == old(buffer.instructions) + CallArgumentsCode(parameters, arguments, 0)
  {
    var index: nat := |parameters|;
    while index > 0
      invariant index <= |parameters|
      invariant buffer.instructions == old(buffer.instructions) + CallArgumentsCode(parameters, arguments, index)
    {
      index := index - 1;
      ghost var before := buffer.instructions;
      CallFunctionArgument(parameters, arguments, index, buffer);
      AppendArgument(old(buffer.instructions), before, parameters, arguments, index, buffer.instructions);
    }
  }

  /** Appending the code of argument `index` to the code of the arguments after it gives the code from `index` on. */
  lemma AppendArgument(start: seq<InstructionIR>, before: seq<InstructionIR>, parameters: seq<TypeId>, arguments: seq<Variable>,
                       index: nat, after: seq<InstructionIR>)
    requires index < |parameters| <= |arguments|
    requires before == start + CallArgumentsCode(parameters, arguments, index + 1)
    requires after == before + CallArgumentCode(parameters, arguments, index)
    ensures after == start + CallArgumentsCode(parameters, arguments, index)
  {
    assert CallArgumentsCode(parameters, arguments, index) ==
      CallArgumentsCode(parameters, arguments, index + 1) + CallArgumentCode(parameters, arguments, index);
  }

  /** The values the caller's code pushes for the arguments from index `from` on, the last parameter's first. */
  ghost function PushedValues(m: Machine, parameters: seq<TypeId>, arguments: seq<Variable>, from: nat): seq<int>
    requires |parameters| <= |arguments|
    decreases |parameters| - from
  {
    if from >= |parameters| then []
    else PushedValues(m, parameters, arguments, from + 1) + (if IsStackArgument(parameters, from) then [m.Value(arguments[from])] else [])
  }

  /** The caller's arguments are held where the argument code does not write: not in a machine register, not in the integer spill register. */
  predicate OutOfTheWay(arguments: seq<Variable>) {
    forall i :: 0 <= i < |arguments| ==> !arguments[i].RegisterExplicit? && arguments[i] != Register(IntSpill)
  }

  /** One argument's code: its call register gets its value, or its value is pushed; the arguments keep their values. */
  lemma CallArgumentMoves(m: Machine, parameters: seq<TypeId>, arguments: seq<Variable>, index: nat) returns (after: Machine)
    requires index < |parameters| <= |arguments| && OutOfTheWay(arguments)
    ensures Run(m, CallArgumentCode(parameters, arguments, index)) == Some(after)
    ensures forall j :: 0 <= j < |arguments| ==> after.Value(arguments[j]) == m.Value(arguments[j])
    ensures after.stack == m.stack + (if IsStackArgument(parameters, index) then [m.Value(arguments[index])] else [])
    ensures !IsStackArgument(parameters, index) ==>
      var register := GetCallRegister(parameters, index, parameters[index]).value;
      after.explicit == m.explicit[register := m.Value(arguments[index])]
    ensures IsStackArgument(parameters, index) ==> after.explicit == m.explicit
  {
    var v := arguments[index];
    if IsStackArgument(parameters, index) {
      assert CallArgumentCode(parameters, arguments, index) == MoveToStack(v);
      MoveToStackPushes(m, v);
      var carried := if v.FrameMemory? then m.Write(Register(IntSpill), m.Value(v)) else m;
      after := carried.(stack := m.stack + [m.Value(v)]);
    } else {
      var register := GetCallRegister(parameters, index, parameters[index]).value;
      assert CallArgumentCode(parameters, arguments, index) == MoveToExplicit(v, register);
      MoveToExplicitMoves(m, v, register);
      after := m.Write(RegisterExplicit(register), m.Value(v));
    }
  }

  /**
   * The caller's argument code puts every register argument in its call register and pushes the
   * stack arguments, the last parameter's first, leaving the arguments' own values in place.
   */
  lemma {:induction false} ArgumentsPassed(m: Machine, parameters: seq<TypeId>, arguments: seq<Variable>, from: nat) returns (after: Machine)
    requires |parameters| <= |arguments| && OutOfTheWay(arguments)
    ensures Run(m, CallArgumentsCode(parameters, arguments, from)) == Some(after)
    ensures forall j :: 0 <= j < |arguments| ==> after.Value(arguments[j]) == m.Value(arguments[j])
    ensures after.stack == m.stack + PushedValues(m, parameters, arguments, from)
    ensures CallRegistersHold(after, m, parameters, arguments, from)
    decreases |parameters| - from
  {
    if from >= |parameters| {
      after := m;
    } else {
      var middle := ArgumentsPassed(m, parameters, arguments, from + 1);
      RunAppend(m, CallArgumentsCode(parameters, arguments, from + 1), CallArgumentCode(parameters, arguments, from));
      after := ArgumentPassed(m, middle, parameters, arguments, from);
    }
  }

  /** The code of argument `from`, run after that of the later arguments, extends what they did by that argument. */
  lemma ArgumentPassed(m: Machine, middle: Machine, parameters: seq<TypeId>, arguments: seq<Variable>, from: nat) returns (after: Machine)
    requires from < |parameters| <= |arguments| && OutOfTheWay(arguments)
    requires forall j :: 0 <= j < |arguments| ==> middle.Value(arguments[j]) == m.Value(arguments[j])
    requires middle.stack == m.stack + PushedValues(m, parameters, arguments, from + 1)
    requires CallRegistersHold(middle, m, parameters, arguments, from + 1)
    ensures Run(middle, CallArgumentCode(parameters, arguments, from)) == Some(after)
    ensures forall j :: 0 <= j < |arguments| ==> after.Value(arguments[j]) == m.Value(arguments[j])
    ensures after.stack == m.stack + PushedValues(m, parameters, arguments, from)
    ensures CallRegistersHold(after, m, parameters, arguments, from)
  {
    after := CallArgumentMoves(middle, parameters, arguments, from);
    CallRegistersStep(m, middle, after, parameters, arguments, from);
    PushedStep(m, middle, after, parameters, arguments, from);
  }

  /** The code of argument `from` pushes its value, if it is a stack argument, after those of the later arguments. */
  lemma PushedStep(m: Machine, middle: Machine, after: Machine, parameters: seq<TypeId>, arguments: seq<Variable>, from: nat)
    requires from < |parameters| <= |arguments|
    requires middle.stack == m.stack + PushedValues(m, parameters, arguments, from + 1)
    requires middle.Value(arguments[from]) == m.Value(arguments[from])
    requires after.stack == middle.stack + (if IsStackArgument(parameters, from) then [middle.Value(arguments[from])] else [])
    ensures after.stack == m.stack + PushedValues(m, parameters, arguments, from)
  {
    var own := if IsStackArgument(parameters, from) then [m.Value(arguments[from])] else [];
    assert PushedValues(m, parameters, arguments, from) == PushedValues(m, parameters, arguments, from + 1) + own;
    assert after.stack == (m.stack + PushedValues(m, parameters, arguments, from + 1)) + own;
  }

  /** The call registers of the register arguments from `from` on hold the arguments' values in `m`. */
  ghost predicate CallRegistersHold(after: Machine, m: Machine, parameters: seq<TypeId>, arguments: seq<Variable>, from: nat)
    requires |parameters| <= |arguments|
  {
    forall j :: from <= j < |parameters| && !IsStackArgument(parameters, j) ==>
      after.ExplicitValue(GetCallRegister(parameters, j, parameters[j]).value) == m.Value(arguments[j])
  }

  /** The code of argument `from` fills its own call register and leaves those of the later arguments alone. */
  lemma CallRegistersStep(m: Machine, middle: Machine, after: Machine, parameters: seq<TypeId>, arguments: seq<Variable>, from: nat)
    requires from < |parameters| <= |arguments|
    requires CallRegistersHold(middle, m, parameters, arguments, from + 1)
    requires middle.Value(arguments[from]) == m.Value(arguments[from])
    requires IsStackArgument(parameters, from) ==> after.explicit == middle.explicit
    requires !IsStackArgument(parameters, from) ==>
      after.explicit == middle.explicit[GetCallRegister(parameters, from, parameters[from]).value := middle.Value(arguments[from])]
    ensures CallRegistersHold(after, m, parameters, arguments, from)
  {
    forall j | from < j < |parameters| && !IsStackArgument(parameters, j)
      ensures after.ExplicitValue(GetCallRegister(parameters, j, parameters[j]).value) == m.Value(arguments[j])
    {
      if !IsStackArgument(parameters, from) {
        CallRegistersApart(parameters, from, j);
      }
    }
  }

  /**
   * The caller's pushes and the callee's reads agree: counted from the top of the pushes, the
   * k-th value is the argument with k stack arguments before it, which the callee reads at
   * `16 + 8 * k` above its frame base.
   */
  lemma {:induction false} PushedInCalleeOrder(m: Machine, parameters: seq<TypeId>, arguments: seq<Variable>, from: nat, index: nat)
    requires |parameters| <= |arguments| && from <= index < |parameters| && IsStackArgument(parameters, index)
    ensures StackArgumentsBefore(parameters, from) <= StackArgumentsBefore(parameters, index) < StackArgumentsBefore(parameters, |parameters|)
    ensures var pushed := PushedValues(m, parameters, arguments, from);
      && |pushed| == StackArgumentsBefore(parameters, |parameters|) - StackArgumentsBefore(parameters, from)
      && pushed[|pushed| - 1 - (StackArgumentsBefore(parameters, index) - StackArgumentsBefore(parameters, from))] == m.Value(arguments[index])
    ensures ArgumentSource(parameters, index) == FrameMemory(16 + 8 * StackArgumentsBefore(parameters, index))
    decreases |parameters| - from
  {
    PushedLength(m, parameters, arguments, from);
    StackArgumentsGrow(parameters, from, index);
    StackArgumentsGrow(parameters, index + 1, |parameters|);
    if from < index {
      PushedInCalleeOrder(m, parameters, arguments, from + 1, index);
      PushedLength(m, parameters, arguments, from + 1);
      StackArgumentsGrow(parameters, from + 1, index);
    }
  }

  lemma {:induction false} PushedLength(m: Machine, parameters: seq<TypeId>, arguments: seq<Variable>, from: nat)
    requires |parameters| <= |arguments| && from <= |parameters|
    ensures |PushedValues(m, parameters, arguments, from)| == StackArgumentsBefore(parameters, |parameters|) - StackArgumentsBefore(parameters, from)
    ensures StackArgumentsBefore(parameters, from) <= StackArgumentsBefore(parameters, |parameters|)
    decreases |parameters| - from
  {
    if from < |parameters| {
      PushedLength(m, parameters, arguments, from + 1);
    }
  }

  lemma {:induction false} StackArgumentsGrow(parameters: seq<TypeId>, a: nat, b: nat)
    requires a <= b <= |parameters|
    ensures StackArgumentsBefore(parameters, a) <= StackArgumentsBefore(parameters, b)
    decreases b
  {
    if a < b {
      StackArgumentsGrow(parameters, a, b - 1);
    }
  }

  // Return values

  /** The register a value of the type is returned in; none for `Void`. */
  function ReturnRegister(returnType: TypeId): (r: Option<MachineRegister>)
    ensures r.None? <==> returnType == Void
    ensures returnType == Float32 ==> r == Some(FloatReturnValue)
    ensures returnType != Void && returnType != Float32 ==> r == Some(IntReturnValue)
  {
    match returnType
    case Void => None
    case Float32 => Some(FloatReturnValue)
    case _ => Some(IntReturnValue)
  }

  /** `make_return_value`: the callee moves its result into the return register. */
  function MakeReturnCode(returnType: TypeId, v: Variable): seq<InstructionIR> {
    match returnType
    case Void => []
    case Float32 => MoveToExplicit(v, FloatReturnValue)
    case _ => MoveToExplicit(v, IntReturnValue)
  }

  /** `handle_return_value`: the caller takes the result from the return register. */
  function HandleReturnCode(returnType: TypeId, v: Variable): seq<InstructionIR> {
    match returnType
    case Void => []
    case Float32 => MoveFromExplicit(v, FloatReturnValue)
    case _ => MoveFromExplicit(v, IntReturnValue)
  }

  method MakeReturnValue(returnType: TypeId, v: Variable, buffer: InstructionBuffer)
    modifies buffer
    ensures buffer.instructions == old(buffer.instructions) + MakeReturnCode(returnType, v)
  {
    match returnType
    case Void =>
    case Float32 => MoveToExplicitInto(v, FloatReturnValue, buffer);
    case _ => MoveToExplicitInto(v, IntReturnValue, buffer);
  }

  method HandleReturnValue(returnType: TypeId, v: Variable, buffer: InstructionBuffer)
    modifies buffer
    ensures buffer.instructions == old(buffer.instructions) + HandleReturnCode(returnType, v)
  {
    match returnType
    case Void =>
    case Float32 => MoveFromExplicitInto(v, FloatReturnValue, buffer);
    case _ => MoveFromExplicitInto(v, IntReturnValue, buffer);
  }

  /**
   * The result travels: the callee's move into the return register followed by the caller's move
   * out of it leaves the callee's value in the caller's variable. `Void` moves nothing.
   */
  lemma ResultTravels(m: Machine, returnType: TypeId, result: Variable, destination: Variable)
    ensures returnType == Void ==> MakeReturnCode(returnType, result) == [] && HandleReturnCode(returnType, destination) == []
    ensures returnType != Void ==>
      var r := ReturnRegister(returnType).value;
      var there := m.Write(RegisterExplicit(r), m.Value(result));
      Run(m, MakeReturnCode(returnType, result) + HandleReturnCode(returnType, destination)) ==
        Some(there.Write(destination, m.Value(result)))
  {
    if returnType != Void {
      var r := ReturnRegister(returnType).value;
      assert MakeReturnCode(returnType, result) == MoveToExplicit(result, r);
      assert HandleReturnCode(returnType, destination) == MoveFromExplicit(destination, r);
      RunAppend(m, MoveToExplicit(result, r), MoveFromExplicit(destination, r));
      MoveToExplicitMoves(m, result, r);
      MoveFromExplicitWrites(m.Write(RegisterExplicit(r), m.Value(result)), destination, r);
    }
  }
}
