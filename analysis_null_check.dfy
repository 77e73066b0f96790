/**
 * The older null-check analysis, over the older mid-level IR. Only a function of one block is
 * analysed: starting from the locals, all may-be-null, the status map is recorded before each
 * instruction and then updated by it. A function of several blocks gets an empty map for every
 * instruction, which the code generator reads as "every register may be null".
 */
module NullCheckAnalysis {
  import opened Wrappers
  import opened TypeIds
  import opened Mid
  import opened BasicBlocks
  import opened NullStatuses

  type RegisterStatus = Status<VirtualRegister>

  /** What an instruction does to the status map; loading a missing parameter fails. */
  function InstructionEffect(parameters: seq<TypeId>, d: MidData): Effect<VirtualRegister> {
    match d
    case Move(dest, source) =>
      if source.valueType.IsReference() && dest.valueType.IsReference() then CopyStatus(dest, source) else Keep
    case Call(_, result, _) =>
      if result.Some? && result.value.valueType.IsReference() then MayBeNull(result.value) else Keep
    case LoadArgument(index, dest) =>
      if index >= |parameters| then Fault
      else if parameters[index].IsReference() then MayBeNull(dest) else Keep
    case LoadNull(dest) => MayBeNull(dest)
    case NewArray(_, dest, _) => NonNull(dest)
    case LoadElement(_, dest, _, _) => if dest.valueType.IsReference() then MayBeNull(dest) else Keep
    case _ => Keep
  }

  predicate BlockInCode(code: seq<MidInstruction>, block: BasicBlock) {
    forall k :: 0 <= k < |block.instructions| ==> block.instructions[k] < |code|
  }

  /** The effects of a block's instructions, in block order. */
  function BlockEffects(parameters: seq<TypeId>, code: seq<MidInstruction>, block: BasicBlock): (r: seq<Effect<VirtualRegister>>)
    requires BlockInCode(code, block)
    ensures |r| == |block.instructions|
    ensures forall k :: 0 <= k < |r| ==> r[k] == InstructionEffect(parameters, code[block.instructions[k]].data)
  {
    seq(|block.instructions|, k requires 0 <= k < |block.instructions| => InstructionEffect(parameters, code[block.instructions[k]].data))
  }

  /** Every local may hold null, and nothing else has a status. */
  function InitialStatus(locals: seq<VirtualRegister>): (s: RegisterStatus)
    ensures forall r :: r in s <==> r in locals
    ensures forall r :: r in s ==> s[r]
  {
    map r | r in locals :: true
  }

  /** The statuses before each instruction of a block analysed from the locals; `None` when an instruction fails. */
  function ForBlock(parameters: seq<TypeId>, code: seq<MidInstruction>, locals: seq<VirtualRegister>, block: BasicBlock): (r: Option<seq<RegisterStatus>>)
    requires BlockInCode(code, block)
  {
    match Run(InitialStatus(locals), BlockEffects(parameters, code, block))
    case None => None
    case Some(x) => Some(x.statuses)
  }

  /** The analysis of a function: its one block, or no knowledge at all when it has several blocks (or none). */
  function NullCheckElision(parameters: seq<TypeId>, code: seq<MidInstruction>, locals: seq<VirtualRegister>, blocks: seq<BasicBlock>):
    (r: Option<seq<RegisterStatus>>)
    requires |blocks| == 1 ==> BlockInCode(code, blocks[0])
  {
    if |blocks| == 1 then ForBlock(parameters, code, locals, blocks[0])
    else Some(seq(|code|, _ => map[]))
  }

  /**
   * The status after one instruction: a reference move copies its source's status and fails when
   * the source has none, loading a parameter the function does not have fails, a new array is
   * non-null, and null loads and reference results of calls and element loads may be null.
   */
  method Transfer(parameters: seq<TypeId>, d: MidData, registerIsNull: RegisterStatus) returns (r: Option<RegisterStatus>)
    ensures r == Apply(InstructionEffect(parameters, d), registerIsNull)
  {
    r := Some(registerIsNull);
    if d.Move? {
      if d.source.valueType.IsReference() && d.dest.valueType.IsReference() {
        if d.source !in registerIsNull {
          return None;
        }
        r := Some(registerIsNull[d.dest := registerIsNull[d.source]]);
      }
    } else if d.Call? {
      if d.callResult.Some? && d.callResult.value.valueType.IsReference() {
        r := Some(registerIsNull[d.callResult.value := true]);
      }
    } else if d.LoadArgument? {
      if d.argument >= |parameters| {
        return None;
      }
      if parameters[d.argument].IsReference() {
        r := Some(registerIsNull[d.dest := true]);
      }
    } else if d.LoadNull? {
      r := Some(registerIsNull[d.dest := true]);
    } else if d.NewArray? {
      r := Some(registerIsNull[d.dest := false]);
    } else if d.LoadElement? {
      if d.dest.valueType.IsReference() {
        r := Some(registerIsNull[d.dest := true]);
      }
    }
  }

  /** Analyses the block: the locals start may-be-null, and a snapshot is taken before each instruction. */
  method ComputeForBlock(parameters: seq<TypeId>, code: seq<MidInstruction>, locals: seq<VirtualRegister>, block: BasicBlock)
    returns (r: Option<seq<RegisterStatus>>)
    requires BlockInCode(code, block)
    ensures r == ForBlock(parameters, code, locals, block)
  {
    var registerIsNull: RegisterStatus := map[];
    var i := 0;
    while i < |locals|
      invariant 0 <= i <= |locals|
      invariant registerIsNull == map x | x in locals[..i] :: true
    {
      assert locals[..i + 1] == locals[..i] + [locals[i]];
      registerIsNull := registerIsNull[locals[i] := true];
      i := i + 1;
    }
    assert locals[..i] == locals;
    ghost var start := registerIsNull;
    ghost var effects := BlockEffects(parameters, code, block);
    var instructionsStatus: seq<RegisterStatus> := [];
    var k := 0;
    while k < |block.instructions|
      invariant 0 <= k <= |block.instructions|
      invariant Run(start, effects[..k]) == Some(BlockResult(instructionsStatus, registerIsNull))
    {
      var instruction := code[block.instructions[k]];
      var next := Transfer(parameters, instruction.data, registerIsNull);
      assert next == Apply(effects[k], registerIsNull);
      if next.None? {
        assert effects[..k + 1][..k] == effects[..k];
        if Run(start, effects).Some? {
          RunPrefix(start, effects, k + 1);
        }
        return None;
      }
      RunStep(start, effects, k);
      instructionsStatus := instructionsStatus + [registerIsNull];
      registerIsNull := next.value;
      k := k + 1;
    }
    assert effects[..k] == effects;
    return Some(instructionsStatus);
  }

  /** The analysis of a function: its one block, or an empty map per instruction otherwise. */
  method ComputeNullCheckElision(parameters: seq<TypeId>, code: seq<MidInstruction>, locals: seq<VirtualRegister>, blocks: seq<BasicBlock>)
    returns (r: Option<seq<RegisterStatus>>)
    requires |blocks| == 1 ==> BlockInCode(code, blocks[0])
    ensures r == NullCheckElision(parameters, code, locals, blocks)
  {
    if |blocks| == 1 {
      r := ComputeForBlock(parameters, code, locals, blocks[0]);
    } else {
      var statuses: seq<RegisterStatus> := [];
      while |statuses| < |code|
        invariant |statuses| <= |code| && forall i :: 0 <= i < |statuses| ==> statuses[i] == map[]
      {
        statuses := statuses + [map[]];
      }
      assert statuses == seq(|code|, _ => map[]);
      r := Some(statuses);
    }
  }

  /** The code generator's reading of a status map: a register without a status may be null. */
  function CanBeNull(s: RegisterStatus, r: VirtualRegister): bool {
    if r in s then s[r] else true
  }

  /** With several blocks (or none) every instruction gets an empty map, so every register may be null everywhere. */
  lemma SeveralBlocksUnknown(parameters: seq<TypeId>, code: seq<MidInstruction>, locals: seq<VirtualRegister>, blocks: seq<BasicBlock>)
    requires |blocks| != 1
    ensures NullCheckElision(parameters, code, locals, blocks).Some?
    ensures |NullCheckElision(parameters, code, locals, blocks).value| == |code|
    ensures forall i, r :: 0 <= i < |code| ==>
      NullCheckElision(parameters, code, locals, blocks).value[i] == map[] && CanBeNull(NullCheckElision(parameters, code, locals, blocks).value[i], r)
  {
  }

  /**
   * For a function of one block, the map recorded for position `k` is the status once the
   * instructions before it have taken effect, the first one being the locals, all may-be-null;
   * the analysis gives a map only when no instruction fails.
   */
  lemma {:induction false} StatusBefore(parameters: seq<TypeId>, code: seq<MidInstruction>, locals: seq<VirtualRegister>, block: BasicBlock, k: nat)
    requires BlockInCode(code, block) && ForBlock(parameters, code, locals, block).Some? && k < |block.instructions|
    ensures |ForBlock(parameters, code, locals, block).value| == |block.instructions|
    ensures Run(InitialStatus(locals), BlockEffects(parameters, code, block)[..k]).Some?
    ensures ForBlock(parameters, code, locals, block).value[k] == Run(InitialStatus(locals), BlockEffects(parameters, code, block)[..k]).value.exit
    ensures k == 0 ==> ForBlock(parameters, code, locals, block).value[k] == InitialStatus(locals)
  {
    RunPrefix(InitialStatus(locals), BlockEffects(parameters, code, block), k);
  }

  /** An instruction fails only as a reference move from a register of unknown status or a load of a missing parameter. */
  lemma FaultsOnlyOnMoveOrArgument(parameters: seq<TypeId>, d: MidData, s: RegisterStatus)
    ensures Apply(InstructionEffect(parameters, d), s).None? <==>
      (d.Move? && d.source.valueType.IsReference() && d.dest.valueType.IsReference() && d.source !in s) ||
      (d.LoadArgument? && d.argument >= |parameters|)
  {
  }

  /** The analysis of the block fails exactly when some instruction it reaches fails. */
  lemma BlockFailure(parameters: seq<TypeId>, code: seq<MidInstruction>, locals: seq<VirtualRegister>, block: BasicBlock)
    requires BlockInCode(code, block)
    ensures ForBlock(parameters, code, locals, block).None? <==> exists k: nat :: FailsAt(InitialStatus(locals), BlockEffects(parameters, code, block), k)
  {
    RunFailure(InitialStatus(locals), BlockEffects(parameters, code, block));
  }

  /**
   * The rules for the written register: a new array is non-null; a null load, and a reference
   * produced by a call, an element load or a reference parameter, may be null; a
   * reference-to-reference move copies the source's status.
   */
  lemma TransferRules(parameters: seq<TypeId>, d: MidData, s: RegisterStatus)
    ensures d.NewArray? ==> Apply(InstructionEffect(parameters, d), s) == Some(s[d.dest := false])
    ensures d.LoadNull? ==> Apply(InstructionEffect(parameters, d), s) == Some(s[d.dest := true])
    ensures d.LoadElement? && d.dest.valueType.IsReference() ==> Apply(InstructionEffect(parameters, d), s) == Some(s[d.dest := true])
    ensures d.Call? && d.callResult.Some? && d.callResult.value.valueType.IsReference() ==>
      Apply(InstructionEffect(parameters, d), s) == Some(s[d.callResult.value := true])
    ensures d.LoadArgument? && d.argument < |parameters| && parameters[d.argument].IsReference() ==>
      Apply(InstructionEffect(parameters, d), s) == Some(s[d.dest := true])
    ensures d.Move? && d.source.valueType.IsReference() && d.dest.valueType.IsReference() && d.source in s ==>
      Apply(InstructionEffect(parameters, d), s) == Some(s[d.dest := s[d.source]])
  {
  }

  /** An instruction changes the status of the register it writes and of no other, and forgets no register. */
  lemma TransferOnlyTouchesDestination(parameters: seq<TypeId>, d: MidData, s: RegisterStatus)
    requires Apply(InstructionEffect(parameters, d), s).Some?
    ensures s.Keys <= Apply(InstructionEffect(parameters, d), s).value.Keys
    ensures forall r :: Some(r) != d.AssignRegister() && r in s ==> Apply(InstructionEffect(parameters, d), s).value[r] == s[r]
    ensures forall r :: Some(r) != d.AssignRegister() ==> (r in Apply(InstructionEffect(parameters, d), s).value <==> r in s)
  {
  }

  /** No instruction at positions `from` to `to - 1` of the block writes `x`. */
  predicate Unwritten(code: seq<MidInstruction>, block: BasicBlock, x: VirtualRegister, from: nat, to: nat)
    requires BlockInCode(code, block) && to <= |block.instructions|
  {
    forall m :: from <= m < to ==> code[block.instructions[m]].data.AssignRegister() != Some(x)
  }

  /**
   * Once a new array is stored in a register, every later instruction of the block sees that
   * register non-null, until an instruction writes the register again.
   */
  lemma {:induction false} NewArrayStaysNonNull(parameters: seq<TypeId>, code: seq<MidInstruction>, locals: seq<VirtualRegister>,
                                                block: BasicBlock, j: nat, k: nat)
    requires BlockInCode(code, block) && ForBlock(parameters, code, locals, block).Some?
    requires j < k < |block.instructions| && code[block.instructions[j]].data.NewArray?
    requires Unwritten(code, block, code[block.instructions[j]].data.dest, j + 1, k)
    ensures var x := code[block.instructions[j]].data.dest;
      x in ForBlock(parameters, code, locals, block).value[k] && !ForBlock(parameters, code, locals, block).value[k][x]
    decreases k
  {
    var start, effects := InitialStatus(locals), BlockEffects(parameters, code, block);
    var x := code[block.instructions[j]].data.dest;
    StatusBefore(parameters, code, locals, block, k);
    StatusBefore(parameters, code, locals, block, k - 1);
    var before := Run(start, effects[..k - 1]).value.exit;
    RunPrefix(start, effects, k);
    assert effects[..k][..k - 1] == effects[..k - 1];
    var d := code[block.instructions[k - 1]].data;
    TransferOnlyTouchesDestination(parameters, d, before);
    if k - 1 > j {
      NewArrayStaysNonNull(parameters, code, locals, block, j, k - 1);
    }
  }
}
