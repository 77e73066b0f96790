/**
 * The load-local peephole pass. Within each block, a move of a local into a temporary is
 * remembered as a pending load; an integer or float addition or subtraction reading such a
 * temporary reads the local directly instead, and the move is removed. Afterwards every
 * instruction that no block still holds is dropped from the function.
 *
 * The pass as the source writes it (`Step`) never forgets a pending load when the local is
 * overwritten (or the temporary is read or written elsewhere), so an addition after a store into
 * the local reads the new value. `CheckedStep` also drops the pending loads an instruction
 * invalidates; the methods here implement that version.
 */
module Peephole {
  import opened Wrappers
  import opened TypeIds
  import opened Mir
  import opened BasicBlocks

  /** A pending load: the local a temporary was loaded from, and the position of that load. */
  datatype Pending = Pending(local: RegisterMir, load: nat)

  /** The pending loads by temporary, and the positions of the loads to remove. */
  datatype LoadState = LoadState(loads: map<RegisterMir, Pending>, remove: set<nat>)

  /** The instructions whose operands the pass rewrites. */
  predicate IsArithmetic(d: MirData) {
    d.AddInt32? || d.SubInt32? || d.AddFloat32? || d.SubFloat32?
  }

  /** The same arithmetic instruction with other operands. */
  function WithOperands(d: MirData, op1: RegisterMir, op2: RegisterMir): (r: MirData)
    requires IsArithmetic(d)
    ensures IsArithmetic(r) && r.dest == d.dest && r.op1 == op1 && r.op2 == op2
    ensures r.AddInt32? == d.AddInt32? && r.SubInt32? == d.SubInt32? && r.AddFloat32? == d.AddFloat32?
  {
    if d.AddInt32? then AddInt32(d.dest, op1, op2)
    else if d.SubInt32? then SubInt32(d.dest, op1, op2)
    else if d.AddFloat32? then AddFloat32(d.dest, op1, op2)
    else SubFloat32(d.dest, op1, op2)
  }

  datatype Taken = Taken(operand: RegisterMir, state: LoadState)

  /** An operand with a pending load reads the local instead; the entry is consumed and its load marked for removal. */
  function TakeOperand(op: RegisterMir, s: LoadState): Taken {
    if op in s.loads then Taken(s.loads[op].local, LoadState(s.loads - {op}, s.remove + {s.loads[op].load}))
    else Taken(op, s)
  }

  /** An instruction after the pass, and the state after it. */
  datatype Rewritten = Rewritten(data: MirData, state: LoadState)

  /** One instruction at position `index`, as the source treats it. */
  function Step(locals: set<RegisterMir>, d: MirData, index: nat, s: LoadState): Rewritten {
    if d.Move? && d.source in locals then Rewritten(d, LoadState(s.loads[d.dest := Pending(d.source, index)], s.remove))
    else if d.Move? && d.dest in locals then Rewritten(d, LoadState(s.loads - {d.dest}, s.remove))
    else if IsArithmetic(d) then
      var first := TakeOperand(d.op1, s);
      var second := TakeOperand(d.op2, first.state);
      Rewritten(WithOperands(d, first.operand, second.operand), second.state)
    else Rewritten(d, s)
  }

  function Read(d: MirData): set<RegisterMir> {
    set r | r in d.UseRegisters()
  }

  function Written(d: MirData): set<RegisterMir> {
    if d.AssignRegister().Some? then {d.AssignRegister().value} else {}
  }

  /** The pending loads that survive an instruction reading `read` and writing `written`. */
  function Invalidate(loads: map<RegisterMir, Pending>, read: set<RegisterMir>, written: set<RegisterMir>): (r: map<RegisterMir, Pending>)
    ensures forall t :: t in r <==> t in loads && t !in read && t !in written && loads[t].local !in written
    ensures forall t :: t in r ==> r[t] == loads[t]
  {
    map t | t in loads && t !in read && t !in written && loads[t].local !in written :: loads[t]
  }

  /**
   * One instruction, forgetting every pending load the instruction invalidates: one whose
   * temporary it reads other than as a rewritten operand, and one whose temporary or local it
   * writes. A move of a local then records its load as before.
   */
  function CheckedStep(locals: set<RegisterMir>, d: MirData, index: nat, s: LoadState): Rewritten {
    if IsArithmetic(d) then
      var first := TakeOperand(d.op1, s);
      var second := TakeOperand(d.op2, first.state);
      Rewritten(WithOperands(d, first.operand, second.operand), LoadState(Invalidate(second.state.loads, {}, {d.dest}), second.state.remove))
    else
      var loads := Invalidate(s.loads, Read(d), Written(d));
      if d.Move? && d.source in locals then Rewritten(d, LoadState(loads[d.dest := Pending(d.source, index)], s.remove))
      else Rewritten(d, LoadState(loads, s.remove))
  }

  /** The pass as the source writes it, or with pending loads invalidated. */
  datatype Version = AsWritten | Checked

  function StepIn(version: Version, locals: set<RegisterMir>, d: MirData, index: nat, s: LoadState): Rewritten {
    if version.Checked? then CheckedStep(locals, d, index, s) else Step(locals, d, index, s)
  }

  predicate IndicesIn(indices: seq<nat>, n: nat) {
    forall k :: 0 <= k < |indices| ==> indices[k] < n
  }

  /** The code and the state part-way through a block. */
  datatype Pass = Pass(code: seq<InstructionMir>, state: LoadState)

  /** The block's first `k` instructions passed through the version's step, each rewritten in place. */
  function PassUpTo(version: Version, locals: set<RegisterMir>, code: seq<InstructionMir>, indices: seq<nat>, k: nat): (r: Pass)
    requires k <= |indices| && IndicesIn(indices, |code|)
    ensures |r.code| == |code|
    decreases k
  {
    if k == 0 then Pass(code, LoadState(map[], {}))
    else
      var previous := PassUpTo(version, locals, code, indices, k - 1);
      var i := indices[k - 1];
      var w := StepIn(version, locals, previous.code[i].data, i, previous.state);
      Pass(previous.code[i := InstructionMir(previous.code[i].index, w.data)], w.state)
  }


  /** The indices not marked for removal, in their order. */
  function Without(indices: seq<nat>, remove: set<nat>): (r: seq<nat>)
    ensures forall x :: x in r <==> x in indices && x !in remove
    ensures |r| <= |indices|
  {
    if |indices| == 0 then []
    else Without(indices[..|indices| - 1], remove) + (if indices[|indices| - 1] in remove then [] else [indices[|indices| - 1]])
  }

  /** The code after one block is passed, and the block without its removed loads. */
  datatype BlockPass = BlockPass(code: seq<InstructionMir>, block: BasicBlock)

  function PassBlock(version: Version, locals: set<RegisterMir>, code: seq<InstructionMir>, block: BasicBlock): (r: BlockPass)
    requires IndicesIn(block.instructions, |code|)
    ensures |r.code| == |code|
  {
    var p := PassUpTo(version, locals, code, block.instructions, |block.instructions|);
    BlockPass(p.code, BasicBlock(block.startOffset, Without(block.instructions, p.state.remove)))
  }

  predicate AllIn(blocks: seq<BasicBlock>, n: nat) {
    forall b :: 0 <= b < |blocks| ==> IndicesIn(blocks[b].instructions, n)
  }

  datatype Removal = Removal(code: seq<InstructionMir>, blocks: seq<BasicBlock>)

  /** The first `n` blocks passed in order, each over the code the earlier ones left. */
  function PassBlocks(version: Version, locals: set<RegisterMir>, code: seq<InstructionMir>, blocks: seq<BasicBlock>, n: nat): (r: Removal)
    requires n <= |blocks| && AllIn(blocks, |code|)
    ensures |r.code| == |code| && |r.blocks| == n
    decreases n
  {
    if n == 0 then Removal(code, [])
    else
      var previous := PassBlocks(version, locals, code, blocks, n - 1);
      var passed := PassBlock(version, locals, previous.code, blocks[n - 1]);
      Removal(passed.code, previous.blocks + [passed.block])
  }

  /** The instructions at the positions in `keep`, in their order. */
  function Retain(code: seq<InstructionMir>, keep: set<nat>): (r: seq<InstructionMir>)
    ensures |r| <= |code|
  {
    if |code| == 0 then []
    else Retain(code[..|code| - 1], keep) + (if |code| - 1 in keep then [code[|code| - 1]] else [])
  }

  /** The whole pass: every block in turn, then only the instructions some block still holds. */
  function LoadLocalRemoval(version: Version, locals: set<RegisterMir>, code: seq<InstructionMir>, blocks: seq<BasicBlock>): Removal
    requires AllIn(blocks, |code|)
  {
    var passed := PassBlocks(version, locals, code, blocks, |blocks|);
    Removal(Retain(passed.code, Held(passed.blocks)), passed.blocks)
  }

  /** The instruction positions the blocks hold. */
  function Held(blocks: seq<BasicBlock>): set<nat> {
    set i | i in Concat(blocks)
  }

  /** The instructions of a function's compiled form, which the pass rewrites in place, and its locals. */
  class CompilationResult {
    var instructions: seq<InstructionMir>
    var localVirtualRegisters: seq<RegisterMir>

    constructor (instructions: seq<InstructionMir>, localVirtualRegisters: seq<RegisterMir>)
      ensures this.instructions == instructions && this.localVirtualRegisters == localVirtualRegisters
    {
      this.instructions := instructions;
      this.localVirtualRegisters := localVirtualRegisters;
    }
  }

  /** One instruction of a block: its rewritten form, and the pending loads and removals after it. */
  method RewriteInstruction(localRegisters: set<RegisterMir>, data: MirData, instructionIndex: nat,
                            localLoadTarget: map<RegisterMir, Pending>, instructionsToRemove: set<nat>)
    returns (rewritten: MirData, loads: map<RegisterMir, Pending>, remove: set<nat>)
    ensures Rewritten(rewritten, LoadState(loads, remove)) ==
      CheckedStep(localRegisters, data, instructionIndex, LoadState(localLoadTarget, instructionsToRemove))
  {
    rewritten, loads, remove := data, localLoadTarget, instructionsToRemove;
    if IsArithmetic(data) {
      var op1, op2 := data.op1, data.op2;
      if op1 in loads {
        var entry := loads[op1];
        loads := loads - {op1};
        op1 := entry.local;
        remove := remove + {entry.load};
      }
      if op2 in loads {
        var entry := loads[op2];
        loads := loads - {op2};
        op2 := entry.local;
        remove := remove + {entry.load};
      }
      rewritten := WithOperands(data, op1, op2);
      loads := Invalidate(loads, {}, {data.dest});
    } else {
      loads := Invalidate(loads, Read(data), Written(data));
      if data.Move? && data.source in localRegisters {
        loads := loads[data.dest := Pending(data.source, instructionIndex)];
      }
    }
  }

  /** Passes block `b`: rewrites its arithmetic operands in place and drops its removed loads from the block. */
  method RemoveLoadLocalForBlock(result: CompilationResult, localRegisters: set<RegisterMir>, blocks: array<BasicBlock>, b: nat)
    requires b < blocks.Length && IndicesIn(blocks[b].instructions, |result.instructions|)
    modifies result, blocks
    ensures var passed := PassBlock(Checked, localRegisters, old(result.instructions), old(blocks[b]));
      result.instructions == passed.code && blocks[b] == passed.block
    ensures forall c :: 0 <= c < blocks.Length && c != b ==> blocks[c] == old(blocks[c])
    ensures result.localVirtualRegisters == old(result.localVirtualRegisters)
  {
    var block := blocks[b];
    ghost var code := result.instructions;
    var localLoadTarget: map<RegisterMir, Pending> := map[];
    var instructionsToRemove: set<nat> := {};
    var k := 0;
    while k < |block.instructions|
      invariant 0 <= k <= |block.instructions| && |result.instructions| == |code|
      invariant PassUpTo(Checked, localRegisters, code, block.instructions, k) ==
        Pass(result.instructions, LoadState(localLoadTarget, instructionsToRemove))
      invariant result.localVirtualRegisters == old(result.localVirtualRegisters) && unchanged(blocks)
    {
      var instructionIndex := block.instructions[k];
      var instruction := result.instructions[instructionIndex];
      var data;
      data, localLoadTarget, instructionsToRemove := RewriteInstruction(localRegisters, instruction.data, instructionIndex, localLoadTarget, instructionsToRemove);
      result.instructions := result.instructions[instructionIndex := InstructionMir(instruction.index, data)];
      k := k + 1;
    }
    var kept := KeepUnremoved(block.instructions, instructionsToRemove);
    blocks[b] := BasicBlock(block.startOffset, kept);
  }

  /** The block's `retain`: the indices not marked for removal. */
  method KeepUnremoved(indices: seq<nat>, remove: set<nat>) returns (kept: seq<nat>)
    ensures kept == Without(indices, remove)
  {
    kept := [];
    var i := 0;
    while i < |indices|
      invariant 0 <= i <= |indices| && kept == Without(indices[..i], remove)
    {
      assert indices[..i + 1][..i] == indices[..i];
      if indices[i] !in remove {
        kept := kept + [indices[i]];
      }
      i := i + 1;
    }
    assert indices[..i] == indices;
  }

  /** The function's `retain`: the instructions at the positions in `keep`. */
  method RetainInstructions(instructions: seq<InstructionMir>, keep: set<nat>) returns (kept: seq<InstructionMir>)
    ensures kept == Retain(instructions, keep)
  {
    kept := [];
    var index := 0;
    while index < |instructions|
      invariant 0 <= index <= |instructions| && kept == Retain(instructions[..index], keep)
    {
      assert instructions[..index + 1][..index] == instructions[..index];
      if index in keep {
        kept := kept + [instructions[index]];
      }
      index := index + 1;
    }
    assert instructions[..index] == instructions;
  }

  /** The whole pass over a function: each block in order, then only the instructions the blocks still hold. */
  method RemoveLoadLocal(result: CompilationResult, blocks: array<BasicBlock>)
    requires AllIn(blocks[..], |result.instructions|)
    modifies result, blocks
    ensures var removal := LoadLocalRemoval(Checked, set r | r in old(result.localVirtualRegisters), old(result.instructions), old(blocks[..]));
      result.instructions == removal.code && blocks[..] == removal.blocks
  {
    var localRegisters := set r | r in result.localVirtualRegisters;
    ghost var code, original := result.instructions, blocks[..];
    var b := 0;
    while b < blocks.Length
      invariant 0 <= b <= blocks.Length && |result.instructions| == |code|
      invariant result.localVirtualRegisters == old(result.localVirtualRegisters)
      invariant PassBlocks(Checked, localRegisters, code, original, b) == Removal(result.instructions, blocks[..b])
      invariant forall c :: b <= c < blocks.Length ==> blocks[c] == original[c]
    {
      ghost var done := blocks[..b];
      assert blocks[b] == original[b];
      RemoveLoadLocalForBlock(result, localRegisters, blocks, b);
      assert blocks[..b] == done;
      assert PassBlocks(Checked, localRegisters, code, original, b + 1) == Removal(result.instructions, done + [blocks[b]]);
      assert blocks[..b + 1] == done + [blocks[b]];
      b := b + 1;
    }
    assert blocks[..b] == blocks[..];
    var linear := Linearize(blocks[..]);
    var validInstructions := set i | i in linear;
    result.instructions := RetainInstructions(result.instructions, validInstructions);
  }

  // What the pass promises

  /** The instructions at the given positions, in their order. */
  function Pick(code: seq<InstructionMir>, positions: seq<nat>): (r: seq<InstructionMir>)
    requires forall j :: 0 <= j < |positions| ==> positions[j] < |code|
    ensures |r| == |positions| && forall j :: 0 <= j < |positions| ==> r[j] == code[positions[j]]
  {
    seq(|positions|, j requires 0 <= j < |positions| => code[positions[j]])
  }

  /** The function's `retain` keeps exactly the instructions at the kept positions, in ascending order. */
  lemma {:induction false} RetainPicks(code: seq<InstructionMir>, keep: set<nat>)
    ensures Retain(code, keep) == Pick(code, Below(keep, |code|))
    decreases |code|
  {
    if |code| > 0 {
      var n := |code| - 1;
      RetainPicks(code[..n], keep);
      var earlier := Pick(code[..n], Below(keep, n));
      assert earlier == Pick(code, Below(keep, n));
      if n in keep {
        assert Pick(code, Below(keep, n + 1)) == earlier + [code[n]];
      } else {
        assert Pick(code, Below(keep, n + 1)) == earlier;
      }
    }
  }

  /** The positions of a function of `n` instructions, in order. */
  function Positions(n: nat): (r: seq<nat>)
    ensures |r| == n && forall i :: 0 <= i < n ==> r[i] == i
  {
    seq(n, i => i)
  }

  /** With nothing marked, every position is kept. */
  lemma {:induction false} UnremovedNone(n: nat)
    ensures Unremoved(n, {}) == Positions(n)
  {
    if n > 0 {
      UnremovedNone(n - 1);
      assert Positions(n - 1) + [n - 1] == Positions(n);
    }
  }

  /** Picking every position gives the code back. */
  lemma PickAll(code: seq<InstructionMir>)
    ensures Pick(code, Positions(|code|)) == code
  {
  }

  /** The one block of a straight-line function of `n` instructions. */
  function WholeBlock(n: nat): (r: seq<BasicBlock>)
    ensures AllIn(r, n) && |r| == 1 && r[0].instructions == Positions(n)
  {
    [BasicBlock(0, Positions(n))]
  }

  /**
   * On a straight-line function, the pass keeps, in order, exactly the passed instructions whose
   * positions it has not marked for removal.
   */
  lemma OneBlockRemoval(version: Version, locals: set<RegisterMir>, code: seq<InstructionMir>)
    ensures var passed := PassUpTo(version, locals, code, Positions(|code|), |code|);
      LoadLocalRemoval(version, locals, code, WholeBlock(|code|)).code == Pick(passed.code, Unremoved(|code|, passed.state.remove))
  {
    var n := |code|;
    var passed := PassUpTo(version, locals, code, Positions(n), n);
    var removal := PassBlocks(version, locals, code, WholeBlock(n), 1);
    assert removal.code == passed.code;
    var kept := Without(Positions(n), passed.state.remove);
    assert removal.blocks == [BasicBlock(0, kept)];
    assert Concat(removal.blocks) == kept by {
      assert removal.blocks[..0] == [];
    }
    var keep := Kept(n, passed.state.remove);
    forall x: nat ensures x in kept <==> x in keep {
      if x < n {
        assert Positions(n)[x] == x;
      }
    }
    assert Held(removal.blocks) == keep;
    assert LoadLocalRemoval(version, locals, code, WholeBlock(n)).code == Retain(passed.code, keep);
    RetainPicks(passed.code, keep);
    UnremovedInOrder(passed.state.remove, n, n);
  }

  function Kept(n: nat, remove: set<nat>): set<nat> {
    set i | 0 <= i < n && i !in remove
  }

  /** The positions below `n` not in `remove`, in ascending order. */
  function Unremoved(n: nat, remove: set<nat>): (r: seq<nat>)
    ensures forall j :: 0 <= j < |r| ==> r[j] < n
  {
    if n == 0 then [] else Unremoved(n - 1, remove) + (if n - 1 in remove then [] else [n - 1])
  }

  lemma {:induction false} UnremovedInOrder(remove: set<nat>, n: nat, m: nat)
    requires m <= n
    ensures Below(Kept(n, remove), m) == Unremoved(m, remove)
    decreases m
  {
    if m > 0 {
      UnremovedInOrder(remove, n, m - 1);
    }
  }

  predicate Distinct(indices: seq<nat>) {
    forall a, b :: 0 <= a < b < |indices| ==> indices[a] != indices[b]
  }

  /** The instructions of a block, in block order. */
  function BlockData(code: seq<InstructionMir>, indices: seq<nat>): (r: seq<MirData>)
    requires IndicesIn(indices, |code|)
    ensures |r| == |indices| && forall m :: 0 <= m < |indices| ==> r[m] == code[indices[m]].data
  {
    seq(|indices|, m requires 0 <= m < |indices| => code[indices[m]].data)
  }

  /**
   * Either version changes only the operands of arithmetic instructions of the block it has
   * passed: every other instruction, and every instruction outside the block's first `k`
   * positions, is as it was.
   */
  lemma {:induction false} PassOnlyRewritesOperands(version: Version, locals: set<RegisterMir>, code: seq<InstructionMir>, indices: seq<nat>, k: nat)
    requires k <= |indices| && IndicesIn(indices, |code|)
    ensures var passed := PassUpTo(version, locals, code, indices, k).code;
      forall i :: 0 <= i < |code| ==>
        (i !in indices[..k] || !IsArithmetic(code[i].data) ==> passed[i] == code[i]) &&
        (IsArithmetic(code[i].data) ==>
           passed[i].index == code[i].index && IsArithmetic(passed[i].data) &&
           passed[i].data == WithOperands(code[i].data, passed[i].data.op1, passed[i].data.op2))
    decreases k
  {
    if k > 0 {
      var previous := PassUpTo(version, locals, code, indices, k - 1);
      PassOnlyRewritesOperands(version, locals, code, indices, k - 1);
      StepRewritesOperands(version, locals, previous.code[indices[k - 1]].data, indices[k - 1], previous.state);
      assert indices[..k] == indices[..k - 1] + [indices[k - 1]];
    }
  }

  /** A step rewrites only the operands of an arithmetic instruction. */
  lemma StepRewritesOperands(version: Version, locals: set<RegisterMir>, d: MirData, index: nat, s: LoadState)
    ensures var r := StepIn(version, locals, d, index, s).data;
      (!IsArithmetic(d) ==> r == d) && (IsArithmetic(d) ==> IsArithmetic(r) && r == WithOperands(d, r.op1, r.op2))
  {
  }

  /** The pass over the first `k` instructions of a straight-line function has reached `before`. */
  predicate Reached(version: Version, locals: set<RegisterMir>, code: seq<InstructionMir>, k: nat, before: Pass) {
    k <= |code| && PassUpTo(version, locals, code, Positions(|code|), k) == before
  }

  /** Before the first instruction, nothing is pending or marked. */
  lemma PassStarts(version: Version, locals: set<RegisterMir>, code: seq<InstructionMir>)
    ensures Reached(version, locals, code, 0, Pass(code, LoadState(map[], {})))
  {
  }

  /** Once the pass is known to its end, the removal keeps the instructions at the unmarked positions. */
  lemma RemovalKeeps(version: Version, locals: set<RegisterMir>, code: seq<InstructionMir>, after: Pass, kept: seq<nat>)
    requires Reached(version, locals, code, |code|, after) && Unremoved(|code|, after.state.remove) == kept
    ensures forall j :: 0 <= j < |kept| ==> kept[j] < |after.code|
    ensures LoadLocalRemoval(version, locals, code, WholeBlock(|code|)).code == Pick(after.code, kept)
  {
    OneBlockRemoval(version, locals, code);
  }

  /** The step over instruction `k`, from `before`, gives `after`. */
  predicate Advances(version: Version, locals: set<RegisterMir>, before: Pass, k: nat, after: Pass) {
    k < |before.code| &&
    var w := StepIn(version, locals, before.code[k].data, k, before.state);
    after == Pass(before.code[k := InstructionMir(before.code[k].index, w.data)], w.state)
  }

  /** One more step of the pass, from a known part-way result. */
  lemma PassAdvance(version: Version, locals: set<RegisterMir>, code: seq<InstructionMir>, k: nat, before: Pass, after: Pass)
    requires Reached(version, locals, code, k, before) && k < |code|
    requires Advances(version, locals, before, k, after)
    ensures Reached(version, locals, code, k + 1, after)
  {
  }

  /** No pending load is keyed by, or loaded from, any of `registers`, and none is keyed by `key`. */
  predicate Clear(loads: map<RegisterMir, Pending>, registers: set<RegisterMir>, key: set<RegisterMir>) {
    forall e :: e in loads ==> e !in registers && e !in key && loads[e].local !in registers
  }

  /** Instruction `k` moves a local into a temporary that no pending load involves. */
  predicate LoadsLocal(locals: set<RegisterMir>, before: Pass, k: nat, t: RegisterMir, x: RegisterMir) {
    k < |before.code| && before.code[k].data == Move(t, x) && x in locals && Clear(before.state.loads, {t}, {x})
  }

  /** Both versions record a move of a local into a fresh temporary as a pending load. */
  lemma PassRecordsLoad(version: Version, locals: set<RegisterMir>, code: seq<InstructionMir>, k: nat,
                        before: Pass, t: RegisterMir, x: RegisterMir)
    requires Reached(version, locals, code, k, before) && k < |code|
    requires LoadsLocal(locals, before, k, t, x)
    ensures Reached(version, locals, code, k + 1, Pass(before.code, LoadState(before.state.loads[t := Pending(x, k)], before.state.remove)))
  {
    var d := Move(t, x);
    assert Read(d) == {x} && Written(d) == {t};
    assert Invalidate(before.state.loads, Read(d), Written(d)) == before.state.loads;
    assert before.code[k := InstructionMir(before.code[k].index, d)] == before.code;
  }

  /** Instruction `k` is the arithmetic `d`, and no load left after its operands involves its destination. */
  predicate Adds(before: Pass, k: nat, d: MirData) {
    k < |before.code| && before.code[k].data == d && IsArithmetic(d) &&
    Clear(TakeOperand(d.op2, TakeOperand(d.op1, before.state).state).state.loads, {d.dest}, {})
  }

  /** Instruction `k`, the arithmetic `d`, with its pending operands taken, and the state after. */
  function Taking(before: Pass, k: nat, d: MirData): Pass
    requires k < |before.code| && IsArithmetic(d)
  {
    var first := TakeOperand(d.op1, before.state);
    var second := TakeOperand(d.op2, first.state);
    Pass(before.code[k := InstructionMir(before.code[k].index, WithOperands(d, first.operand, second.operand))], second.state)
  }

  /** Both versions let an arithmetic instruction take its pending operands. */
  lemma PassTakesOperands(version: Version, locals: set<RegisterMir>, code: seq<InstructionMir>, k: nat, before: Pass, d: MirData)
    requires Reached(version, locals, code, k, before) && k < |code|
    requires Adds(before, k, d)
    ensures Reached(version, locals, code, k + 1, Taking(before, k, d))
  {
    var second := TakeOperand(d.op2, TakeOperand(d.op1, before.state).state);
    assert Invalidate(second.state.loads, {}, {d.dest}) == second.state.loads;
  }


  /** Instruction `k` is `d`, neither arithmetic nor a load of a local, and no pending load involves it. */
  predicate Quiet(locals: set<RegisterMir>, before: Pass, k: nat, d: MirData) {
    k < |before.code| && before.code[k].data == d && !IsArithmetic(d) && !(d.Move? && d.source in locals) &&
    Clear(before.state.loads, Read(d) + Written(d), Written(d))
  }

  /** Both versions pass over an instruction that leaves every pending load alone. */
  lemma PassKeepsLoads(version: Version, locals: set<RegisterMir>, code: seq<InstructionMir>, k: nat, before: Pass, d: MirData)
    requires Reached(version, locals, code, k, before) && k < |code|
    requires Quiet(locals, before, k, d)
    ensures Reached(version, locals, code, k + 1, before)
  {
    assert Invalidate(before.state.loads, Read(d), Written(d)) == before.state.loads;
    assert d.Move? ==> before.state.loads - {d.dest} == before.state.loads;
    assert before.code[k := InstructionMir(before.code[k].index, d)] == before.code;
  }

  /** Under distinct indices, the step at position `k` sees the block's instruction as it was. */
  lemma StepSeesOriginal(version: Version, locals: set<RegisterMir>, code: seq<InstructionMir>, indices: seq<nat>, k: nat)
    requires k < |indices| && IndicesIn(indices, |code|) && Distinct(indices)
    ensures PassUpTo(version, locals, code, indices, k).code[indices[k]] == code[indices[k]]
  {
    PassOnlyRewritesOperands(version, locals, code, indices, k);
  }

  /** Every pending load names a move of its local into its temporary at an earlier position of the block. */
  predicate LoadsAreMoves(code: seq<InstructionMir>, indices: seq<nat>, k: nat, locals: set<RegisterMir>, loads: map<RegisterMir, Pending>)
    requires k <= |indices| && IndicesIn(indices, |code|)
  {
    forall t :: t in loads ==>
      loads[t].load in indices[..k] && code[loads[t].load].data == Move(t, loads[t].local) && loads[t].local in locals
  }

  /** Every position marked for removal is an earlier position of the block, holding a move from a local. */
  predicate RemovedAreMoves(code: seq<InstructionMir>, indices: seq<nat>, k: nat, locals: set<RegisterMir>, remove: set<nat>)
    requires k <= |indices| && IndicesIn(indices, |code|)
  {
    forall i :: i in remove ==> i in indices[..k] && code[i].data.Move? && code[i].data.source in locals
  }

  /** In both versions, every pending load is a move from a local the pass has seen. */
  lemma {:induction false} PassLoadsAreMoves(version: Version, locals: set<RegisterMir>, code: seq<InstructionMir>, indices: seq<nat>, k: nat)
    requires k <= |indices| && IndicesIn(indices, |code|) && Distinct(indices)
    ensures LoadsAreMoves(code, indices, k, locals, PassUpTo(version, locals, code, indices, k).state.loads)
    decreases k
  {
    if k > 0 {
      var previous := PassUpTo(version, locals, code, indices, k - 1);
      var d, index := code[indices[k - 1]].data, indices[k - 1];
      var after := StepIn(version, locals, d, index, previous.state).state;
      PassLoadsAreMoves(version, locals, code, indices, k - 1);
      StepSeesOriginal(version, locals, code, indices, k - 1);
      assert indices[..k] == indices[..k - 1] + [indices[k - 1]];
      forall t | t in after.loads
        ensures after.loads[t].load in indices[..k] && code[after.loads[t].load].data == Move(t, after.loads[t].local) && after.loads[t].local in locals
      {
        StepLoads(version, locals, d, index, previous.state, t);
      }
    }
  }

  /** In both versions, the pass only ever removes moves from locals of the block it passes. */
  lemma {:induction false} PassRemovesOnlyLoads(version: Version, locals: set<RegisterMir>, code: seq<InstructionMir>, indices: seq<nat>, k: nat)
    requires k <= |indices| && IndicesIn(indices, |code|) && Distinct(indices)
    ensures RemovedAreMoves(code, indices, k, locals, PassUpTo(version, locals, code, indices, k).state.remove)
    decreases k
  {
    if k > 0 {
      PassLoadsAreMoves(version, locals, code, indices, k - 1);
      PassRemovesOnlyLoads(version, locals, code, indices, k - 1);
      assert indices[..k] == indices[..k - 1] + [indices[k - 1]];
      forall i | i in PassUpTo(version, locals, code, indices, k).state.remove
        ensures i in indices[..k - 1] && code[i].data.Move? && code[i].data.source in locals
      {
        RemovedWasLoad(version, locals, code, indices, k, i);
      }
    }
  }

  /** A position the step at `k - 1` marks was pending or marked before it. */
  lemma RemovedWasLoad(version: Version, locals: set<RegisterMir>, code: seq<InstructionMir>, indices: seq<nat>, k: nat, i: nat)
    requires 0 < k <= |indices| && IndicesIn(indices, |code|) && Distinct(indices)
    requires var s := PassUpTo(version, locals, code, indices, k - 1).state;
      LoadsAreMoves(code, indices, k - 1, locals, s.loads) && RemovedAreMoves(code, indices, k - 1, locals, s.remove)
    requires i in PassUpTo(version, locals, code, indices, k).state.remove
    ensures i in indices[..k - 1] && code[i].data.Move? && code[i].data.source in locals
  {
    var previous := PassUpTo(version, locals, code, indices, k - 1);
    StepRemoves(version, locals, previous.code[indices[k - 1]].data, indices[k - 1], previous.state, i);
    if i !in previous.state.remove {
      var t :| t in previous.state.loads && previous.state.loads[t].load == i;
      assert code[i].data == Move(t, previous.state.loads[t].local);
    }
  }



  /** A step's pending loads are ones it kept, or the move from a local it records at `index`. */
  lemma StepLoads(version: Version, locals: set<RegisterMir>, d: MirData, index: nat, s: LoadState, t: RegisterMir)
    requires t in StepIn(version, locals, d, index, s).state.loads
    ensures var r := StepIn(version, locals, d, index, s).state.loads[t];
      (t in s.loads && r == s.loads[t]) || (d.Move? && d.source in locals && t == d.dest && r == Pending(d.source, index))
  {
  }

  /** A step marks for removal only the loads of pending entries. */
  lemma StepRemoves(version: Version, locals: set<RegisterMir>, d: MirData, index: nat, s: LoadState, i: nat)
    requires i in StepIn(version, locals, d, index, s).state.remove
    ensures i in s.remove || exists t :: t in s.loads && s.loads[t].load == i
  {
  }

  /** An instruction that neither reads a temporary nor writes it or the local it was loaded from. */
  predicate Untouched(d: MirData, t: RegisterMir, x: RegisterMir) {
    t !in Read(d) && t !in Written(d) && x !in Written(d)
  }

  /**
   * The checked step's pending loads are ones it kept, which the instruction leaves alone, or the
   * one it records at `index`.
   */
  lemma CheckedStepLoads(locals: set<RegisterMir>, d: MirData, index: nat, s: LoadState, t: RegisterMir)
    requires t in CheckedStep(locals, d, index, s).state.loads
    ensures var r := CheckedStep(locals, d, index, s).state.loads[t];
      (t in s.loads && r == s.loads[t] && Untouched(d, t, r.local)) || (d.Move? && t == d.dest && r == Pending(d.source, index))
  {
    if IsArithmetic(d) {
      assert Read(d) == {d.op1, d.op2} && Written(d) == {d.dest};
    }
  }

  /** Each pending load after an instruction was pending before it and left alone by it, or was recorded by it. */
  predicate KeepsOrRecords(before: map<RegisterMir, Pending>, after: map<RegisterMir, Pending>, d: MirData, index: nat) {
    forall t :: t in after ==> (t in before && after[t] == before[t] && Untouched(d, t, after[t].local)) || after[t].load == index
  }

  /** Along such a chain of pending loads, no instruction between a load and the current position touches the temporary or its local. */
  lemma {:induction false} ChainIsQuiet(loads: seq<map<RegisterMir, Pending>>, code: seq<InstructionMir>, indices: seq<nat>, k: nat,
                                        t: RegisterMir, x: RegisterMir, m: nat, q: nat)
    requires k < |loads| && k <= |indices| && IndicesIn(indices, |code|) && Distinct(indices) && m < q < k
    requires forall j :: 0 <= j < k ==> KeepsOrRecords(loads[j], loads[j + 1], code[indices[j]].data, indices[j])
    requires t in loads[k] && loads[k][t] == Pending(x, indices[m])
    ensures Untouched(code[indices[q]].data, t, x)
    decreases k
  {
    assert KeepsOrRecords(loads[k - 1], loads[k], code[indices[k - 1]].data, indices[k - 1]);
    if q < k - 1 {
      ChainIsQuiet(loads, code, indices, k - 1, t, x, m, q);
    }
  }

  /** The checked step's pending loads keep or record, as the chain requires. */
  lemma CheckedStepKeeps(locals: set<RegisterMir>, d: MirData, index: nat, s: LoadState)
    ensures KeepsOrRecords(s.loads, CheckedStep(locals, d, index, s).state.loads, d, index)
  {
    forall t | t in CheckedStep(locals, d, index, s).state.loads
      ensures var r := CheckedStep(locals, d, index, s).state.loads[t];
        (t in s.loads && r == s.loads[t] && Untouched(d, t, r.local)) || r.load == index
    {
      CheckedStepLoads(locals, d, index, s, t);
    }
  }

  /** The checked pass's pending loads after each of the block's first `k` instructions. */
  function CheckedLoads(locals: set<RegisterMir>, code: seq<InstructionMir>, indices: seq<nat>, k: nat): (r: seq<map<RegisterMir, Pending>>)
    requires k <= |indices| && IndicesIn(indices, |code|)
    ensures |r| == k + 1 && forall j :: 0 <= j <= k ==> r[j] == PassUpTo(Checked, locals, code, indices, j).state.loads
  {
    seq(k + 1, j requires 0 <= j <= k => PassUpTo(Checked, locals, code, indices, j).state.loads)
  }

  /** Consecutive pending loads of the checked pass keep or record. */
  lemma ChainLink(locals: set<RegisterMir>, code: seq<InstructionMir>, indices: seq<nat>, j: nat)
    requires j < |indices| && IndicesIn(indices, |code|) && Distinct(indices)
    ensures KeepsOrRecords(PassUpTo(Checked, locals, code, indices, j).state.loads, PassUpTo(Checked, locals, code, indices, j + 1).state.loads,
                           code[indices[j]].data, indices[j])
  {
    StepSeesOriginal(Checked, locals, code, indices, j);
    CheckedStepKeeps(locals, code[indices[j]].data, indices[j], PassUpTo(Checked, locals, code, indices, j).state);
  }

  /** The checked pass's pending loads form such a chain over the block's instructions. */
  lemma CheckedChain(locals: set<RegisterMir>, code: seq<InstructionMir>, indices: seq<nat>, k: nat)
    requires k <= |indices| && IndicesIn(indices, |code|) && Distinct(indices)
    ensures var loads := CheckedLoads(locals, code, indices, k);
      forall j :: 0 <= j < k ==> KeepsOrRecords(loads[j], loads[j + 1], code[indices[j]].data, indices[j])
  {
    var loads := CheckedLoads(locals, code, indices, k);
    forall j | 0 <= j < k ensures KeepsOrRecords(loads[j], loads[j + 1], code[indices[j]].data, indices[j]) {
      ChainLink(locals, code, indices, j);
    }
  }

  // The values registers hold

  function Get(env: map<RegisterMir, int>, r: RegisterMir): int {
    if r in env then env[r] else 0
  }

  /**
   * One instruction on the registers' values: constants, moves and integer additions and
   * subtractions are computed; any other instruction that writes a register writes `produced`.
   */
  function Execute(d: MirData, env: map<RegisterMir, int>, produced: int): map<RegisterMir, int> {
    match d
    case LoadInt32(dest, value) => env[dest := value]
    case Move(dest, source) => env[dest := Get(env, source)]
    case AddInt32(dest, op1, op2) => env[dest := Get(env, op1) + Get(env, op2)]
    case SubInt32(dest, op1, op2) => env[dest := Get(env, op1) - Get(env, op2)]
    case _ => if d.AssignRegister().Some? then env[d.AssignRegister().value := produced] else env
  }

  /** An instruction changes no register but the one it writes. */
  lemma ExecuteWritesOnlyDestination(d: MirData, env: map<RegisterMir, int>, produced: int, r: RegisterMir)
    requires r !in Written(d)
    ensures Get(Execute(d, env, produced), r) == Get(env, r)
  {
  }

  /** The registers' values before position `p` of a straight-line run. */
  function EnvAt(ds: seq<MirData>, env: map<RegisterMir, int>, produced: seq<int>, p: nat): map<RegisterMir, int>
    requires p <= |ds| == |produced|
  {
    if p == 0 then env else Execute(ds[p - 1], EnvAt(ds, env, produced, p - 1), produced[p - 1])
  }

  /** After a move, the temporary equals the local for as long as neither is written. */
  lemma {:induction false} QuietKeepsCopy(ds: seq<MirData>, env: map<RegisterMir, int>, produced: seq<int>, m: nat, p: nat, t: RegisterMir, x: RegisterMir)
    requires m < p <= |ds| == |produced| && ds[m] == Move(t, x)
    requires forall q :: m < q < p ==> t !in Written(ds[q]) && x !in Written(ds[q])
    ensures Get(EnvAt(ds, env, produced, p), t) == Get(EnvAt(ds, env, produced, p), x)
    decreases p
  {
    if p > m + 1 {
      QuietKeepsCopy(ds, env, produced, m, p - 1, t, x);
      ExecuteWritesOnlyDestination(ds[p - 1], EnvAt(ds, env, produced, p - 1), produced[p - 1], t);
      ExecuteWritesOnlyDestination(ds[p - 1], EnvAt(ds, env, produced, p - 1), produced[p - 1], x);
    }
  }

  /** In the checked version, no instruction between a pending load and the current position touches the temporary or its local. */
  lemma CheckedPendingIsQuiet(locals: set<RegisterMir>, code: seq<InstructionMir>, indices: seq<nat>, k: nat, t: RegisterMir, m: nat)
    requires k <= |indices| && IndicesIn(indices, |code|) && Distinct(indices)
    requires t in PassUpTo(Checked, locals, code, indices, k).state.loads
    requires m < k && indices[m] == PassUpTo(Checked, locals, code, indices, k).state.loads[t].load
    ensures forall q :: m < q < k ==> Untouched(code[indices[q]].data, t, PassUpTo(Checked, locals, code, indices, k).state.loads[t].local)
  {
    var loads := CheckedLoads(locals, code, indices, k);
    var x := PassUpTo(Checked, locals, code, indices, k).state.loads[t].local;
    CheckedChain(locals, code, indices, k);
    forall q | m < q < k ensures Untouched(code[indices[q]].data, t, x) {
      ChainIsQuiet(loads, code, indices, k, t, x, m, q);
    }
  }

  /** A pending load in the checked version holds the value of its local at the current position. */
  lemma PendingHoldsLocal(locals: set<RegisterMir>, code: seq<InstructionMir>, indices: seq<nat>, k: nat,
                          env: map<RegisterMir, int>, produced: seq<int>, t: RegisterMir)
    requires k <= |indices| == |produced| && IndicesIn(indices, |code|) && Distinct(indices)
    requires t in PassUpTo(Checked, locals, code, indices, k).state.loads
    ensures var e := EnvAt(BlockData(code, indices), env, produced, k);
      Get(e, t) == Get(e, PassUpTo(Checked, locals, code, indices, k).state.loads[t].local)
  {
    var ds := BlockData(code, indices);
    var entry := PassUpTo(Checked, locals, code, indices, k).state.loads[t];
    PassLoadsAreMoves(Checked, locals, code, indices, k);
    var m :| 0 <= m < k && indices[m] == entry.load;
    CheckedPendingIsQuiet(locals, code, indices, k, t, m);
    QuietKeepsCopy(ds, env, produced, m, k, t, entry.local);
  }

  /**
   * The checked pass is safe: in every execution of the block, each operand it rewrites reads,
   * at the rewritten instruction, the value the original operand held there.
   */
  lemma CheckedOperandsKeepValues(locals: set<RegisterMir>, code: seq<InstructionMir>, indices: seq<nat>, k: nat,
                                  env: map<RegisterMir, int>, produced: seq<int>)
    requires k < |indices| == |produced| && IndicesIn(indices, |code|) && Distinct(indices)
    requires IsArithmetic(code[indices[k]].data)
    ensures var d := code[indices[k]].data;
      var r := PassUpTo(Checked, locals, code, indices, k + 1).code[indices[k]].data;
      var e := EnvAt(BlockData(code, indices), env, produced, k);
      IsArithmetic(r) && r.dest == d.dest && Get(e, r.op1) == Get(e, d.op1) && Get(e, r.op2) == Get(e, d.op2)
  {
    var d := code[indices[k]].data;
    var s := PassUpTo(Checked, locals, code, indices, k).state;
    StepSeesOriginal(Checked, locals, code, indices, k);
    var first := TakeOperand(d.op1, s);
    var second := TakeOperand(d.op2, first.state);
    assert PassUpTo(Checked, locals, code, indices, k + 1).code[indices[k]].data == WithOperands(d, first.operand, second.operand);
    if d.op1 in s.loads {
      PendingHoldsLocal(locals, code, indices, k, env, produced, d.op1);
    }
    if d.op2 in first.state.loads {
      assert d.op2 in s.loads && first.state.loads[d.op2] == s.loads[d.op2];
      PendingHoldsLocal(locals, code, indices, k, env, produced, d.op2);
    }
  }
}
