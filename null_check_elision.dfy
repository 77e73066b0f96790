/**
 * Null-check elision over the mid-level IR of the later revision. For every instruction the
 * analysis gives a status map for the registers it knows: `true` if the register may hold null
 * there, `false` if it certainly holds an object reference, so the code generator may leave out
 * the null check before using it. A single block is analysed from the locals, all may-be-null.
 * With several blocks, the blocks are taken in order and each is analysed once from each
 * predecessor's exit status, the predecessors in the order its back edges are iterated; the
 * results are merged by an elementwise "or". A predecessor not yet analysed gives up on the whole
 * function, leaving every map empty (read as may-be-null by the code generator), and a failing
 * analysis met before it is a panic.
 *
 * The instruction set here has a few variants the analysed revision's table does not list (the
 * constant-operand, multiply/divide, Boolean and compare forms, instance calls and the stack-frame
 * dump); none of them writes a reference except `CallInstance`, treated like `Call`.
 */
module NullCheckElision {
  import opened Wrappers
  import opened TypeIds
  import opened Mir
  import opened BasicBlocks
  import opened ControlFlowGraphs
  import opened NullStatuses
  import opened Ranges

  type RegisterStatus = Status<RegisterMir>

  /** What an instruction does to the status map; loading a missing parameter fails. */
  function InstructionEffect(parameters: seq<TypeId>, d: MirData): Effect<RegisterMir> {
    match d
    case Move(dest, source) =>
      if source.valueType.IsReference() && dest.valueType.IsReference() then CopyStatus(dest, source) else Keep
    case Call(_, result, _) =>
      if result.Some? && result.value.valueType.IsReference() then MayBeNull(result.value) else Keep
    case CallInstance(_, result, _) =>
      if result.Some? && result.value.valueType.IsReference() then MayBeNull(result.value) else Keep
    case LoadArgument(index, dest) =>
      if index >= |parameters| then Fault
      else if parameters[index].IsReference() then MayBeNull(dest) else Keep
    case LoadNull(dest) => MayBeNull(dest)
    case NewArray(_, dest, _) => NonNull(dest)
    case LoadElement(_, dest, _, _) => if dest.valueType.IsReference() then MayBeNull(dest) else Keep
    case NewObject(_, dest) => NonNull(dest)
    case LoadField(_, _, dest, _) => if dest.valueType.IsReference() then MayBeNull(dest) else Keep
    case _ => Keep
  }

  predicate BlockInCode(code: seq<InstructionMir>, block: BasicBlock) {
    forall k :: 0 <= k < |block.instructions| ==> block.instructions[k] < |code|
  }

  /** The effects of a block's instructions, in block order. */
  function BlockEffects(parameters: seq<TypeId>, code: seq<InstructionMir>, block: BasicBlock): (r: seq<Effect<RegisterMir>>)
    requires BlockInCode(code, block)
    ensures |r| == |block.instructions|
    ensures forall k :: 0 <= k < |r| ==> r[k] == InstructionEffect(parameters, code[block.instructions[k]].data)
  {
    seq(|block.instructions|, k requires 0 <= k < |block.instructions| => InstructionEffect(parameters, code[block.instructions[k]].data))
  }

  /** Every local may hold null, and nothing else has a status. */
  function InitialStatus(locals: seq<RegisterMir>): (s: RegisterStatus)
    ensures forall r :: r in s <==> r in locals
    ensures forall r :: r in s ==> s[r]
  {
    map r | r in locals :: true
  }

  lemma RunStopsOnFailure(start: RegisterStatus, effects: seq<Effect<RegisterMir>>, k: nat)
    requires k <= |effects| && Run(start, effects[..k]).None?
    ensures Run(start, effects).None?
  {
    if Run(start, effects).Some? {
      RunPrefix(start, effects, k);
    }
  }

  /**
   * The status after one instruction: a reference move copies its source's status and fails when
   * the source has none, loading a parameter the function does not have fails, a new array or
   * object is non-null, and null loads and reference results of calls and loads may be null.
   */
  method Transfer(parameters: seq<TypeId>, d: MirData, registerIsNull: RegisterStatus) returns (r: Option<RegisterStatus>)
    ensures r == Apply(InstructionEffect(parameters, d), registerIsNull)
  {
    r := Some(registerIsNull);
    if d.Move? {
      if d.source.valueType.IsReference() && d.dest.valueType.IsReference() {
        if d.source !in registerIsNull {
          return None;
        }
        r := Some(registerIsNull[d.dest := registerIsNull[d.source]]);
      }
    } else if d.Call? || d.CallInstance? {
      if d.callResult.Some? && d.callResult.value.valueType.IsReference() {
        r := Some(registerIsNull[d.callResult.value := true]);
      }
    } else if d.LoadArgument? {
      if d.argument >= |parameters| {
        return None;
      }
      if parameters[d.argument].IsReference() {
        r := Some(registerIsNull[d.dest := true]);
      }
    } else if d.LoadNull? {
      r := Some(registerIsNull[d.dest := true]);
    } else if d.NewArray? || d.NewObject? {
      r := Some(registerIsNull[d.dest := false]);
    } else if d.LoadElement? || d.LoadField? {
      if d.dest.valueType.IsReference() {
        r := Some(registerIsNull[d.dest := true]);
      }
    }
  }

  /** Analyses one block from a given status: records the status before each instruction, then applies the instruction. */
  method ComputeForBlockInternal(parameters: seq<TypeId>, code: seq<InstructionMir>, block: BasicBlock, start: RegisterStatus)
    returns (r: Option<BlockResult<RegisterMir>>)
    requires BlockInCode(code, block)
    ensures r == Run(start, BlockEffects(parameters, code, block))
  {
    ghost var effects := BlockEffects(parameters, code, block);
    var statuses: seq<RegisterStatus> := [];
    var registerIsNull := start;
    var i := 0;
    while i < |block.instructions|
      invariant 0 <= i <= |block.instructions|
      invariant Run(start, effects[..i]) == Some(BlockResult(statuses, registerIsNull))
    {
      var instruction := code[block.instructions[i]];
      var next := Transfer(parameters, instruction.data, registerIsNull);
      assert next == Apply(effects[i], registerIsNull);
      if next.None? {
        assert effects[..i + 1][..i] == effects[..i];
        RunStopsOnFailure(start, effects, i + 1);
        return None;
      }
      RunStep(start, effects, i);
      statuses := statuses + [registerIsNull];
      registerIsNull := next.value;
      i := i + 1;
    }
    assert effects[..i] == effects;
    return Some(BlockResult(statuses, registerIsNull));
  }

  /** Analyses one block from the locals, every one of them may-be-null. */
  method ComputeForBlock(parameters: seq<TypeId>, code: seq<InstructionMir>, locals: seq<RegisterMir>, block: BasicBlock)
    returns (r: Option<BlockResult<RegisterMir>>)
    requires BlockInCode(code, block)
    ensures r == Run(InitialStatus(locals), BlockEffects(parameters, code, block))
  {
    var registerIsNull: RegisterStatus := map[];
    var i := 0;
    while i < |locals|
      invariant 0 <= i <= |locals|
      invariant registerIsNull == map x | x in locals[..i] :: true
    {
      assert locals[..i + 1] == locals[..i] + [locals[i]];
      registerIsNull := registerIsNull[locals[i] := true];
      i := i + 1;
    }
    assert locals[..i] == locals;
    r := ComputeForBlockInternal(parameters, code, block, registerIsNull);
  }

  /** Two statuses joined: every register either knows, may-be-null when either says so (a missing entry counts as non-null). */
  function Join(a: RegisterStatus, b: RegisterStatus): RegisterStatus {
    map x | x in a.Keys + b.Keys :: (x in a && a[x]) || (x in b && b[x])
  }

  /** Statuses joined in order, the first one taken as it is. */
  function MergeAll(inputs: seq<RegisterStatus>): RegisterStatus
    requires |inputs| > 0
    decreases |inputs|
  {
    if |inputs| == 1 then inputs[0] else Join(MergeAll(inputs[..|inputs| - 1]), inputs[|inputs| - 1])
  }

  /** The order-free merge of a set of statuses: a register is known if any knows it, and may be null if any says so. */
  ghost function MergeSet(inputs: set<RegisterStatus>): RegisterStatus {
    map x | x in KnownIn(inputs) :: exists s :: s in inputs && x in s && s[x]
  }

  /** The registers some status of the set knows. */
  ghost function KnownIn(inputs: set<RegisterStatus>): (r: set<RegisterMir>)
    ensures forall x :: x in r <==> exists s :: s in inputs && x in s
  {
    set s, y | s in inputs && y in s :: y
  }

  /** Merging keeps exactly the registers some input knows, and marks one may-be-null exactly when some input does. */
  lemma {:induction false} MergeAllMeaning(inputs: seq<RegisterStatus>)
    requires |inputs| > 0
    ensures forall x :: x in MergeAll(inputs) <==> exists i :: 0 <= i < |inputs| && x in inputs[i]
    ensures forall x :: x in MergeAll(inputs) ==> (MergeAll(inputs)[x] <==> exists i :: 0 <= i < |inputs| && x in inputs[i] && inputs[i][x])
    decreases |inputs|
  {
    if |inputs| > 1 {
      var n := |inputs|;
      var shorter := inputs[..n - 1];
      MergeAllMeaning(shorter);
      forall x ensures x in MergeAll(inputs) <==> exists i :: 0 <= i < n && x in inputs[i] {
        if x in MergeAll(shorter) {
          var i :| 0 <= i < n - 1 && x in shorter[i];
          assert x in inputs[i];
        }
      }
      forall x | x in MergeAll(inputs)
        ensures MergeAll(inputs)[x] <==> exists i :: 0 <= i < n && x in inputs[i] && inputs[i][x]
      {
        if x in MergeAll(shorter) && MergeAll(shorter)[x] {
          var i :| 0 <= i < n - 1 && x in shorter[i] && shorter[i][x];
          assert x in inputs[i] && inputs[i][x];
        }
        if exists i :: 0 <= i < n && x in inputs[i] && inputs[i][x] {
          var i :| 0 <= i < n && x in inputs[i] && inputs[i][x];
          if i < n - 1 {
            assert x in shorter[i] && shorter[i][x];
          }
        }
      }
    }
  }

  /** The order in which the inputs are joined does not matter: merging is the order-free merge of the inputs. */
  lemma MergeAllOrderFree(inputs: seq<RegisterStatus>)
    requires |inputs| > 0
    ensures MergeAll(inputs) == MergeSet(set i | 0 <= i < |inputs| :: inputs[i])
  {
    MergeAllMeaning(inputs);
    var all := set i | 0 <= i < |inputs| :: inputs[i];
    var merged := MergeSet(all);
    forall x ensures x in MergeAll(inputs) <==> x in merged {
      if x in MergeAll(inputs) {
        var i :| 0 <= i < |inputs| && x in inputs[i];
        assert inputs[i] in all;
      }
    }
    forall x | x in merged ensures MergeAll(inputs)[x] == merged[x] {
      if merged[x] {
        var s :| s in all && x in s && s[x];
        var i :| 0 <= i < |inputs| && s == inputs[i];
      }
      if MergeAll(inputs)[x] {
        var i :| 0 <= i < |inputs| && x in inputs[i] && inputs[i][x];
        assert inputs[i] in all;
      }
    }
  }

  /** Joins `b` into `a` one register of `b` at a time, as the merge loop does. */
  method JoinInto(a: RegisterStatus, b: RegisterStatus) returns (r: RegisterStatus)
    ensures r == Join(a, b)
  {
    r := a;
    var rest := b.Keys;
    while rest != {}
      invariant rest <= b.Keys
      invariant forall x :: x in r <==> x in a || (x in b && x !in rest)
      invariant forall x :: x in r ==> (r[x] <==> (x in a && a[x]) || (x in b && x !in rest && b[x]))
      decreases rest
    {
      var x :| x in rest;
      var current := if x in r then r[x] else false;
      r := r[x := b[x] || current];
      rest := rest - {x};
    }
    assert r.Keys == Join(a, b).Keys;
  }

  /** The statuses before instruction `k` in each of several results of the same block. */
  function Column(inputs: seq<seq<RegisterStatus>>, k: nat): (c: seq<RegisterStatus>)
    requires forall i :: 0 <= i < |inputs| ==> k < |inputs[i]|
    ensures |c| == |inputs|
  {
    seq(|inputs|, i requires 0 <= i < |inputs| => inputs[i][k])
  }

  predicate SameLength(inputs: seq<seq<RegisterStatus>>, n: nat) {
    forall i :: 0 <= i < |inputs| ==> |inputs[i]| == n
  }

  /** Several results of the same block merged instruction by instruction. */
  function MergeColumns(inputs: seq<seq<RegisterStatus>>, n: nat): (r: seq<RegisterStatus>)
    requires |inputs| > 0 && SameLength(inputs, n)
    ensures |r| == n
  {
    seq(n, k requires 0 <= k < n => MergeAll(Column(inputs, k)))
  }

  lemma ColumnStep(inputs: seq<seq<RegisterStatus>>, n: nat, i: nat, k: nat)
    requires 0 < i < |inputs| && SameLength(inputs, n) && k < n
    ensures MergeAll(Column(inputs[..i + 1], k)) == Join(MergeAll(Column(inputs[..i], k)), inputs[i][k])
  {
    assert Column(inputs[..i + 1], k)[..i] == Column(inputs[..i], k);
  }

  /**
   * Merges several analyses of one block: the first result is the starting point and every other
   * one is joined into it, instruction by instruction and for the exit status.
   */
  method MergeResults(instructions: seq<seq<RegisterStatus>>, registers: seq<RegisterStatus>)
    returns (finalInstructions: seq<RegisterStatus>, finalRegisters: RegisterStatus)
    requires |instructions| > 0 && |registers| > 0 && SameLength(instructions, |instructions[0]|)
    ensures finalInstructions == MergeColumns(instructions, |instructions[0]|)
    ensures finalRegisters == MergeAll(registers)
    ensures |instructions| == 1 ==> finalInstructions == instructions[0]
    ensures |registers| == 1 ==> finalRegisters == registers[0]
  {
    var n := |instructions[0]|;
    finalInstructions := instructions[0];
    assert finalInstructions == MergeColumns(instructions[..1], n);
    var i := 1;
    while i < |instructions|
      invariant 1 <= i <= |instructions|
      invariant finalInstructions == MergeColumns(instructions[..i], n)
    {
      var k := 0;
      while k < n
        invariant 0 <= k <= n && |finalInstructions| == n
        invariant forall j :: 0 <= j < k ==> finalInstructions[j] == MergeAll(Column(instructions[..i + 1], j))
        invariant forall j :: k <= j < n ==> finalInstructions[j] == MergeAll(Column(instructions[..i], j))
      {
        ColumnStep(instructions, n, i, k);
        var joined := JoinInto(finalInstructions[k], instructions[i][k]);
        finalInstructions := finalInstructions[k := joined];
        k := k + 1;
      }
      i := i + 1;
      assert finalInstructions == MergeColumns(instructions[..i], n);
    }
    assert instructions[..i] == instructions;

    finalRegisters := registers[0];
    var j := 1;
    while j < |registers|
      invariant 1 <= j <= |registers|
      invariant finalRegisters == MergeAll(registers[..j])
    {
      assert registers[..j + 1][..j] == registers[..j];
      finalRegisters := JoinInto(finalRegisters, registers[j]);
      j := j + 1;
    }
    assert registers[..j] == registers;
  }

  predicate BlocksInCode(code: seq<InstructionMir>, blocks: seq<BasicBlock>) {
    forall b :: 0 <= b < |blocks| ==> BlockInCode(code, blocks[b])
  }

  /*
   * The back edges of a block are read from a container that no file of the revision defines;
   * the analysis iterates it in whatever order it yields. Each block's back edges are therefore
   * given as a sequence, in that iteration order, and the model follows it.
   */

  /** The blocks the back edges of block `b` lead to: the blocks that jump or fall into it. */
  function Preds(backEdges: map<nat, seq<Edge>>, b: nat): set<nat>
    requires b in backEdges
  {
    set e | e in backEdges[b] :: e.to
  }

  /** The predecessors of block `b` in the order its back edges are iterated. */
  function Visit(backEdges: map<nat, seq<Edge>>, b: nat): (v: seq<nat>)
    requires b in backEdges
    ensures |v| == |backEdges[b]| && forall i :: 0 <= i < |v| ==> v[i] == backEdges[b][i].to
  {
    seq(|backEdges[b]|, i requires 0 <= i < |backEdges[b]| => backEdges[b][i].to)
  }

  /** The visit order lists exactly the predecessors. */
  lemma VisitedArePreds(backEdges: map<nat, seq<Edge>>, b: nat)
    requires b in backEdges
    ensures forall p :: p in Preds(backEdges, b) <==> p in Visit(backEdges, b)
  {
    var v := Visit(backEdges, b);
    forall p ensures p in Preds(backEdges, b) <==> p in v {
      if p in Preds(backEdges, b) {
        var e :| e in backEdges[b] && e.to == p;
        var i :| 0 <= i < |backEdges[b]| && backEdges[b][i] == e;
        assert v[i] == p;
      }
      if p in v {
        var i :| 0 <= i < |v| && v[i] == p;
        assert backEdges[b][i] in backEdges[b];
      }
    }
  }

  /** How the walk over a block's predecessors ends: all analysed, an unanalysed one met, or a failing analysis. */
  datatype Scan = Clear | MeetsUnprocessed | MeetsFailure

  /**
   * The walk over the predecessors in visit order, the block being number `|results|`: a
   * predecessor at or after the block gives up, and an analysis of the block from a
   * predecessor's exit status that fails is the panic; whichever comes first decides.
   */
  ghost function ScanPreds(visit: seq<nat>, results: seq<BlockResult<RegisterMir>>, effects: seq<Effect<RegisterMir>>): Scan {
    if visit == [] then Clear
    else if visit[0] >= |results| then MeetsUnprocessed
    else if Run(results[visit[0]].exit, effects).None? then MeetsFailure
    else ScanPreds(visit[1..], results, effects)
  }

  /** The predecessor is analysed already, and the block's analysis from its exit status succeeds. */
  ghost predicate Good(p: nat, results: seq<BlockResult<RegisterMir>>, effects: seq<Effect<RegisterMir>>) {
    p < |results| && Run(results[p].exit, effects).Some?
  }

  /** Every predecessor listed is good. */
  ghost predicate Clean(visit: seq<nat>, results: seq<BlockResult<RegisterMir>>, effects: seq<Effect<RegisterMir>>) {
    forall i :: 0 <= i < |visit| ==> Good(visit[i], results, effects)
  }

  /** The walk is clear exactly when every predecessor is analysed and analyses the block without failing. */
  lemma {:induction false} ClearMeaning(visit: seq<nat>, results: seq<BlockResult<RegisterMir>>, effects: seq<Effect<RegisterMir>>)
    ensures ScanPreds(visit, results, effects) == Clear <==> Clean(visit, results, effects)
  {
    if visit != [] {
      ClearMeaning(visit[1..], results, effects);
      if Clean(visit, results, effects) {
        CleanTail(visit, results, effects);
      }
      if Good(visit[0], results, effects) && Clean(visit[1..], results, effects) {
        CleanCons(visit[0], visit[1..], results, effects);
        assert [visit[0]] + visit[1..] == visit;
      }
    }
  }

  /** The `j`-th predecessor in visit order is not analysed yet, and every one before it is good. */
  ghost predicate UnprocessedAt(visit: seq<nat>, j: int, results: seq<BlockResult<RegisterMir>>, effects: seq<Effect<RegisterMir>>) {
    0 <= j < |visit| && Clean(visit[..j], results, effects) && visit[j] >= |results|
  }

  /** The analysis from the `j`-th predecessor in visit order fails, and every one before it is good. */
  ghost predicate FailureAt(visit: seq<nat>, j: int, results: seq<BlockResult<RegisterMir>>, effects: seq<Effect<RegisterMir>>) {
    0 <= j < |visit| && Clean(visit[..j], results, effects) && visit[j] < |results| && Run(results[visit[j]].exit, effects).None?
  }

  /**
   * The walk stops at an unanalysed predecessor exactly when one comes, in visit order, before
   * any predecessor whose analysis fails.
   */
  lemma {:induction false} UnprocessedMeaning(visit: seq<nat>, results: seq<BlockResult<RegisterMir>>, effects: seq<Effect<RegisterMir>>)
    ensures ScanPreds(visit, results, effects) == MeetsUnprocessed <==> exists j :: UnprocessedAt(visit, j, results, effects)
  {
    if visit != [] {
      var rest := visit[1..];
      UnprocessedMeaning(rest, results, effects);
      if exists j :: UnprocessedAt(visit, j, results, effects) {
        var j :| UnprocessedAt(visit, j, results, effects);
        if j > 0 {
          PrefixStep(visit, j, results, effects);
          assert UnprocessedAt(rest, j - 1, results, effects);
        }
      }
      if Good(visit[0], results, effects) && exists j :: UnprocessedAt(rest, j, results, effects) {
        var j :| UnprocessedAt(rest, j, results, effects);
        PrefixBack(visit, j + 1, results, effects);
        assert UnprocessedAt(visit, j + 1, results, effects);
      }
      if visit[0] >= |results| {
        assert UnprocessedAt(visit, 0, results, effects);
      }
    }
  }

  /**
   * The walk meets a failing analysis exactly when a predecessor whose analysis fails comes, in
   * visit order, before any unanalysed one.
   */
  lemma {:induction false} FailureMeaning(visit: seq<nat>, results: seq<BlockResult<RegisterMir>>, effects: seq<Effect<RegisterMir>>)
    ensures ScanPreds(visit, results, effects) == MeetsFailure <==> exists j :: FailureAt(visit, j, results, effects)
  {
    if visit != [] {
      var rest := visit[1..];
      FailureMeaning(rest, results, effects);
      if exists j :: FailureAt(visit, j, results, effects) {
        var j :| FailureAt(visit, j, results, effects);
        if j > 0 {
          PrefixStep(visit, j, results, effects);
          assert FailureAt(rest, j - 1, results, effects);
        }
      }
      if Good(visit[0], results, effects) && exists j :: FailureAt(rest, j, results, effects) {
        var j :| FailureAt(rest, j, results, effects);
        PrefixBack(visit, j + 1, results, effects);
        assert FailureAt(visit, j + 1, results, effects);
      }
      if visit[0] < |results| && Run(results[visit[0]].exit, effects).None? {
        assert FailureAt(visit, 0, results, effects);
      }
    }
  }

  /** A clean non-empty prefix starts with a good predecessor and continues with a clean prefix of the rest. */
  lemma PrefixStep(visit: seq<nat>, j: nat, results: seq<BlockResult<RegisterMir>>, effects: seq<Effect<RegisterMir>>)
    requires 0 < j <= |visit| && Clean(visit[..j], results, effects)
    ensures Good(visit[0], results, effects) && Clean(visit[1..][..j - 1], results, effects)
  {
    var prefix := visit[..j];
    var tail := visit[1..][..j - 1];
    assert prefix[0] == visit[0];
    forall i | 0 <= i < |tail| ensures Good(tail[i], results, effects) {
      assert tail[i] == prefix[i + 1];
    }
  }

  /** A good first predecessor followed by a clean prefix of the rest is a clean prefix. */
  lemma PrefixBack(visit: seq<nat>, j: nat, results: seq<BlockResult<RegisterMir>>, effects: seq<Effect<RegisterMir>>)
    requires 0 < j <= |visit| && Good(visit[0], results, effects) && Clean(visit[1..][..j - 1], results, effects)
    ensures Clean(visit[..j], results, effects)
  {
    var prefix := visit[..j];
    var tail := visit[1..][..j - 1];
    forall i | 0 <= i < |prefix| ensures Good(prefix[i], results, effects) {
      if i > 0 {
        assert prefix[i] == tail[i - 1];
      }
    }
  }

  lemma CleanTail(visit: seq<nat>, results: seq<BlockResult<RegisterMir>>, effects: seq<Effect<RegisterMir>>)
    requires visit != [] && Clean(visit, results, effects)
    ensures Clean(visit[1..], results, effects)
  {
    forall i | 0 <= i < |visit| - 1 ensures Good(visit[1..][i], results, effects) {
      assert visit[1..][i] == visit[i + 1];
    }
  }

  lemma CleanCons(p: nat, visit: seq<nat>, results: seq<BlockResult<RegisterMir>>, effects: seq<Effect<RegisterMir>>)
    requires Good(p, results, effects) && Clean(visit, results, effects)
    ensures Clean([p] + visit, results, effects)
  {
    forall i | 0 <= i < |visit| + 1 ensures Good(([p] + visit)[i], results, effects) {
      if i > 0 { assert ([p] + visit)[i] == visit[i - 1]; }
    }
  }

  /**
   * Whether the walk is clear does not depend on the visit order; only which of an unanalysed
   * and a failing predecessor is met first does.
   */
  lemma ClearOrderFree(v: seq<nat>, w: seq<nat>, results: seq<BlockResult<RegisterMir>>, effects: seq<Effect<RegisterMir>>)
    requires forall p :: p in v <==> p in w
    ensures ScanPreds(v, results, effects) == Clear <==> ScanPreds(w, results, effects) == Clear
  {
    ClearMeaning(v, results, effects);
    ClearMeaning(w, results, effects);
    if Clean(v, results, effects) {
      forall i | 0 <= i < |w| ensures Good(w[i], results, effects) {
        assert w[i] in v;
      }
    }
    if Clean(w, results, effects) {
      forall i | 0 <= i < |v| ensures Good(v[i], results, effects) {
        assert v[i] in w;
      }
    }
  }

  /**
   * The visit order decides between the panic and giving up: with block 0 analysed and block 1
   * being analysed, a predecessor 0 whose exit fails the block and the block itself as a
   * predecessor give the panic when 0 comes first and give up when 1 comes first.
   */
  lemma VisitOrderMatters(results: seq<BlockResult<RegisterMir>>, effects: seq<Effect<RegisterMir>>)
    requires |results| == 1 && Run(results[0].exit, effects).None?
    ensures ScanPreds([0, 1], results, effects) == MeetsFailure
    ensures ScanPreds([1, 0], results, effects) == MeetsUnprocessed
  {
  }

  /** The analysis of one block: it failed, met a predecessor not analysed yet, or gave a result. */
  datatype Step = Fails | Unprocessed | Computed(result: BlockResult<RegisterMir>)

  /** The statuses recorded before instruction `k` of a block by its analysis from each predecessor. */
  ghost function EntriesAt(preds: set<nat>, results: seq<BlockResult<RegisterMir>>, effects: seq<Effect<RegisterMir>>, k: nat): set<RegisterStatus>
    requires forall p :: p in preds ==> p < |results| && Run(results[p].exit, effects).Some?
    requires k < |effects|
  {
    set p | p in preds :: Run(results[p].exit, effects).value.statuses[k]
  }

  /** The exit statuses of a block's analysis from each predecessor. */
  ghost function ExitsOf(preds: set<nat>, results: seq<BlockResult<RegisterMir>>, effects: seq<Effect<RegisterMir>>): set<RegisterStatus>
    requires forall p :: p in preds ==> p < |results| && Run(results[p].exit, effects).Some?
  {
    set p | p in preds :: Run(results[p].exit, effects).value.exit
  }

  /** The analyses of a block from each predecessor's exit status, merged. */
  ghost function MergedResult(preds: set<nat>, results: seq<BlockResult<RegisterMir>>, effects: seq<Effect<RegisterMir>>): (r: BlockResult<RegisterMir>)
    requires forall p :: p in preds ==> p < |results| && Run(results[p].exit, effects).Some?
    ensures |r.statuses| == |effects|
    ensures forall k :: 0 <= k < |effects| ==> r.statuses[k] == MergeSet(EntriesAt(preds, results, effects, k))
    ensures r.exit == MergeSet(ExitsOf(preds, results, effects))
  {
    BlockResult(seq(|effects|, k requires 0 <= k < |effects| => MergeSet(EntriesAt(preds, results, effects, k))), MergeSet(ExitsOf(preds, results, effects)))
  }

  /**
   * Block `|results|` analysed after the blocks before it gave `results`. Without back edges it
   * starts from the locals. With them, its predecessors are walked in visit order: the first
   * that is not analysed yet stops the whole analysis, the first whose exit status fails the
   * block's analysis fails it, whichever comes first; otherwise the analyses are merged (an
   * empty list of predecessors leaves nothing to merge, which fails).
   */
  ghost function BlockStep(locals: seq<RegisterMir>, all: seq<seq<Effect<RegisterMir>>>, backEdges: map<nat, seq<Edge>>,
                           results: seq<BlockResult<RegisterMir>>): (s: Step)
    requires |results| < |all|
    ensures s.Computed? ==> |s.result.statuses| == |all[|results|]|
  {
    var b := |results|;
    var effects := all[b];
    if b !in backEdges then
      match Run(InitialStatus(locals), effects)
      case None => Fails
      case Some(x) => Computed(x)
    else
      var visit := Visit(backEdges, b);
      match ScanPreds(visit, results, effects)
      case MeetsFailure => Fails
      case MeetsUnprocessed => Unprocessed
      case Clear =>
        if visit == [] then Fails
        else
          ClearMeaning(visit, results, effects);
          VisitedArePreds(backEdges, b);
          assert forall p :: p in Preds(backEdges, b) ==> p < |results| && Run(results[p].exit, effects).Some? by {
            forall p | p in Preds(backEdges, b) ensures p < |results| && Run(results[p].exit, effects).Some? {
              var i :| 0 <= i < |visit| && visit[i] == p;
            }
          }
          Computed(MergedResult(Preds(backEdges, b), results, effects))
  }

  /** A block whose predecessors all come before it and all analyse it without failing gets their merged analysis. */
  lemma ForwardStep(locals: seq<RegisterMir>, all: seq<seq<Effect<RegisterMir>>>, backEdges: map<nat, seq<Edge>>,
                    results: seq<BlockResult<RegisterMir>>)
    requires |results| < |all| && |results| in backEdges && Preds(backEdges, |results|) != {}
    requires forall p :: p in Preds(backEdges, |results|) ==> p < |results| && Run(results[p].exit, all[|results|]).Some?
    ensures BlockStep(locals, all, backEdges, results) == Computed(MergedResult(Preds(backEdges, |results|), results, all[|results|]))
  {
    var b := |results|;
    var visit := Visit(backEdges, b);
    VisitedArePreds(backEdges, b);
    ClearMeaning(visit, results, all[b]);
    forall i | 0 <= i < |visit| ensures visit[i] < |results| && Run(results[visit[i]].exit, all[b]).Some? {
      assert visit[i] in Preds(backEdges, b);
    }
    var p :| p in Preds(backEdges, b);
    assert p in visit;
  }

  /**
   * A block with back edges fails exactly when it has no predecessor or, in visit order, a
   * predecessor whose analysis fails comes before any predecessor at or after the block; it
   * gives up exactly when such a predecessor comes first; otherwise it is computed.
   */
  lemma BlockStepMeaning(locals: seq<RegisterMir>, all: seq<seq<Effect<RegisterMir>>>, backEdges: map<nat, seq<Edge>>,
                         results: seq<BlockResult<RegisterMir>>)
    requires |results| < |all| && |results| in backEdges
    ensures BlockStep(locals, all, backEdges, results).Fails? <==>
      Visit(backEdges, |results|) == [] || exists j :: FailureAt(Visit(backEdges, |results|), j, results, all[|results|])
    ensures BlockStep(locals, all, backEdges, results).Unprocessed? <==>
      exists j :: UnprocessedAt(Visit(backEdges, |results|), j, results, all[|results|])
    ensures BlockStep(locals, all, backEdges, results).Computed? <==>
      Visit(backEdges, |results|) != [] && Clean(Visit(backEdges, |results|), results, all[|results|])
  {
    var visit := Visit(backEdges, |results|);
    ClearMeaning(visit, results, all[|results|]);
    UnprocessedMeaning(visit, results, all[|results|]);
    FailureMeaning(visit, results, all[|results|]);
  }

  /** How far the analysis of the blocks got: a failure, giving up on a cycle, or the results of the first blocks. */
  datatype Outcome = Panicked | AllUnknown | Running(results: seq<BlockResult<RegisterMir>>)

  /** One result per block analysed so far, each with a status per instruction of its block. */
  ghost predicate Shaped(all: seq<seq<Effect<RegisterMir>>>, results: seq<BlockResult<RegisterMir>>) {
    |results| <= |all| && forall b :: 0 <= b < |results| ==> |results[b].statuses| == |all[b]|
  }

  /** The outcome of taking `step` for each of the first `k` blocks in turn, each from the results before it. */
  ghost function Steps(step: seq<BlockResult<RegisterMir>> -> Step, k: nat): (o: Outcome)
    ensures o.Running? ==> |o.results| == k
  {
    if k == 0 then Running([])
    else
      match Steps(step, k - 1)
      case Running(results) =>
        (match step(results)
         case Fails => Panicked
         case Unprocessed => AllUnknown
         case Computed(x) => Running(results + [x]))
      case other => other
  }

  /** The block step as a function of the results so far; past the last block there is nothing to take. */
  ghost function StepOf(locals: seq<RegisterMir>, all: seq<seq<Effect<RegisterMir>>>, backEdges: map<nat, seq<Edge>>): seq<BlockResult<RegisterMir>> -> Step {
    results => if |results| < |all| then BlockStep(locals, all, backEdges, results) else Fails
  }

  /** A step that computes a result for a block gives it a status per instruction of the block. */
  lemma {:induction false} StepsShaped(locals: seq<RegisterMir>, all: seq<seq<Effect<RegisterMir>>>, backEdges: map<nat, seq<Edge>>, k: nat)
    requires k <= |all|
    ensures Steps(StepOf(locals, all, backEdges), k).Running? ==> Shaped(all, Steps(StepOf(locals, all, backEdges), k).results)
  {
    var step := StepOf(locals, all, backEdges);
    if k > 0 && Steps(step, k).Running? {
      LastStep(step, k);
      StepsShaped(locals, all, backEdges, k - 1);
      var previous := Steps(step, k - 1).results;
      var reached := Steps(step, k).results;
      assert BlockStep(locals, all, backEdges, previous) == Computed(reached[k - 1]);
      forall b | 0 <= b < k ensures |reached[b].statuses| == |all[b]| {
        if b < k - 1 {
          assert reached[b] == previous[b];
        }
      }
    }
  }

  /** The first `k` blocks analysed, in order, from the effects of every block's instructions. */
  ghost function ResultsUpTo(locals: seq<RegisterMir>, all: seq<seq<Effect<RegisterMir>>>, backEdges: map<nat, seq<Edge>>, k: nat): (o: Outcome)
    requires k <= |all|
    ensures o.Running? ==> |o.results| == k && Shaped(all, o.results)
  {
    StepsShaped(locals, all, backEdges, k);
    Steps(StepOf(locals, all, backEdges), k)
  }

  /** One empty map per instruction: nothing known, every reference may be null. */
  function Unknown(n: nat): (r: seq<RegisterStatus>)
    ensures |r| == n && forall i :: 0 <= i < n ==> r[i] == map[]
  {
    seq(n, _ => map[])
  }

  predicate IndicesIn(indices: seq<nat>, n: nat) {
    forall k :: 0 <= k < |indices| ==> indices[k] < n
  }

  /** `values[k]` written at position `indices[k]`, in order. */
  function Scatter(statuses: seq<RegisterStatus>, indices: seq<nat>, values: seq<RegisterStatus>): (r: seq<RegisterStatus>)
    requires |values| == |indices| && IndicesIn(indices, |statuses|)
    ensures |r| == |statuses|
    decreases |indices|
  {
    if |indices| == 0 then statuses
    else
      var n := |indices|;
      Scatter(statuses, indices[..n - 1], values[..n - 1])[indices[n - 1] := values[n - 1]]
  }

  /** One result per block so far, each with a status per instruction of its block. */
  predicate Fits(blocks: seq<BasicBlock>, results: seq<BlockResult<RegisterMir>>) {
    |results| <= |blocks| && forall b :: 0 <= b < |results| ==> |results[b].statuses| == |blocks[b].instructions|
  }

  /** Every result written at its block's instruction indices, block by block. */
  function ScatterAll(statuses: seq<RegisterStatus>, blocks: seq<BasicBlock>, results: seq<BlockResult<RegisterMir>>): (r: seq<RegisterStatus>)
    requires Fits(blocks, results) && forall b :: 0 <= b < |blocks| ==> IndicesIn(blocks[b].instructions, |statuses|)
    ensures |r| == |statuses|
    decreases |results|
  {
    if |results| == 0 then statuses
    else
      var n := |results|;
      Scatter(ScatterAll(statuses, blocks, results[..n - 1]), blocks[n - 1].instructions, results[n - 1].statuses)
  }

  /** The effects of every block's instructions, block by block. */
  function AllEffects(parameters: seq<TypeId>, code: seq<InstructionMir>, blocks: seq<BasicBlock>): (r: seq<seq<Effect<RegisterMir>>>)
    requires BlocksInCode(code, blocks)
    ensures |r| == |blocks| && forall b :: 0 <= b < |blocks| ==> |r[b]| == |blocks[b].instructions|
  {
    seq(|blocks|, b requires 0 <= b < |blocks| => BlockEffects(parameters, code, blocks[b]))
  }

  /** The status map before every instruction of the function, or `None` when the analysis fails. */
  ghost function NullCheckElision(parameters: seq<TypeId>, code: seq<InstructionMir>, locals: seq<RegisterMir>, blocks: seq<BasicBlock>,
                                  backEdges: map<nat, seq<Edge>>): Option<seq<RegisterStatus>>
    requires BlocksInCode(code, blocks)
  {
    if |blocks| == 1 then
      match Run(InitialStatus(locals), BlockEffects(parameters, code, blocks[0]))
      case None => None
      case Some(x) => Some(x.statuses)
    else BlockByBlock(parameters, code, locals, blocks, backEdges)
  }

  /** The analysis block by block, its results written at each block's instruction indices. */
  ghost function BlockByBlock(parameters: seq<TypeId>, code: seq<InstructionMir>, locals: seq<RegisterMir>, blocks: seq<BasicBlock>,
                              backEdges: map<nat, seq<Edge>>): Option<seq<RegisterStatus>>
    requires BlocksInCode(code, blocks)
  {
    match ResultsUpTo(locals, AllEffects(parameters, code, blocks), backEdges, |blocks|)
    case Panicked => None
    case AllUnknown => Some(Unknown(|code|))
    case Running(results) => Some(ScatterAll(Unknown(|code|), blocks, results))
  }

  /** Writes a block's statuses at its instruction indices. */
  method WriteBlock(statuses: seq<RegisterStatus>, indices: seq<nat>, values: seq<RegisterStatus>) returns (r: seq<RegisterStatus>)
    requires |values| == |indices| && IndicesIn(indices, |statuses|)
    ensures r == Scatter(statuses, indices, values)
  {
    r := statuses;
    var offset := 0;
    while offset < |indices|
      invariant 0 <= offset <= |indices|
      invariant r == Scatter(statuses, indices[..offset], values[..offset])
    {
      assert indices[..offset + 1][..offset] == indices[..offset];
      assert values[..offset + 1][..offset] == values[..offset];
      r := r[indices[offset] := values[offset]];
      offset := offset + 1;
    }
    assert indices[..offset] == indices && values[..offset] == values;
  }

  /** The merged result of the analyses from each predecessor, whatever the order they were gathered in. */
  lemma MergedMatches(preds: set<nat>, results: seq<BlockResult<RegisterMir>>, effects: seq<Effect<RegisterMir>>,
                      order: seq<nat>, instructions: seq<seq<RegisterStatus>>, registers: seq<RegisterStatus>)
    requires forall p :: p in preds ==> p < |results| && Run(results[p].exit, effects).Some?
    requires |order| > 0 && |instructions| == |order| == |registers|
    requires forall p :: p in preds <==> p in order
    requires forall j :: 0 <= j < |order| ==> order[j] in preds && instructions[j] == Run(results[order[j]].exit, effects).value.statuses
    requires forall j :: 0 <= j < |order| ==> registers[j] == Run(results[order[j]].exit, effects).value.exit
    ensures SameLength(instructions, |effects|)
    ensures MergedResult(preds, results, effects) == BlockResult(MergeColumns(instructions, |effects|), MergeAll(registers))
  {
    var n := |effects|;
    var merged := MergedResult(preds, results, effects);
    forall k | 0 <= k < n ensures merged.statuses[k] == MergeColumns(instructions, n)[k] {
      var column := Column(instructions, k);
      MergeAllOrderFree(column);
      var fromPreds := set p | p in preds :: Run(results[p].exit, effects).value.statuses[k];
      var fromColumn := set i | 0 <= i < |column| :: column[i];
      forall x ensures x in fromPreds <==> x in fromColumn {
        if x in fromPreds {
          var p :| p in preds && x == Run(results[p].exit, effects).value.statuses[k];
          var j :| 0 <= j < |order| && order[j] == p;
          assert column[j] == x;
        }
      }
      assert fromPreds == fromColumn;
    }
    MergeAllOrderFree(registers);
    var exits := set p | p in preds :: Run(results[p].exit, effects).value.exit;
    var fromRegisters := set i | 0 <= i < |registers| :: registers[i];
    forall x ensures x in exits <==> x in fromRegisters {
      if x in exits {
        var p :| p in preds && x == Run(results[p].exit, effects).value.exit;
        var j :| 0 <= j < |order| && order[j] == p;
        assert registers[j] == x;
      }
    }
    assert exits == fromRegisters;
  }

  /** The analyses of a block from its predecessors: one failed, a predecessor was not analysed yet, or all of them. */
  datatype Gathered = GatherFailed | GatherStopped | GatheredAll(instructions: seq<seq<RegisterStatus>>, registers: seq<RegisterStatus>)

  /**
   * Analyses block `b` from the exit status of each predecessor in visit order, stopping at the
   * first that is not analysed yet or whose run fails.
   */
  method GatherPredecessors(parameters: seq<TypeId>, code: seq<InstructionMir>, blocks: seq<BasicBlock>,
                            results: seq<BlockResult<RegisterMir>>, b: nat, visit: seq<nat>) returns (g: Gathered)
    requires BlocksInCode(code, blocks) && b == |results| < |blocks|
    ensures g.GatherFailed? <==> ScanPreds(visit, results, BlockEffects(parameters, code, blocks[b])) == MeetsFailure
    ensures g.GatherStopped? <==> ScanPreds(visit, results, BlockEffects(parameters, code, blocks[b])) == MeetsUnprocessed
    ensures g.GatheredAll? ==> |g.instructions| == |visit| == |g.registers|
    ensures g.GatheredAll? ==> forall j :: 0 <= j < |visit| ==>
      visit[j] < b && Run(results[visit[j]].exit, BlockEffects(parameters, code, blocks[b])) == Some(BlockResult(g.instructions[j], g.registers[j]))
  {
    ghost var effects := BlockEffects(parameters, code, blocks[b]);
    var potentialInstructions: seq<seq<RegisterStatus>> := [];
    var potentialRegisters: seq<RegisterStatus> := [];
    var j := 0;
    while j < |visit|
      invariant j <= |visit|
      invariant ScanPreds(visit, results, effects) == ScanPreds(visit[j..], results, effects)
      invariant |potentialInstructions| == j == |potentialRegisters|
      invariant forall i :: 0 <= i < j ==> visit[i] < b && Run(results[visit[i]].exit, effects) == Some(BlockResult(potentialInstructions[i], potentialRegisters[i]))
    {
      var p := visit[j];
      assert visit[j..][1..] == visit[j + 1..];
      if p >= b {
        return GatherStopped;
      }
      var r := ComputeForBlockInternal(parameters, code, blocks[b], results[p].exit);
      if r.None? {
        return GatherFailed;
      }
      potentialInstructions := potentialInstructions + [r.value.statuses];
      potentialRegisters := potentialRegisters + [r.value.exit];
      j := j + 1;
    }
    assert visit[j..] == [];
    return GatheredAll(potentialInstructions, potentialRegisters);
  }

  /** Analyses the next block as the main loop does for it. */
  method AnalyseBlock(parameters: seq<TypeId>, code: seq<InstructionMir>, locals: seq<RegisterMir>, blocks: seq<BasicBlock>,
                      backEdges: map<nat, seq<Edge>>, results: seq<BlockResult<RegisterMir>>) returns (step: Step)
    requires BlocksInCode(code, blocks) && |results| < |blocks|
    ensures step == BlockStep(locals, AllEffects(parameters, code, blocks), backEdges, results)
  {
    var b := |results|;
    ghost var effects := BlockEffects(parameters, code, blocks[b]);
    assert AllEffects(parameters, code, blocks)[b] == effects;
    if b !in backEdges {
      var r := ComputeForBlock(parameters, code, locals, blocks[b]);
      return if r.None? then Fails else Computed(r.value);
    }
    var visit := Visit(backEdges, b);
    var g := GatherPredecessors(parameters, code, blocks, results, b, visit);
    if g.GatherFailed? {
      return Fails;
    }
    if g.GatherStopped? {
      return Unprocessed;
    }
    if |g.instructions| == 0 {
      return Fails;
    }
    ghost var preds := Preds(backEdges, b);
    VisitedArePreds(backEdges, b);
    assert forall p :: p in preds ==> p < b && Run(results[p].exit, effects).Some? by {
      forall p | p in preds ensures p < b && Run(results[p].exit, effects).Some? {
        var j :| 0 <= j < |visit| && visit[j] == p;
      }
    }
    MergedMatches(preds, results, effects, visit, g.instructions, g.registers);
    var finalInstructions, finalRegisters := MergeResults(g.instructions, g.registers);
    return Computed(BlockResult(finalInstructions, finalRegisters));
  }

  /** One more block analysed. */
  lemma NextResults(step: seq<BlockResult<RegisterMir>> -> Step, results: seq<BlockResult<RegisterMir>>)
    requires Steps(step, |results|) == Running(results)
    ensures step(results).Fails? ==> Steps(step, |results| + 1) == Panicked
    ensures step(results).Unprocessed? ==> Steps(step, |results| + 1) == AllUnknown
    ensures step(results).Computed? ==> Steps(step, |results| + 1) == Running(results + [step(results).result])
  {
  }


  lemma ScatterAllAppend(statuses: seq<RegisterStatus>, blocks: seq<BasicBlock>, results: seq<BlockResult<RegisterMir>>, x: BlockResult<RegisterMir>)
    requires Fits(blocks, results + [x]) && forall b :: 0 <= b < |blocks| ==> IndicesIn(blocks[b].instructions, |statuses|)
    ensures ScatterAll(statuses, blocks, results + [x]) == Scatter(ScatterAll(statuses, blocks, results), blocks[|results|].instructions, x.statuses)
  {
    assert (results + [x])[..|results|] == results;
  }

  /** Once the analysis has stopped, it stays stopped. */
  lemma {:induction false} StopPersists(step: seq<BlockResult<RegisterMir>> -> Step, k: nat, n: nat)
    requires k <= n
    requires !Steps(step, k).Running?
    ensures Steps(step, n) == Steps(step, k)
    decreases n - k
  {
    if k < n {
      StopPersists(step, k + 1, n);
    }
  }


  /**
   * The whole analysis: a single block is analysed from the locals; otherwise the blocks are
   * analysed in order, each result written at its block's instruction indices, and meeting a
   * predecessor not analysed yet gives up with an empty map for every instruction.
   */
  method ComputeNullCheckElision(parameters: seq<TypeId>, code: seq<InstructionMir>, locals: seq<RegisterMir>, blocks: seq<BasicBlock>,
                                 backEdges: map<nat, seq<Edge>>) returns (r: Option<seq<RegisterStatus>>)
    requires BlocksInCode(code, blocks)
    ensures r == NullCheckElision(parameters, code, locals, blocks, backEdges)
  {
    if |blocks| == 1 {
      var single := ComputeForBlock(parameters, code, locals, blocks[0]);
      return if single.None? then None else Some(single.value.statuses);
    }
    r := AnalyseBlocks(parameters, code, locals, blocks, backEdges);
  }

  /** Blocks within the code have every instruction index below the code's length. */
  lemma BlocksIndices(code: seq<InstructionMir>, blocks: seq<BasicBlock>)
    requires BlocksInCode(code, blocks)
    ensures forall b :: 0 <= b < |blocks| ==> IndicesIn(blocks[b].instructions, |code|)
  {
    forall b | 0 <= b < |blocks| ensures IndicesIn(blocks[b].instructions, |code|) {
      assert BlockInCode(code, blocks[b]);
    }
  }

  /** A computed step extends the results of the analysis by its result. */
  lemma ComputedStepExtends(parameters: seq<TypeId>, code: seq<InstructionMir>, locals: seq<RegisterMir>, blocks: seq<BasicBlock>,
                            backEdges: map<nat, seq<Edge>>, results: seq<BlockResult<RegisterMir>>, x: BlockResult<RegisterMir>)
    requires BlocksInCode(code, blocks) && |results| < |blocks|
    requires ResultsUpTo(locals, AllEffects(parameters, code, blocks), backEdges, |results|) == Running(results)
    requires BlockStep(locals, AllEffects(parameters, code, blocks), backEdges, results) == Computed(x)
    ensures ResultsUpTo(locals, AllEffects(parameters, code, blocks), backEdges, |results| + 1) == Running(results + [x])
  {
    NextResults(StepOf(locals, AllEffects(parameters, code, blocks), backEdges), results);
  }

  /** A computed step gives a status per instruction of its block. */
  lemma ComputedStepFits(parameters: seq<TypeId>, code: seq<InstructionMir>, locals: seq<RegisterMir>, blocks: seq<BasicBlock>,
                         backEdges: map<nat, seq<Edge>>, results: seq<BlockResult<RegisterMir>>, x: BlockResult<RegisterMir>)
    requires BlocksInCode(code, blocks) && |results| < |blocks| && Fits(blocks, results)
    requires BlockStep(locals, AllEffects(parameters, code, blocks), backEdges, results) == Computed(x)
    ensures Fits(blocks, results + [x]) && |x.statuses| == |blocks[|results|].instructions|
  {
    var all := AllEffects(parameters, code, blocks);
    assert |x.statuses| == |all[|results|]|;
    forall b | 0 <= b < |results| + 1 ensures |(results + [x])[b].statuses| == |blocks[b].instructions| {
      if b < |results| {
        assert (results + [x])[b] == results[b];
      }
    }
  }

  /** A result that fits its block is written at its instructions after the results before it. */
  lemma ComputedStepWrites(code: seq<InstructionMir>, blocks: seq<BasicBlock>, results: seq<BlockResult<RegisterMir>>, x: BlockResult<RegisterMir>)
    requires BlocksInCode(code, blocks) && |results| < |blocks| && Fits(blocks, results + [x])
    ensures (forall b :: 0 <= b < |blocks| ==> IndicesIn(blocks[b].instructions, |code|)) &&
      ScatterAll(Unknown(|code|), blocks, results + [x]) == Scatter(ScatterAll(Unknown(|code|), blocks, results), blocks[|results|].instructions, x.statuses)
  {
    BlocksIndices(code, blocks);
    assert (results + [x])[..|results|] == results;
    ScatterAllAppend(Unknown(|code|), blocks, results, x);
  }

  /** A step that fails, or meets an unprocessed predecessor, decides the whole analysis. */
  lemma StoppingStep(parameters: seq<TypeId>, code: seq<InstructionMir>, locals: seq<RegisterMir>, blocks: seq<BasicBlock>,
                     backEdges: map<nat, seq<Edge>>, results: seq<BlockResult<RegisterMir>>)
    requires BlocksInCode(code, blocks) && |results| < |blocks|
    requires ResultsUpTo(locals, AllEffects(parameters, code, blocks), backEdges, |results|) == Running(results)
    ensures BlockStep(locals, AllEffects(parameters, code, blocks), backEdges, results).Fails? ==>
      BlockByBlock(parameters, code, locals, blocks, backEdges) == None
    ensures BlockStep(locals, AllEffects(parameters, code, blocks), backEdges, results).Unprocessed? ==>
      BlockByBlock(parameters, code, locals, blocks, backEdges) == Some(Unknown(|code|))
  {
    var step := StepOf(locals, AllEffects(parameters, code, blocks), backEdges);
    NextResults(step, results);
    if !step(results).Computed? {
      StopPersists(step, |results| + 1, |blocks|);
    }
  }

  /** A run through all the blocks gives every result written at its block's instructions. */
  lemma FinishedRun(parameters: seq<TypeId>, code: seq<InstructionMir>, locals: seq<RegisterMir>, blocks: seq<BasicBlock>,
                    backEdges: map<nat, seq<Edge>>, results: seq<BlockResult<RegisterMir>>)
    requires BlocksInCode(code, blocks) && Fits(blocks, results)
    requires forall b :: 0 <= b < |blocks| ==> IndicesIn(blocks[b].instructions, |code|)
    requires ResultsUpTo(locals, AllEffects(parameters, code, blocks), backEdges, |blocks|) == Running(results)
    ensures BlockByBlock(parameters, code, locals, blocks, backEdges) == Some(ScatterAll(Unknown(|code|), blocks, results))
  {
  }

  /** Analyses the next block and, when its step is computed, writes its statuses at its instructions. */
  method AnalyseAndWrite(parameters: seq<TypeId>, code: seq<InstructionMir>, locals: seq<RegisterMir>, blocks: seq<BasicBlock>,
                         backEdges: map<nat, seq<Edge>>, results: seq<BlockResult<RegisterMir>>, instructionResults: seq<RegisterStatus>)
    returns (step: Step, written: seq<RegisterStatus>)
    requires BlocksInCode(code, blocks) && |results| < |blocks| && Fits(blocks, results)
    requires forall b :: 0 <= b < |blocks| ==> IndicesIn(blocks[b].instructions, |code|)
    requires ResultsUpTo(locals, AllEffects(parameters, code, blocks), backEdges, |results|) == Running(results)
    requires instructionResults == ScatterAll(Unknown(|code|), blocks, results)
    ensures step.Fails? ==> BlockByBlock(parameters, code, locals, blocks, backEdges) == None
    ensures step.Unprocessed? ==> BlockByBlock(parameters, code, locals, blocks, backEdges) == Some(Unknown(|code|))
    ensures step.Computed? ==> ResultsUpTo(locals, AllEffects(parameters, code, blocks), backEdges, |results| + 1) == Running(results + [step.result])
    ensures step.Computed? ==> Fits(blocks, results + [step.result]) && written == ScatterAll(Unknown(|code|), blocks, results + [step.result])
  {
    step := AnalyseBlock(parameters, code, locals, blocks, backEdges, results);
    written := instructionResults;
    if !step.Computed? {
      StoppingStep(parameters, code, locals, blocks, backEdges, results);
      return;
    }
    ComputedStepExtends(parameters, code, locals, blocks, backEdges, results, step.result);
    ComputedStepFits(parameters, code, locals, blocks, backEdges, results, step.result);
    ComputedStepWrites(code, blocks, results, step.result);
    written := WriteBlock(instructionResults, blocks[|results|].instructions, step.result.statuses);
  }

  /** The loop over the blocks, in order. */
  method AnalyseBlocks(parameters: seq<TypeId>, code: seq<InstructionMir>, locals: seq<RegisterMir>, blocks: seq<BasicBlock>,
                       backEdges: map<nat, seq<Edge>>) returns (r: Option<seq<RegisterStatus>>)
    requires BlocksInCode(code, blocks)
    ensures r == BlockByBlock(parameters, code, locals, blocks, backEdges)
  {
    BlocksIndices(code, blocks);
    var results: seq<BlockResult<RegisterMir>> := [];
    var instructionResults := Unknown(|code|);
    var b := 0;
    while b < |blocks|
      invariant b == |results| <= |blocks| && Fits(blocks, results)
      invariant ResultsUpTo(locals, AllEffects(parameters, code, blocks), backEdges, b) == Running(results)
      invariant instructionResults == ScatterAll(Unknown(|code|), blocks, results)
    {
      var step;
      step, instructionResults := AnalyseAndWrite(parameters, code, locals, blocks, backEdges, results, instructionResults);
      if step.Fails? {
        return None;
      }
      if step.Unprocessed? {
        return Some(Unknown(|code|));
      }
      results := results + [step.result];
      b := b + 1;
    }
    FinishedRun(parameters, code, locals, blocks, backEdges, results);
    return Some(instructionResults);
  }


  // ---------------------------------------------------------------------------------------------
  // What the analysis establishes.

  /** The code generator's reading of a status map: a register without a status may be null. */
  function CanBeNull(s: RegisterStatus, r: RegisterMir): bool {
    if r in s then s[r] else true
  }

  /** An instruction changes the status of the register it writes and of no other, and forgets no register. */
  lemma TransferOnlyTouchesDestination(parameters: seq<TypeId>, d: MirData, s: RegisterStatus)
    requires Apply(InstructionEffect(parameters, d), s).Some?
    ensures s.Keys <= Apply(InstructionEffect(parameters, d), s).value.Keys
    ensures forall r :: Some(r) != d.AssignRegister() && r in s ==> Apply(InstructionEffect(parameters, d), s).value[r] == s[r]
    ensures forall r :: Some(r) != d.AssignRegister() ==> (r in Apply(InstructionEffect(parameters, d), s).value <==> r in s)
    ensures d.AssignRegister().None? ==> Apply(InstructionEffect(parameters, d), s).value == s
  {
  }

  /**
   * The rules for the written register: a new array or object is non-null; a null load, and a
   * reference produced by a call, an element or field load or a reference parameter, may be
   * null; a reference-to-reference move copies the source's status and fails when it has none.
   */
  lemma TransferRules(parameters: seq<TypeId>, d: MirData, s: RegisterStatus)
    ensures (d.NewArray? || d.NewObject?) ==> Apply(InstructionEffect(parameters, d), s) == Some(s[d.dest := false])
    ensures d.LoadNull? ==> Apply(InstructionEffect(parameters, d), s) == Some(s[d.dest := true])
    ensures (d.LoadElement? || d.LoadField?) && d.dest.valueType.IsReference() ==> Apply(InstructionEffect(parameters, d), s) == Some(s[d.dest := true])
    ensures (d.Call? || d.CallInstance?) && d.callResult.Some? && d.callResult.value.valueType.IsReference() ==>
      Apply(InstructionEffect(parameters, d), s) == Some(s[d.callResult.value := true])
    ensures d.LoadArgument? ==> (Apply(InstructionEffect(parameters, d), s).None? <==> d.argument >= |parameters|)
    ensures d.LoadArgument? && d.argument < |parameters| && parameters[d.argument].IsReference() ==>
      Apply(InstructionEffect(parameters, d), s) == Some(s[d.dest := true])
    ensures d.Move? && d.source.valueType.IsReference() && d.dest.valueType.IsReference() ==>
      Apply(InstructionEffect(parameters, d), s) == (if d.source in s then Some(s[d.dest := s[d.source]]) else None)
    ensures Apply(InstructionEffect(parameters, d), s).None? ==> d.Move? || d.LoadArgument?
  {
  }

  /** Whether a register holds null, an object reference, or a value that is not a reference. */
  datatype Value = NullReference | ObjectReference | Scalar

  type Env = map<RegisterMir, Value>

  /**
   * What running an instruction does to the registers, as far as null goes: allocation gives an
   * object reference, a null load gives null, a move copies, and every other written register
   * receives the value the instruction produces (`produced`, chosen by the caller: a call's or a
   * load's result is not known here).
   */
  function Execute(d: MirData, env: Env, produced: Value): Env {
    match d
    case NewArray(_, dest, _) => env[dest := ObjectReference]
    case NewObject(_, dest) => env[dest := ObjectReference]
    case LoadNull(dest) => env[dest := NullReference]
    case Move(dest, source) => env[dest := if source in env then env[source] else produced]
    case _ => if d.AssignRegister().Some? then env[d.AssignRegister().value := produced] else env
  }

  /**
   * The typing the verified bytecode gives the compiled instructions: a move stays among
   * references or among non-references, an argument is loaded into a register of its parameter's
   * kind, allocation and null loads write references, and the instructions the analysis does
   * not track never write one.
   */
  predicate WellTyped(parameters: seq<TypeId>, d: MirData) {
    match d
    case Move(dest, source) => dest.valueType.IsReference() == source.valueType.IsReference()
    case LoadArgument(index, dest) => index < |parameters| ==> parameters[index].IsReference() == dest.valueType.IsReference()
    case NewArray(_, _, _) => true
    case NewObject(_, _) => true
    case LoadNull(_) => true
    case Call(_, _, _) => true
    case CallInstance(_, _, _) => true
    case LoadElement(_, _, _, _) => true
    case LoadField(_, _, _, _) => true
    case _ => d.AssignRegister().Some? ==> !d.AssignRegister().value.valueType.IsReference()
  }

  /** Every reference register the status calls non-null holds an object reference. */
  ghost predicate Describes(s: RegisterStatus, env: Env) {
    forall r :: r in s && !s[r] && r.valueType.IsReference() ==> r in env && env[r] == ObjectReference
  }

  /** Writing a register that is not a reference leaves a correct description correct. */
  lemma WriteScalarSound(s: RegisterStatus, env: Env, x: RegisterMir, v: Value)
    requires Describes(s, env) && !x.valueType.IsReference()
    ensures Describes(s, env[x := v])
  {
  }

  /** Marking a written register may-be-null leaves a correct description correct. */
  lemma WriteMayBeNullSound(s: RegisterStatus, env: Env, x: RegisterMir, v: Value)
    requires Describes(s, env)
    ensures Describes(s[x := true], env[x := v])
  {
  }

  /** Marking a register non-null when it receives an object reference leaves a correct description correct. */
  lemma WriteObjectSound(s: RegisterStatus, env: Env, x: RegisterMir)
    requires Describes(s, env)
    ensures Describes(s[x := false], env[x := ObjectReference])
  {
  }

  /** Copying a status along with the value it describes leaves a correct description correct. */
  lemma CopySound(s: RegisterStatus, env: Env, dest: RegisterMir, source: RegisterMir, produced: Value)
    requires Describes(s, env) && source in s && source.valueType.IsReference()
    ensures Describes(s[dest := s[source]], env[dest := if source in env then env[source] else produced])
  {
  }

  /** An instruction that keeps the statuses writes no register, or writes one that is not a reference. */
  lemma KeepExecute(parameters: seq<TypeId>, d: MirData, env: Env, produced: Value)
    requires WellTyped(parameters, d) && InstructionEffect(parameters, d).Keep?
    ensures d.AssignRegister().None? ==> Execute(d, env, produced) == env
    ensures d.AssignRegister().Some? ==>
      !d.AssignRegister().value.valueType.IsReference() &&
      Execute(d, env, produced) == env[d.AssignRegister().value := Execute(d, env, produced)[d.AssignRegister().value]]
  {
    if d.AssignRegister().Some? {
      var x := d.AssignRegister().value;
      if d.Move? {
        assert !x.valueType.IsReference();
      } else {
        assert Execute(d, env, produced) == env[x := produced];
      }
    }
  }

  /** An instruction that marks a register may-be-null writes that register and no other. */
  lemma MayBeNullExecute(parameters: seq<TypeId>, d: MirData, env: Env, produced: Value)
    requires InstructionEffect(parameters, d).MayBeNull?
    ensures var x := InstructionEffect(parameters, d).reg; Execute(d, env, produced) == env[x := Execute(d, env, produced)[x]]
  {
  }

  /** An instruction that marks a register non-null writes an object reference to it and changes no other. */
  lemma NonNullExecute(parameters: seq<TypeId>, d: MirData, env: Env, produced: Value)
    requires InstructionEffect(parameters, d).NonNull?
    ensures Execute(d, env, produced) == env[InstructionEffect(parameters, d).reg := ObjectReference]
  {
  }

  /** An instruction that copies a status copies the value between the same two reference registers. */
  lemma CopyExecute(parameters: seq<TypeId>, d: MirData, env: Env, produced: Value)
    requires InstructionEffect(parameters, d).CopyStatus?
    ensures var e := InstructionEffect(parameters, d);
      e.source.valueType.IsReference() && Execute(d, env, produced) == env[e.dest := if e.source in env then env[e.source] else produced]
  {
  }


  /** One instruction keeps the status map a correct description of the registers. */
  lemma TransferSound(parameters: seq<TypeId>, d: MirData, s: RegisterStatus, env: Env, produced: Value)
    requires WellTyped(parameters, d) && Describes(s, env)
    requires Apply(InstructionEffect(parameters, d), s).Some?
    ensures Describes(Apply(InstructionEffect(parameters, d), s).value, Execute(d, env, produced))
  {
    var e := InstructionEffect(parameters, d);
    var after := Execute(d, env, produced);
    match e
    case Keep =>
      KeepExecute(parameters, d, env, produced);
      if d.AssignRegister().Some? {
        var x := d.AssignRegister().value;
        WriteScalarSound(s, env, x, after[x]);
      }
    case MayBeNull(x) =>
      MayBeNullExecute(parameters, d, env, produced);
      WriteMayBeNullSound(s, env, x, after[x]);
    case NonNull(x) =>
      NonNullExecute(parameters, d, env, produced);
      WriteObjectSound(s, env, x);
    case CopyStatus(dest, source) =>
      CopyExecute(parameters, d, env, produced);
      CopySound(s, env, dest, source, produced);
  }


  /** The registers before instruction `k` of a block, every instruction producing its value of `produced`. */
  function EnvAt(code: seq<InstructionMir>, block: BasicBlock, env: Env, produced: seq<Value>, k: nat): Env
    requires BlockInCode(code, block) && k <= |block.instructions| && |produced| == |block.instructions|
  {
    if k == 0 then env
    else Execute(code[block.instructions[k - 1]].data, EnvAt(code, block, env, produced, k - 1), produced[k - 1])
  }

  predicate BlockWellTyped(parameters: seq<TypeId>, code: seq<InstructionMir>, block: BasicBlock)
    requires BlockInCode(code, block)
  {
    forall k :: 0 <= k < |block.instructions| ==> WellTyped(parameters, code[block.instructions[k]].data)
  }

  /**
   * The analysis of a block is sound: started from a status that describes the registers, the
   * status it records before each instruction describes the registers there, whatever the
   * unknown values, so a reference register it does not call may-be-null holds an object.
   */
  lemma {:induction false} BlockSound(parameters: seq<TypeId>, code: seq<InstructionMir>, block: BasicBlock, start: RegisterStatus,
                                      env: Env, produced: seq<Value>)
    requires BlockInCode(code, block) && BlockWellTyped(parameters, code, block) && |produced| == |block.instructions|
    requires Describes(start, env) && Run(start, BlockEffects(parameters, code, block)).Some?
    ensures forall k, r: RegisterMir :: (0 <= k < |block.instructions| && r.valueType.IsReference() &&
      !CanBeNull(Run(start, BlockEffects(parameters, code, block)).value.statuses[k], r)) ==>
      r in EnvAt(code, block, env, produced, k) && EnvAt(code, block, env, produced, k)[r] == ObjectReference
    ensures Describes(Run(start, BlockEffects(parameters, code, block)).value.exit, EnvAt(code, block, env, produced, |block.instructions|))
  {
    var effects := BlockEffects(parameters, code, block);
    var result := Run(start, effects).value;
    var n := |block.instructions|;
    forall k | 0 <= k <= n ensures Run(start, effects[..k]).Some? && Describes(Run(start, effects[..k]).value.exit, EnvAt(code, block, env, produced, k)) {
      PrefixSound(parameters, code, block, start, env, produced, k);
    }
    forall k | 0 <= k < n ensures result.statuses[k] == Run(start, effects[..k]).value.exit {
      RunPrefix(start, effects, k);
    }
    assert effects[..n] == effects;
  }

  lemma {:induction false} PrefixSound(parameters: seq<TypeId>, code: seq<InstructionMir>, block: BasicBlock, start: RegisterStatus,
                                       env: Env, produced: seq<Value>, k: nat)
    requires BlockInCode(code, block) && BlockWellTyped(parameters, code, block) && |produced| == |block.instructions|
    requires Describes(start, env) && Run(start, BlockEffects(parameters, code, block)).Some? && k <= |block.instructions|
    ensures Run(start, BlockEffects(parameters, code, block)[..k]).Some?
    ensures Describes(Run(start, BlockEffects(parameters, code, block)[..k]).value.exit, EnvAt(code, block, env, produced, k))
  {
    var effects := BlockEffects(parameters, code, block);
    RunPrefix(start, effects, k);
    if k > 0 {
      PrefixSound(parameters, code, block, start, env, produced, k - 1);
      assert effects[..k][..k - 1] == effects[..k - 1];
      var before := Run(start, effects[..k - 1]).value.exit;
      assert Apply(effects[k - 1], before).Some?;
      RunStep(start, effects, k - 1);
      var d := code[block.instructions[k - 1]].data;
      var envBefore := EnvAt(code, block, env, produced, k - 1);
      assert WellTyped(parameters, d);
      TransferSound(parameters, d, before, envBefore, produced[k - 1]);
    }
  }

  /**
   * For a function of one block, every status the analysis gives is sound from any starting
   * registers: the locals start may-be-null, which describes every state.
   */
  lemma SingleBlockSound(parameters: seq<TypeId>, code: seq<InstructionMir>, locals: seq<RegisterMir>, blocks: seq<BasicBlock>,
                         backEdges: map<nat, seq<Edge>>, env: Env, produced: seq<Value>)
    requires BlocksInCode(code, blocks) && |blocks| == 1 && BlockWellTyped(parameters, code, blocks[0])
    requires |produced| == |blocks[0].instructions|
    requires NullCheckElision(parameters, code, locals, blocks, backEdges).Some?
    ensures forall k, r: RegisterMir :: (0 <= k < |blocks[0].instructions| && r.valueType.IsReference() &&
      !CanBeNull(NullCheckElision(parameters, code, locals, blocks, backEdges).value[k], r)) ==>
      r in EnvAt(code, blocks[0], env, produced, k) && EnvAt(code, blocks[0], env, produced, k)[r] == ObjectReference
  {
    BlockSound(parameters, code, blocks[0], InitialStatus(locals), env, produced);
  }

  /**
   * For a function of one block, the map recorded for instruction `k` is the status once the
   * instructions before it have taken effect, starting from every local may-be-null.
   */
  lemma SingleBlockStatusBefore(parameters: seq<TypeId>, code: seq<InstructionMir>, locals: seq<RegisterMir>, blocks: seq<BasicBlock>,
                                backEdges: map<nat, seq<Edge>>, k: nat)
    requires BlocksInCode(code, blocks) && |blocks| == 1
    requires NullCheckElision(parameters, code, locals, blocks, backEdges).Some? && k < |blocks[0].instructions|
    ensures |NullCheckElision(parameters, code, locals, blocks, backEdges).value| == |blocks[0].instructions|
    ensures Run(InitialStatus(locals), BlockEffects(parameters, code, blocks[0])[..k]).Some?
    ensures NullCheckElision(parameters, code, locals, blocks, backEdges).value[k] ==
      Run(InitialStatus(locals), BlockEffects(parameters, code, blocks[0])[..k]).value.exit
    ensures k == 0 ==> NullCheckElision(parameters, code, locals, blocks, backEdges).value[k] == InitialStatus(locals)
  {
    RunPrefix(InitialStatus(locals), BlockEffects(parameters, code, blocks[0]), k);
  }

  /** A block the analysis reaches has only predecessors before it. */
  lemma {:induction false} RunningIsForward(locals: seq<RegisterMir>, all: seq<seq<Effect<RegisterMir>>>, backEdges: map<nat, seq<Edge>>, k: nat)
    requires k <= |all|
    requires ResultsUpTo(locals, all, backEdges, k).Running?
    ensures forall b, p :: 0 <= b < k && b in backEdges && p in Preds(backEdges, b) ==> p < b
  {
    if k > 0 {
      LastStep(StepOf(locals, all, backEdges), k);
      RunningIsForward(locals, all, backEdges, k - 1);
      var previous := ResultsUpTo(locals, all, backEdges, k - 1).results;
      ComputedHasEarlierPreds(locals, all, backEdges, previous);
    }
  }

  /** A block whose step computes a result has no predecessor at or after itself. */
  lemma ComputedHasEarlierPreds(locals: seq<RegisterMir>, all: seq<seq<Effect<RegisterMir>>>, backEdges: map<nat, seq<Edge>>,
                                results: seq<BlockResult<RegisterMir>>)
    requires |results| < |all| && BlockStep(locals, all, backEdges, results).Computed?
    ensures |results| in backEdges ==> forall p :: p in Preds(backEdges, |results|) ==> p < |results|
  {
    var b := |results|;
    if b in backEdges {
      VisitedArePreds(backEdges, b);
      ClearMeaning(Visit(backEdges, b), results, all[b]);
      forall p | p in Preds(backEdges, b) ensures p < b {
        var i :| 0 <= i < |Visit(backEdges, b)| && Visit(backEdges, b)[i] == p;
      }
    }
  }

  /**
   * A function of several blocks where some block has a predecessor at or after itself gets an
   * empty map for every instruction (unless an earlier block's analysis failed), and the code
   * generator then treats every register as may-be-null.
   */
  lemma UnprocessedPredecessorGivesUnknown(parameters: seq<TypeId>, code: seq<InstructionMir>, locals: seq<RegisterMir>, blocks: seq<BasicBlock>,
                                           backEdges: map<nat, seq<Edge>>, b: nat, p: nat)
    requires BlocksInCode(code, blocks) && |blocks| != 1
    requires b < |blocks| && b in backEdges && p in Preds(backEdges, b) && b <= p
    ensures NullCheckElision(parameters, code, locals, blocks, backEdges) in {None, Some(Unknown(|code|))}
    ensures forall i, r: RegisterMir :: NullCheckElision(parameters, code, locals, blocks, backEdges).Some? && 0 <= i < |code| ==>
      CanBeNull(NullCheckElision(parameters, code, locals, blocks, backEdges).value[i], r)
  {
    var all := AllEffects(parameters, code, blocks);
    if ResultsUpTo(locals, all, backEdges, |blocks|).Running? {
      RunningIsForward(locals, all, backEdges, |blocks|);
    }
  }

  /** Two statuses joined are their order-free merge. */
  lemma JoinIsMergeSet(a: RegisterStatus, b: RegisterStatus)
    ensures Join(a, b) == MergeSet({a, b})
  {
    var merged := MergeSet({a, b});
    forall x ensures x in Join(a, b) <==> x in merged {
      if x in a {
        assert a in {a, b};
      } else if x in b {
        assert b in {a, b};
      }
    }
    forall x | x in merged ensures Join(a, b)[x] == merged[x] {
      if x in a && a[x] {
        assert a in {a, b};
      } else if x in b && b[x] {
        assert b in {a, b};
      }
    }
  }

  /** Merging a single status gives it back. */
  lemma MergeSetSingle(s: RegisterStatus)
    ensures MergeSet({s}) == s
  {
    var merged := MergeSet({s});
    forall x ensures x in merged <==> x in s {
      if x in s {
        assert s in {s};
      }
    }
  }

  /** With a single predecessor, the merged analysis is that predecessor's own. */
  lemma MergedSingle(p: nat, results: seq<BlockResult<RegisterMir>>, effects: seq<Effect<RegisterMir>>)
    requires p < |results| && Run(results[p].exit, effects).Some?
    ensures MergedResult({p}, results, effects) == Run(results[p].exit, effects).value
  {
    var own := Run(results[p].exit, effects).value;
    var merged := MergedResult({p}, results, effects);
    forall k | 0 <= k < |effects| ensures merged.statuses[k] == own.statuses[k] {
      assert EntriesAt({p}, results, effects, k) == {own.statuses[k]};
      MergeSetSingle(own.statuses[k]);
    }
    assert ExitsOf({p}, results, effects) == {own.exit};
    MergeSetSingle(own.exit);
  }

  /** With two predecessors, the merged analysis joins theirs instruction by instruction. */
  lemma MergedPair(p: nat, q: nat, results: seq<BlockResult<RegisterMir>>, effects: seq<Effect<RegisterMir>>)
    requires p < |results| && Run(results[p].exit, effects).Some?
    requires q < |results| && Run(results[q].exit, effects).Some?
    ensures |MergedResult({p, q}, results, effects).statuses| == |effects|
    ensures forall k :: 0 <= k < |effects| ==>
      MergedResult({p, q}, results, effects).statuses[k] == Join(Run(results[p].exit, effects).value.statuses[k], Run(results[q].exit, effects).value.statuses[k])
    ensures MergedResult({p, q}, results, effects).exit == Join(Run(results[p].exit, effects).value.exit, Run(results[q].exit, effects).value.exit)
  {
    var fromP := Run(results[p].exit, effects).value;
    var fromQ := Run(results[q].exit, effects).value;
    var merged := MergedResult({p, q}, results, effects);
    forall k | 0 <= k < |effects| ensures merged.statuses[k] == Join(fromP.statuses[k], fromQ.statuses[k]) {
      assert EntriesAt({p, q}, results, effects, k) == {fromP.statuses[k], fromQ.statuses[k]};
      JoinIsMergeSet(fromP.statuses[k], fromQ.statuses[k]);
    }
    assert ExitsOf({p, q}, results, effects) == {fromP.exit, fromQ.exit};
    JoinIsMergeSet(fromP.exit, fromQ.exit);
  }

  /**
   * The merged analysis of a block is sound along each path into it: when the registers on entry
   * are described by one predecessor's exit status, a reference register that this predecessor's
   * own analysis knows and that the merged status calls non-null holds an object reference.
   */
  lemma MergedSound(parameters: seq<TypeId>, code: seq<InstructionMir>, block: BasicBlock, preds: set<nat>,
                    results: seq<BlockResult<RegisterMir>>, env: Env, produced: seq<Value>, p: nat)
    requires BlockInCode(code, block) && BlockWellTyped(parameters, code, block) && |produced| == |block.instructions|
    requires forall q :: q in preds ==> q < |results| && Run(results[q].exit, BlockEffects(parameters, code, block)).Some?
    requires p in preds && Describes(results[p].exit, env)
    ensures forall k, r: RegisterMir :: (0 <= k < |block.instructions| && r.valueType.IsReference() &&
      r in Run(results[p].exit, BlockEffects(parameters, code, block)).value.statuses[k] &&
      !CanBeNull(MergedResult(preds, results, BlockEffects(parameters, code, block)).statuses[k], r)) ==>
      r in EnvAt(code, block, env, produced, k) && EnvAt(code, block, env, produced, k)[r] == ObjectReference
  {
    var effects := BlockEffects(parameters, code, block);
    BlockSound(parameters, code, block, results[p].exit, env, produced);
    forall k, r: RegisterMir | (0 <= k < |block.instructions| && r.valueType.IsReference() &&
      r in Run(results[p].exit, effects).value.statuses[k] && !CanBeNull(MergedResult(preds, results, effects).statuses[k], r))
      ensures r in EnvAt(code, block, env, produced, k) && EnvAt(code, block, env, produced, k)[r] == ObjectReference
    {
      var own := Run(results[p].exit, effects).value.statuses[k];
      var inputs := set q | q in preds :: Run(results[q].exit, effects).value.statuses[k];
      assert own in inputs;
      assert MergedResult(preds, results, effects).statuses[k] == MergeSet(inputs);
      assert !own[r];
    }
  }

  ghost predicate Distinct(indices: seq<nat>) {
    forall i, j :: 0 <= i < j < |indices| ==> indices[i] != indices[j]
  }

  /** Writing at distinct indices puts each value at its index and leaves every other position alone. */
  lemma {:induction false} ScatterMeaning(statuses: seq<RegisterStatus>, indices: seq<nat>, values: seq<RegisterStatus>)
    requires |values| == |indices| && IndicesIn(indices, |statuses|) && Distinct(indices)
    ensures forall k :: 0 <= k < |indices| ==> Scatter(statuses, indices, values)[indices[k]] == values[k]
    ensures forall i :: 0 <= i < |statuses| && i !in indices ==> Scatter(statuses, indices, values)[i] == statuses[i]
    decreases |indices|
  {
    if |indices| > 0 {
      var n := |indices|;
      ScatterMeaning(statuses, indices[..n - 1], values[..n - 1]);
      forall i | 0 <= i < |statuses| && i !in indices ensures Scatter(statuses, indices, values)[i] == statuses[i] {
        assert i !in indices[..n - 1];
      }
      forall k | 0 <= k < n - 1 ensures Scatter(statuses, indices, values)[indices[k]] == values[k] {
        assert indices[..n - 1][k] == indices[k];
      }
    }
  }

  /** The blocks share no instruction, and none lists one twice. */
  ghost predicate Disjoint(blocks: seq<BasicBlock>) {
    forall b, c, i, j :: (0 <= b < |blocks| && 0 <= c < |blocks| && 0 <= i < |blocks[b].instructions| &&
      0 <= j < |blocks[c].instructions| && (b != c || i != j)) ==> blocks[b].instructions[i] != blocks[c].instructions[j]
  }

  /** Every instruction of every block appears in the blocks put back together. */
  lemma {:induction false} ConcatContains(blocks: seq<BasicBlock>, b: nat, i: nat)
    requires b < |blocks| && i < |blocks[b].instructions|
    ensures blocks[b].instructions[i] in Concat(blocks)
    decreases |blocks|
  {
    var n := |blocks|;
    if b < n - 1 {
      ConcatContains(blocks[..n - 1], b, i);
    } else {
      assert Concat(blocks)[|Concat(blocks[..n - 1])| + i] == blocks[b].instructions[i];
    }
  }

  /** Blocks that, put back together, list no instruction twice are disjoint. */
  lemma {:induction false} ConcatDistinctDisjoint(blocks: seq<BasicBlock>)
    requires Distinct(Concat(blocks))
    ensures Disjoint(blocks)
    decreases |blocks|
  {
    if |blocks| > 0 {
      var n := |blocks|;
      var front, last := Concat(blocks[..n - 1]), blocks[n - 1].instructions;
      assert Concat(blocks) == front + last;
      assert Distinct(front) by {
        forall i, j | 0 <= i < j < |front| ensures front[i] != front[j] {
          assert Concat(blocks)[i] == front[i] && Concat(blocks)[j] == front[j];
        }
      }
      ConcatDistinctDisjoint(blocks[..n - 1]);
      forall b, c, i, j | (0 <= b < n && 0 <= c < n && 0 <= i < |blocks[b].instructions| &&
        0 <= j < |blocks[c].instructions| && (b != c || i != j))
        ensures blocks[b].instructions[i] != blocks[c].instructions[j]
      {
        if b < n - 1 && c < n - 1 {
          assert blocks[..n - 1][b] == blocks[b] && blocks[..n - 1][c] == blocks[c];
        } else if b == n - 1 && c == n - 1 {
          assert Concat(blocks)[|front| + i] == last[i] && Concat(blocks)[|front| + j] == last[j];
        } else if b == n - 1 {
          DistinctApart(blocks, c, j, i);
        } else {
          DistinctApart(blocks, b, i, j);
        }
      }
    }
  }

  /** An instruction of an earlier block is not one of the last block's. */
  lemma DistinctApart(blocks: seq<BasicBlock>, b: nat, i: nat, j: nat)
    requires 0 < |blocks| && Distinct(Concat(blocks)) && b < |blocks| - 1
    requires i < |blocks[b].instructions| && j < |blocks[|blocks| - 1].instructions|
    ensures blocks[b].instructions[i] != blocks[|blocks| - 1].instructions[j]
  {
    var n := |blocks|;
    var front, last := Concat(blocks[..n - 1]), blocks[n - 1].instructions;
    assert Concat(blocks) == front + last;
    assert blocks[..n - 1][b] == blocks[b];
    ConcatContains(blocks[..n - 1], b, i);
    var k :| 0 <= k < |front| && front[k] == blocks[b].instructions[i];
    assert Concat(blocks)[k] == front[k] && Concat(blocks)[|front| + j] == last[j];
  }

  lemma ConcatStep(blocks: seq<BasicBlock>, k: nat)
    requires k < |blocks|
    ensures Concat(blocks[..k + 1]) == Concat(blocks[..k]) + blocks[k].instructions
  {
    assert blocks[..k + 1][..k] == blocks[..k];
  }

  lemma RangeDistinct(a: nat, b: nat)
    ensures Distinct(Range(a, b))
  {
  }

  /** The blocks built from the code's leaders are disjoint. */
  lemma CreatedBlocksDisjoint(flows: seq<Flow>)
    requires BlocksOf(flows).Some?
    ensures Disjoint(BlocksOf(flows).value)
  {
    BlocksPartition(flows);
    RangeDistinct(0, |flows|);
    ConcatDistinctDisjoint(BlocksOf(flows).value);
  }

  /** Instruction `i` belongs to one of the first `n` blocks. */
  ghost predicate Covered(blocks: seq<BasicBlock>, n: nat, i: nat) {
    exists b, k :: 0 <= b < n && b < |blocks| && 0 <= k < |blocks[b].instructions| && blocks[b].instructions[k] == i
  }

  /** With disjoint blocks, every result lands at its block's instructions and nothing else changes. */
  lemma {:induction false} ScatterAllMeaning(statuses: seq<RegisterStatus>, blocks: seq<BasicBlock>, results: seq<BlockResult<RegisterMir>>)
    requires Fits(blocks, results) && forall b :: 0 <= b < |blocks| ==> IndicesIn(blocks[b].instructions, |statuses|)
    requires Disjoint(blocks)
    ensures forall b, k :: 0 <= b < |results| && 0 <= k < |blocks[b].instructions| ==>
      ScatterAll(statuses, blocks, results)[blocks[b].instructions[k]] == results[b].statuses[k]
    ensures forall i :: 0 <= i < |statuses| && !Covered(blocks, |results|, i) ==> ScatterAll(statuses, blocks, results)[i] == statuses[i]
    decreases |results|
  {
    if |results| > 0 {
      var n := |results|;
      var before := ScatterAll(statuses, blocks, results[..n - 1]);
      var last := blocks[n - 1].instructions;
      assert Fits(blocks, results[..n - 1]);
      ScatterAllMeaning(statuses, blocks, results[..n - 1]);
      ScatterMeaning(before, last, results[n - 1].statuses);
      forall b, k | 0 <= b < n - 1 && 0 <= k < |blocks[b].instructions|
        ensures ScatterAll(statuses, blocks, results)[blocks[b].instructions[k]] == results[b].statuses[k]
      {
        assert results[..n - 1][b] == results[b];
      }
      forall i | 0 <= i < |statuses| && !Covered(blocks, n, i) ensures ScatterAll(statuses, blocks, results)[i] == statuses[i] {
        assert !Covered(blocks, n - 1, i);
      }
    }
  }

  /**
   * For several disjoint blocks, results that each block's step computes from those before it are
   * what the analysis gives the blocks' instructions.
   */
  lemma StepsMeaning(parameters: seq<TypeId>, code: seq<InstructionMir>, locals: seq<RegisterMir>, blocks: seq<BasicBlock>,
                     backEdges: map<nat, seq<Edge>>, results: seq<BlockResult<RegisterMir>>, b: nat, k: nat)
    requires BlocksInCode(code, blocks) && |blocks| != 1 && Disjoint(blocks) && |results| == |blocks| && Fits(blocks, results)
    requires forall c {:trigger results[..c]} :: 0 <= c < |results| ==>
      BlockStep(locals, AllEffects(parameters, code, blocks), backEdges, results[..c]) == Computed(results[c])
    requires b < |blocks| && k < |blocks[b].instructions|
    ensures NullCheckElision(parameters, code, locals, blocks, backEdges).Some?
    ensures |NullCheckElision(parameters, code, locals, blocks, backEdges).value| == |code|
    ensures NullCheckElision(parameters, code, locals, blocks, backEdges).value[blocks[b].instructions[k]] == results[b].statuses[k]
  {
    var all := AllEffects(parameters, code, blocks);
    var step := StepOf(locals, all, backEdges);
    forall c | 0 <= c < |results| ensures step(results[..c]) == Computed(results[c]) {
      assert BlockStep(locals, all, backEdges, results[..c]) == Computed(results[c]);
    }
    StepsGiveResults(step, results, |results|);
    assert results[..|results|] == results;
    BlockByBlockMeaning(parameters, code, locals, blocks, backEdges, b, k);
  }

  /** The results of a finished run are, block by block, the steps taken after the blocks before them. */
  lemma {:induction false} RunningPrefix(step: seq<BlockResult<RegisterMir>> -> Step, n: nat, b: nat)
    requires b < n
    requires Steps(step, n).Running?
    ensures Steps(step, b) == Running(Steps(step, n).results[..b])
    ensures step(Steps(step, n).results[..b]) == Computed(Steps(step, n).results[b])
    decreases n - b
  {
    var reached := Steps(step, n).results;
    LastStep(step, n);
    var previous := Steps(step, n - 1).results;
    if b < n - 1 {
      RunningPrefix(step, n - 1, b);
      assert previous[..b] == reached[..b] && previous[b] == reached[b];
    } else {
      assert reached[..b] == previous;
    }
  }


  /** A run that reached `n` blocks reached `n - 1` and then took a step that computed the last result. */
  lemma LastStep(step: seq<BlockResult<RegisterMir>> -> Step, n: nat)
    requires 0 < n
    requires Steps(step, n).Running?
    ensures Steps(step, n - 1).Running?
    ensures var previous := Steps(step, n - 1).results;
      var reached := Steps(step, n).results;
      reached == previous + [reached[n - 1]] && step(previous) == Computed(reached[n - 1])
  {
    var previous := Steps(step, n - 1);
    assert previous.Running?;
  }


  /** Conversely, results that each block's step computes from those before it are what the analysis reaches. */
  lemma {:induction false} StepsGiveResults(step: seq<BlockResult<RegisterMir>> -> Step, results: seq<BlockResult<RegisterMir>>, k: nat)
    requires k <= |results|
    requires forall b {:trigger step(results[..b])} :: 0 <= b < |results| ==> step(results[..b]) == Computed(results[b])
    ensures Steps(step, k) == Running(results[..k])
  {
    if k > 0 {
      StepsGiveResults(step, results, k - 1);
      var previous := results[..k - 1];
      assert step(previous) == Computed(results[k - 1]);
      assert Steps(step, k) == Running(previous + [results[k - 1]]);
      assert results[..k] == previous + [results[k - 1]];
    }
  }


  /**
   * For several disjoint blocks that all get analysed, the map the analysis gives an instruction
   * is the one recorded for it by its block's step, and an instruction in no block keeps the
   * empty map.
   */
  lemma BlockByBlockMeaning(parameters: seq<TypeId>, code: seq<InstructionMir>, locals: seq<RegisterMir>, blocks: seq<BasicBlock>,
                            backEdges: map<nat, seq<Edge>>, b: nat, k: nat)
    requires BlocksInCode(code, blocks) && |blocks| != 1 && Disjoint(blocks)
    requires ResultsUpTo(locals, AllEffects(parameters, code, blocks), backEdges, |blocks|).Running?
    requires b < |blocks| && k < |blocks[b].instructions|
    ensures NullCheckElision(parameters, code, locals, blocks, backEdges).Some?
    ensures |NullCheckElision(parameters, code, locals, blocks, backEdges).value| == |code|
    ensures var results := ResultsUpTo(locals, AllEffects(parameters, code, blocks), backEdges, |blocks|).results;
      BlockStep(locals, AllEffects(parameters, code, blocks), backEdges, results[..b]) == Computed(results[b]) &&
      NullCheckElision(parameters, code, locals, blocks, backEdges).value[blocks[b].instructions[k]] == results[b].statuses[k]
    ensures forall i :: 0 <= i < |code| && !Covered(blocks, |blocks|, i) ==> NullCheckElision(parameters, code, locals, blocks, backEdges).value[i] == map[]
  {
    var all := AllEffects(parameters, code, blocks);
    var results := ResultsUpTo(locals, all, backEdges, |blocks|).results;
    BlocksIndices(code, blocks);
    assert Fits(blocks, results);
    FinishedRun(parameters, code, locals, blocks, backEdges, results);
    ScatterAllMeaning(Unknown(|code|), blocks, results);
    RunningPrefix(StepOf(locals, all, backEdges), |blocks|, b);
  }


}
