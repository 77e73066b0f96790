/**
 * Basic blocks of compiled mid-level code. A leader starts a block: the first instruction, the
 * target of every branch after the first instruction, and the first instruction after a branch or
 * a return that is itself neither. A block runs from its leader to the next leader (or to the end
 * of the code), so the blocks, put back together, give every instruction index once and in order.
 *
 * The analyses read an instruction only through its `Flow`: whether it branches (to which label),
 * returns, marks a label, or does none of these. `MidFlow` and `MirFlow` give it for the two
 * mid-level instruction sets.
 */
module BasicBlocks {
  import opened Wrappers
  import opened Ranges
  import opened Branches
  import Mid
  import Mir

  /** How an instruction affects control flow. */
  datatype Flow = Jump(branchLabel: nat) | JumpIf(branchLabel: nat) | Exit | LabelMark(branchLabel: nat) | Straight
  {
    predicate IsBranch() { Jump? || JumpIf? }

    /** A branch or a return. */
    predicate EndsBlock() { Jump? || JumpIf? || Exit? }
  }

  function MidFlow(d: Mid.MidData): Flow {
    match d
    case Branch(l) => Jump(l)
    case BranchCondition(_, _, l, _, _) => JumpIf(l)
    case Return(_) => Exit
    case BranchLabel(l) => LabelMark(l)
    case _ => Straight
  }

  function MirFlow(d: Mir.MirData): Flow {
    match d
    case Branch(l) => Jump(l)
    case BranchCondition(_, _, l, _, _) => JumpIf(l)
    case Return(_) => Exit
    case BranchLabel(l) => LabelMark(l)
    case _ => Straight
  }

  /** The flow of each instruction of older mid-level code. */
  function MidFlows(code: seq<Mid.MidInstruction>): (r: seq<Flow>)
    ensures |r| == |code| && forall i :: 0 <= i < |r| ==> r[i] == MidFlow(code[i].data)
  {
    seq(|code|, i requires 0 <= i < |code| => MidFlow(code[i].data))
  }

  function FlowLabel(f: Flow): Option<nat> {
    if f.LabelMark? then Some(f.branchLabel) else None
  }

  /** The label-to-index map of the code, as `create_label_mapping` builds it. */
  function LabelsOf(flows: seq<Flow>): map<nat, nat> {
    LabelMapping(flows, FlowLabel)
  }

  datatype BasicBlock = BasicBlock(startOffset: nat, instructions: seq<nat>)
  {
    /** The first instruction index; the source unwraps it, so an empty block has none. */
    function First(): (r: Option<nat>)
      ensures r.Some? <==> |instructions| > 0
      ensures r.Some? ==> r.value == instructions[0]
    {
      if |instructions| > 0 then Some(instructions[0]) else None
    }

    /** The last instruction index; the source unwraps it, so an empty block has none. */
    function Last(): (r: Option<nat>)
      ensures r.Some? <==> |instructions| > 0
      ensures r.Some? ==> r.value == instructions[|instructions| - 1]
    {
      if |instructions| > 0 then Some(instructions[|instructions| - 1]) else None
    }
  }

  // Leaders

  /** The elements of `s` below `n` in ascending order: how the ordered leader set is read out. */
  function Below(s: set<nat>, n: nat): (r: seq<nat>)
    ensures forall x :: x in r <==> x in s && x < n
    ensures forall i, j :: 0 <= i < j < |r| ==> r[i] < r[j]
    ensures forall i :: 0 <= i < |r| ==> r[i] < n
  {
    if n == 0 then []
    else
      var below := Below(s, n - 1);
      assert forall i :: 0 <= i < |below| ==> below[i] in below;
      below + (if n - 1 in s then [n - 1] else [])
  }

  /** The leader set and the `prev_is_branch` flag of the leader scan. */
  datatype Scan = Scan(leaders: set<nat>, prevIsBranch: bool)

  /** One step of the leader scan at instruction `index`; `None` when a branch names an unmapped label. */
  function ScanStep(labels: map<nat, nat>, s: Scan, index: nat, f: Flow): Option<Scan> {
    if index == 0 then Some(Scan(s.leaders + {0}, s.prevIsBranch))
    else if f.IsBranch() then
      if f.branchLabel in labels then Some(Scan(s.leaders + {labels[f.branchLabel]}, true)) else None
    else if f.Exit? then Some(Scan(s.leaders, true))
    else if s.prevIsBranch then Some(Scan(s.leaders + {index}, false))
    else Some(s)
  }

  /** The leader scan over the first `k` instructions. */
  function ScanUpTo(labels: map<nat, nat>, flows: seq<Flow>, k: nat): Option<Scan>
    requires k <= |flows|
  {
    if k == 0 then Some(Scan({}, false))
    else
      var s :- ScanUpTo(labels, flows, k - 1);
      ScanStep(labels, s, k - 1, flows[k - 1])
  }

  /** The sorted leaders of the code, `None` where the source panics on an unmapped label. */
  function LeadersOf(flows: seq<Flow>): Option<seq<nat>> {
    var s :- ScanUpTo(LabelsOf(flows), flows, |flows|);
    Some(Below(s.leaders, |flows|))
  }

  /** Every branch after the first instruction, among the first `k`, names a mapped label. */
  ghost predicate LabelsResolved(labels: map<nat, nat>, flows: seq<Flow>, k: nat)
    requires k <= |flows|
  {
    forall j :: 0 < j < k && flows[j].IsBranch() ==> flows[j].branchLabel in labels
  }

  /**
   * `x` is a leader of the first `k` instructions: the first instruction, the target of a branch
   * after the first instruction, or an instruction that is neither a branch nor a return and
   * follows one (the instruction at index 1 never counts: the flag is not set at index 0).
   */
  ghost predicate IsLeader(labels: map<nat, nat>, flows: seq<Flow>, k: nat, x: nat)
    requires k <= |flows|
  {
    || (x == 0 && k > 0)
    || (exists j :: 0 < j < k && flows[j].IsBranch() && flows[j].branchLabel in labels && labels[flows[j].branchLabel] == x)
    || (2 <= x < k && !flows[x].EndsBlock() && flows[x - 1].EndsBlock())
  }

  /** The scan fails exactly on an unmapped label, and otherwise collects exactly the leaders. */
  lemma {:induction false} ScanMeaning(labels: map<nat, nat>, flows: seq<Flow>, k: nat)
    requires k <= |flows|
    ensures ScanUpTo(labels, flows, k).Some? <==> LabelsResolved(labels, flows, k)
    ensures ScanUpTo(labels, flows, k).Some? ==>
      var s := ScanUpTo(labels, flows, k).value;
      && (forall x :: x in s.leaders <==> IsLeader(labels, flows, k, x))
      && s.prevIsBranch == (k >= 2 && flows[k - 1].EndsBlock())
  {
    if k > 0 {
      ScanMeaning(labels, flows, k - 1);
      var prev := ScanUpTo(labels, flows, k - 1);
      var f := flows[k - 1];
      if prev.Some? {
      } else {
        assert !LabelsResolved(labels, flows, k - 1);
        var j :| 0 < j < k - 1 && flows[j].IsBranch() && flows[j].branchLabel !in labels;
      }
    }
  }

  lemma ScanUpToStep(labels: map<nat, nat>, flows: seq<Flow>, k: nat)
    requires k < |flows|
    ensures ScanUpTo(labels, flows, k + 1) ==
      if ScanUpTo(labels, flows, k).Some? then ScanStep(labels, ScanUpTo(labels, flows, k).value, k, flows[k]) else None
  {
  }

  /** Once the scan has failed it stays failed. */
  lemma {:induction false} ScanFailureStays(labels: map<nat, nat>, flows: seq<Flow>, i: nat, k: nat)
    requires i <= k <= |flows| && ScanUpTo(labels, flows, i).None?
    ensures ScanUpTo(labels, flows, k).None?
    decreases k - i
  {
    if i < k {
      ScanFailureStays(labels, flows, i + 1, k);
    }
  }

  /** The label map sends every label to an instruction index of the code. */
  lemma LabelsInCode(flows: seq<Flow>)
    ensures forall key :: key in LabelsOf(flows) ==> LabelsOf(flows)[key] < |flows|
  {
    forall key | key in LabelsOf(flows) ensures LabelsOf(flows)[key] < |flows| {
      LabelMappingMeaning(flows, FlowLabel, key);
    }
  }

  ghost predicate StrictlyAscending(s: seq<nat>) {
    forall i, j :: 0 <= i < j < |s| ==> s[i] < s[j]
  }

  /** The leaders exist exactly when every branch after the first instruction names a mapped label. */
  lemma LeadersExist(flows: seq<Flow>)
    ensures LeadersOf(flows).Some? <==> LabelsResolved(LabelsOf(flows), flows, |flows|)
  {
    ScanMeaning(LabelsOf(flows), flows, |flows|);
  }

  /** The leaders found are exactly the instructions that `IsLeader` describes. */
  lemma LeadersElements(flows: seq<Flow>)
    requires LeadersOf(flows).Some?
    ensures forall x :: x in LeadersOf(flows).value <==> IsLeader(LabelsOf(flows), flows, |flows|, x)
  {
    var labels := LabelsOf(flows);
    ScanMeaning(labels, flows, |flows|);
    LabelsInCode(flows);
    forall x: nat | IsLeader(labels, flows, |flows|, x) ensures x < |flows| {
      if x != 0 && !(2 <= x < |flows|) {
        var j :| 0 < j < |flows| && flows[j].IsBranch() && flows[j].branchLabel in labels && labels[flows[j].branchLabel] == x;
      }
    }
  }

  /** The leaders are in strictly ascending order, are instruction indices, and start with 0 in non-empty code. */
  lemma LeadersOrdered(flows: seq<Flow>)
    requires LeadersOf(flows).Some?
    ensures var r := LeadersOf(flows).value;
      && StrictlyAscending(r)
      && (forall i :: 0 <= i < |r| ==> r[i] < |flows|)
      && (|flows| > 0 ==> |r| > 0 && r[0] == 0)
  {
    var r := LeadersOf(flows).value;
    assert forall i :: 0 <= i < |r| ==> r[i] in r;
    if |flows| > 0 {
      LeadersElements(flows);
      assert 0 in r;
      var i :| 0 <= i < |r| && r[i] == 0;
    }
  }

  /** A branch label is mapped exactly when some instruction marks it. */
  lemma MappedLabelMarked(flows: seq<Flow>, l: nat)
    ensures l in LabelsOf(flows) <==> exists k :: 0 <= k < |flows| && flows[k] == LabelMark(l)
  {
    LabelMappingMeaning(flows, FlowLabel, l);
    if exists k :: 0 <= k < |flows| && flows[k] == LabelMark(l) {
      var k :| 0 <= k < |flows| && flows[k] == LabelMark(l);
      assert FlowLabel(flows[k]) == Some(l);
    }
    if l in LabelsOf(flows) {
      var k := LabelsOf(flows)[l];
      assert FlowLabel(flows[k]) == Some(l);
    }
  }

  /** A branch after the first instruction to a label no instruction marks makes the leader scan panic. */
  lemma UnmarkedLabelFails(flows: seq<Flow>, j: nat)
    requires 0 < j < |flows| && flows[j].IsBranch()
    requires forall k :: 0 <= k < |flows| ==> flows[k] != LabelMark(flows[j].branchLabel)
    ensures LeadersOf(flows).None?
  {
    MappedLabelMarked(flows, flows[j].branchLabel);
    LeadersExist(flows);
  }

  /** A branch at index 0 does not make its target a leader: the scan skips that instruction. */
  lemma BranchAtZeroIgnored()
    ensures LeadersOf([Jump(0), Straight, LabelMark(0)]) == Some([0])
  {
    var flows := [Jump(0), Straight, LabelMark(0)];
    LeadersExist(flows);
    LeadersElements(flows);
    LeadersOrdered(flows);
    var r := LeadersOf(flows).value;
    forall x: nat | IsLeader(LabelsOf(flows), flows, 3, x) ensures x == 0 {
    }
    SortedSingleton(r, 0);
  }

  /** A strictly ascending sequence whose only element is `x` is `[x]`. */
  lemma SortedSingleton(r: seq<nat>, x: nat)
    requires |r| > 0 && StrictlyAscending(r)
    requires forall y :: y in r ==> y == x
    ensures r == [x]
  {
    assert r[0] in r && r[|r| - 1] in r;
  }

  /** Collects the leaders in one pass, as `find_leaders` does, with the ordered set read out at the end. */
  method FindLeaders(flows: seq<Flow>) returns (r: Option<seq<nat>>)
    ensures r == LeadersOf(flows)
  {
    var labels := CreateLabelMapping(flows, FlowLabel);
    var leaders: set<nat> := {};
    var prevIsBranch := false;
    var i := 0;
    while i < |flows|
      invariant 0 <= i <= |flows|
      invariant ScanUpTo(labels, flows, i) == Some(Scan(leaders, prevIsBranch))
    {
      var f := flows[i];
      if i == 0 {
        leaders := leaders + {0};
      } else if f.IsBranch() {
        if f.branchLabel !in labels {
          ScanFailureStays(labels, flows, i + 1, |flows|);
          return None;
        }
        leaders := leaders + {labels[f.branchLabel]};
        prevIsBranch := true;
      } else if f.Exit? {
        prevIsBranch := true;
      } else if prevIsBranch {
        leaders := leaders + {i};
        prevIsBranch := false;
      }
      i := i + 1;
    }
    r := Some(Below(leaders, |flows|));
  }

  // Blocks

  /** Where the block of the `i`-th leader ends (exclusive): the next leader or the end of the code. */
  function BlockEnd(leaders: seq<nat>, n: nat, i: nat): nat
    requires i < |leaders|
  {
    if i + 1 < |leaders| then leaders[i + 1] else n
  }

  function BlockAt(leaders: seq<nat>, n: nat, i: nat): BasicBlock
    requires i < |leaders|
  {
    BasicBlock(leaders[i], Range(leaders[i], BlockEnd(leaders, n, i)))
  }

  function BlocksFrom(leaders: seq<nat>, n: nat): seq<BasicBlock> {
    seq(|leaders|, i requires 0 <= i < |leaders| => BlockAt(leaders, n, i))
  }

  /** The basic blocks of the code, `None` where finding the leaders panics. */
  function BlocksOf(flows: seq<Flow>): Option<seq<BasicBlock>> {
    var leaders :- LeadersOf(flows);
    Some(BlocksFrom(leaders, |flows|))
  }

  /** Builds one block per leader, listing its instruction indices one by one. */
  method CreateBlocks(flows: seq<Flow>) returns (blocks: Option<seq<BasicBlock>>)
    ensures blocks == BlocksOf(flows)
  {
    var found := FindLeaders(flows);
    if found.None? {
      return None;
    }
    var leaders := found.value;
    var result: seq<BasicBlock> := [];
    var leaderIndex := 0;
    while leaderIndex < |leaders|
      invariant 0 <= leaderIndex <= |leaders|
      invariant |result| == leaderIndex
      invariant forall j :: 0 <= j < leaderIndex ==> result[j] == BlockAt(leaders, |flows|, j)
    {
      var leader := leaders[leaderIndex];
      var end := if leaderIndex + 1 < |leaders| then leaders[leaderIndex + 1] else |flows|;
      var blockInstructions: seq<nat> := [];
      var instructionIndex := leader;
      while instructionIndex < end
        invariant leader <= instructionIndex
        invariant leader <= end ==> instructionIndex <= end
        invariant end < leader ==> instructionIndex == leader
        invariant blockInstructions == Range(leader, instructionIndex)
      {
        RangeSplit(leader, instructionIndex, instructionIndex + 1);
        blockInstructions := blockInstructions + [instructionIndex];
        instructionIndex := instructionIndex + 1;
      }
      assert end == BlockEnd(leaders, |flows|, leaderIndex);
      assert blockInstructions == Range(leader, end);
      result := result + [BasicBlock(leader, blockInstructions)];
      leaderIndex := leaderIndex + 1;
    }
    assert result == BlocksFrom(leaders, |flows|);
    blocks := Some(result);
  }

  /** The instruction indices of the blocks, block after block. */
  function Concat(blocks: seq<BasicBlock>): seq<nat> {
    if |blocks| == 0 then [] else Concat(blocks[..|blocks| - 1]) + blocks[|blocks| - 1].instructions
  }

  /** Puts the blocks' instruction indices back together, as `linearize` does. */
  method Linearize(blocks: seq<BasicBlock>) returns (instructions: seq<nat>)
    ensures instructions == Concat(blocks)
  {
    instructions := [];
    var i := 0;
    while i < |blocks|
      invariant 0 <= i <= |blocks|
      invariant instructions == Concat(blocks[..i])
    {
      assert blocks[..i + 1][..i] == blocks[..i];
      instructions := instructions + blocks[i].instructions;
      i := i + 1;
    }
    assert blocks[..i] == blocks;
  }


  /** The first `k` blocks of ascending leaders below `n` cover the indices from the first leader to the `k`-th block's end. */
  lemma {:induction false} ConcatPrefix(leaders: seq<nat>, n: nat, k: nat)
    requires StrictlyAscending(leaders) && forall i :: 0 <= i < |leaders| ==> leaders[i] < n
    requires 0 < k <= |leaders|
    ensures Concat(BlocksFrom(leaders, n)[..k]) == Range(leaders[0], BlockEnd(leaders, n, k - 1))
  {
    var blocks := BlocksFrom(leaders, n);
    assert blocks[..k][..k - 1] == blocks[..k - 1];
    if k == 1 {
      assert blocks[..0] == [];
    } else {
      ConcatPrefix(leaders, n, k - 1);
      RangeSplit(leaders[0], leaders[k - 1], BlockEnd(leaders, n, k - 1));
    }
  }

  /** The blocks partition the code: put back together they give 0..n-1 in order. */
  lemma BlocksPartition(flows: seq<Flow>)
    requires BlocksOf(flows).Some?
    ensures Concat(BlocksOf(flows).value) == Range(0, |flows|)
  {
    LeadersOrdered(flows);
    var leaders := LeadersOf(flows).value;
    var blocks := BlocksOf(flows).value;
    if |leaders| > 0 {
      ConcatPrefix(leaders, |flows|, |leaders|);
      assert blocks[..|leaders|] == blocks;
    }
  }

  /**
   * There is one block per leader; each starts at its leader, is not empty, and runs from the
   * leader to the instruction before the next leader (or to the last instruction).
   */
  lemma BlockShape(flows: seq<Flow>, i: nat)
    requires BlocksOf(flows).Some?
    ensures |BlocksOf(flows).value| == |LeadersOf(flows).value|
    ensures i < |BlocksOf(flows).value| ==>
      var b := BlocksOf(flows).value[i]; var leaders := LeadersOf(flows).value;
      && b.startOffset == leaders[i]
      && b.First() == Some(leaders[i])
      && b.Last() == Some(BlockEnd(leaders, |flows|, i) - 1)
  {
    LeadersOrdered(flows);
  }

  /** Code with no branch, and no return before its last instruction, has the single leader 0. */
  lemma StraightLineLeaders(flows: seq<Flow>)
    requires |flows| > 0
    requires forall k :: 0 <= k < |flows| ==> !flows[k].IsBranch()
    requires forall k :: 0 <= k < |flows| - 1 ==> !flows[k].Exit?
    ensures LeadersOf(flows) == Some([0])
  {
    LeadersExist(flows);
    LeadersElements(flows);
    LeadersOrdered(flows);
    var r := LeadersOf(flows).value;
    forall x: nat | IsLeader(LabelsOf(flows), flows, |flows|, x) ensures x == 0 {
    }
    SortedSingleton(r, 0);
  }

  /** Such straight-line code is a single block holding every instruction. */
  lemma StraightLineOneBlock(flows: seq<Flow>)
    requires |flows| > 0
    requires forall k :: 0 <= k < |flows| ==> !flows[k].IsBranch()
    requires forall k :: 0 <= k < |flows| - 1 ==> !flows[k].Exit?
    ensures BlocksOf(flows) == Some([BasicBlock(0, Range(0, |flows|))])
  {
    StraightLineLeaders(flows);
    var blocks := BlocksFrom([0], |flows|);
    assert |blocks| == 1 && blocks[0] == BasicBlock(0, Range(0, |flows|));
    assert blocks == [BasicBlock(0, Range(0, |flows|))];
  }

  /**
   * The code of the two-way branch used in the basic-block tests: a conditional branch at 2 to
   * label 0 (marked at 6), a branch at 5 to label 1 (marked at 9), and a return at 11.
   */
  function TwoWayBranchCode(): seq<Flow> {
    [Straight, Straight, JumpIf(0), Straight, Straight, Jump(1), LabelMark(0), Straight, Straight, LabelMark(1), Straight, Exit]
  }

  /** Its labels 0 and 1 mark instructions 6 and 9. */
  lemma TwoWayBranchLabels()
    ensures LabelsOf(TwoWayBranchCode()) == map[0 := 6, 1 := 9]
  {
    var flows := TwoWayBranchCode();
    LabelMappingMeaning(flows, FlowLabel, 0);
    LabelMappingMeaning(flows, FlowLabel, 1);
    assert FlowLabel(flows[6]) == Some(0) && FlowLabel(flows[9]) == Some(1);
    forall l | l in LabelsOf(flows) ensures l == 0 || l == 1 {
      LabelMappingMeaning(flows, FlowLabel, l);
    }
  }

  /** The leader scan over its first six instructions. */
  lemma TwoWayBranchScanFirstHalf()
    ensures var s := ScanUpTo(LabelsOf(TwoWayBranchCode()), TwoWayBranchCode(), 6);
      s.Some? && s.value.leaders == {0, 3, 6, 9} && s.value.prevIsBranch
  {
    var flows := TwoWayBranchCode();
    var labels := LabelsOf(flows);
    TwoWayBranchLabels();
    ScanUpToStep(labels, flows, 0);
    assert ScanUpTo(labels, flows, 1).Some? && ScanUpTo(labels, flows, 1).value.leaders == {0} && ScanUpTo(labels, flows, 1).value.prevIsBranch == false;
    ScanUpToStep(labels, flows, 1);
    assert ScanUpTo(labels, flows, 2).Some? && ScanUpTo(labels, flows, 2).value.leaders == {0} && ScanUpTo(labels, flows, 2).value.prevIsBranch == false;
    ScanUpToStep(labels, flows, 2);
    assert ScanUpTo(labels, flows, 3).Some? && ScanUpTo(labels, flows, 3).value.leaders == {0, 6} && ScanUpTo(labels, flows, 3).value.prevIsBranch == true;
    ScanUpToStep(labels, flows, 3);
    assert ScanUpTo(labels, flows, 4).Some? && ScanUpTo(labels, flows, 4).value.leaders == {0, 3, 6} && ScanUpTo(labels, flows, 4).value.prevIsBranch == false;
    ScanUpToStep(labels, flows, 4);
    assert ScanUpTo(labels, flows, 5).Some? && ScanUpTo(labels, flows, 5).value.leaders == {0, 3, 6} && ScanUpTo(labels, flows, 5).value.prevIsBranch == false;
    ScanUpToStep(labels, flows, 5);
    assert ScanUpTo(labels, flows, 6).Some? && ScanUpTo(labels, flows, 6).value.leaders == {0, 3, 6, 9} && ScanUpTo(labels, flows, 6).value.prevIsBranch == true;
  }

  /** The leader scan over the whole code. */
  lemma TwoWayBranchScan()
    ensures var s := ScanUpTo(LabelsOf(TwoWayBranchCode()), TwoWayBranchCode(), 12);
      s.Some? && s.value.leaders == {0, 3, 6, 9}
  {
    var flows := TwoWayBranchCode();
    var labels := LabelsOf(flows);
    TwoWayBranchScanFirstHalf();
    ScanUpToStep(labels, flows, 6);
    assert ScanUpTo(labels, flows, 7).Some? && ScanUpTo(labels, flows, 7).value.leaders == {0, 3, 6, 9} && ScanUpTo(labels, flows, 7).value.prevIsBranch == false;
    ScanUpToStep(labels, flows, 7);
    assert ScanUpTo(labels, flows, 8).Some? && ScanUpTo(labels, flows, 8).value.leaders == {0, 3, 6, 9} && ScanUpTo(labels, flows, 8).value.prevIsBranch == false;
    ScanUpToStep(labels, flows, 8);
    assert ScanUpTo(labels, flows, 9).Some? && ScanUpTo(labels, flows, 9).value.leaders == {0, 3, 6, 9} && ScanUpTo(labels, flows, 9).value.prevIsBranch == false;
    ScanUpToStep(labels, flows, 9);
    assert ScanUpTo(labels, flows, 10).Some? && ScanUpTo(labels, flows, 10).value.leaders == {0, 3, 6, 9} && ScanUpTo(labels, flows, 10).value.prevIsBranch == false;
    ScanUpToStep(labels, flows, 10);
    assert ScanUpTo(labels, flows, 11).Some? && ScanUpTo(labels, flows, 11).value.leaders == {0, 3, 6, 9} && ScanUpTo(labels, flows, 11).value.prevIsBranch == false;
    ScanUpToStep(labels, flows, 11);
    assert ScanUpTo(labels, flows, 12).Some? && ScanUpTo(labels, flows, 12).value.leaders == {0, 3, 6, 9} && ScanUpTo(labels, flows, 12).value.prevIsBranch == true;
  }

  /** The ordered read-out of a set is the ascending sequence with its elements. */
  lemma BelowIsAscending(s: set<nat>, n: nat, t: seq<nat>)
    requires StrictlyAscending(t) && forall x :: x in t <==> x in s && x < n
    ensures Below(s, n) == t
  {
    SortedByElements(Below(s, n), t);
  }

  lemma TwoWayBranchLeadersInOrder(s: set<nat>, n: nat)
    requires s == {0, 3, 6, 9} && n == 12
    ensures Below(s, n) == [0, 3, 6, 9]
  {
    var t := [0, 3, 6, 9];
    assert StrictlyAscending(t);
    forall x ensures x in t <==> x in s && x < n {
    }
    BelowIsAscending(s, n, t);
  }

  /** That code has the leaders 0, 3, 6 and 9 and so four blocks. */
  lemma TwoWayBranchFourBlocks(flows: seq<Flow>)
    requires flows == TwoWayBranchCode()
    ensures LeadersOf(flows) == Some([0, 3, 6, 9])
    ensures BlocksOf(flows).Some? && |BlocksOf(flows).value| == 4
  {
    TwoWayBranchScan();
    var s := ScanUpTo(LabelsOf(flows), flows, 12).value;
    assert LeadersOf(flows) == Some(Below(s.leaders, 12));
    TwoWayBranchLeadersInOrder(s.leaders, |flows|);
    assert |BlocksFrom([0, 3, 6, 9], 12)| == 4;
  }

  /** Two strictly ascending sequences with the same elements are equal. */
  lemma {:induction false} SortedByElements(r: seq<nat>, t: seq<nat>)
    requires StrictlyAscending(r) && StrictlyAscending(t)
    requires forall x :: x in r <==> x in t
    ensures r == t
    decreases |r| + |t|
  {
    if |r| > 0 {
      assert r[0] in r;
    }
    if |t| > 0 {
      assert t[0] in t;
    }
    if |r| > 0 && |t| > 0 {
      assert r[0] == t[0] by {
        assert r[0] in t && t[0] in r;
        var i :| 0 <= i < |t| && t[i] == r[0];
        var j :| 0 <= j < |r| && r[j] == t[0];
      }
      forall x ensures x in r[1..] <==> x in t[1..] {
        if x in r[1..] {
          var i :| 0 <= i < |r| - 1 && r[1..][i] == x;
          assert r[0] < r[i + 1] && r[i + 1] in r;
          var i' :| 0 <= i' < |t| && t[i'] == x;
          assert i' > 0 && t[1..][i' - 1] == x;
        }
        if x in t[1..] {
          var i :| 0 <= i < |t| - 1 && t[1..][i] == x;
          assert t[0] < t[i + 1] && t[i + 1] in t;
          var i' :| 0 <= i' < |r| && r[i'] == x;
          assert i' > 0 && r[1..][i' - 1] == x;
        }
      }
      SortedByElements(r[1..], t[1..]);
      assert r == [r[0]] + r[1..] && t == [t[0]] + t[1..];
    }
  }
}
