/**
 * The null-check elision analysis on the compiled forms of small functions: one straight-line
 * function and two with a two-way branch whose paths meet again.
 */
module NullCheckExamples {
  import opened Wrappers
  import opened TypeIds
  import Program
  import opened Mir
  import opened BasicBlocks
  import opened ControlFlowGraphs
  import opened NullStatuses
  import opened NullCheckElision
  import opened Ranges

  function IntArray(): TypeId { Array(Int32) }

  /** Register `n` holding an array of `Int32`. */
  function ArrayRegister(n: nat): RegisterMir { RegisterMir(n, IntArray()) }

  function IntRegister(n: nat): RegisterMir { RegisterMir(n, Int32) }

  /**
   * The compiled form of a function with one array local that allocates an array into it, reads
   * an element back, then stores null into it and returns the element.
   */
  function StraightLine(): seq<InstructionMir> {
    [InstructionMir(0, LoadInt32(IntRegister(1), 1000)),
     InstructionMir(1, NewArray(Int32, ArrayRegister(1), IntRegister(1))),
     InstructionMir(2, Move(ArrayRegister(0), ArrayRegister(1))),
     InstructionMir(3, Move(ArrayRegister(1), ArrayRegister(0))),
     InstructionMir(4, LoadInt32(IntRegister(2), 0)),
     InstructionMir(5, LoadElement(Int32, IntRegister(1), ArrayRegister(1), IntRegister(2))),
     InstructionMir(6, LoadNull(ArrayRegister(2))),
     InstructionMir(7, Move(ArrayRegister(0), ArrayRegister(2))),
     InstructionMir(8, Return(Some(IntRegister(1))))]
  }

  function StraightLineBlocks(): seq<BasicBlock> {
    [BasicBlock(0, [0, 1, 2, 3, 4, 5, 6, 7, 8])]
  }

  function StraightLineEffects(): seq<Effect<RegisterMir>> {
    [Keep, NonNull(ArrayRegister(1)), CopyStatus(ArrayRegister(0), ArrayRegister(1)), CopyStatus(ArrayRegister(1), ArrayRegister(0)),
     Keep, Keep, MayBeNull(ArrayRegister(2)), CopyStatus(ArrayRegister(0), ArrayRegister(2)), Keep]
  }

  /** Only the allocation, the reference moves and the null load act on the statuses; the element load writes an `Int32`. */
  lemma StraightLineEffectsAre()
    ensures BlockEffects([], StraightLine(), StraightLineBlocks()[0]) == StraightLineEffects()
  {
  }

  /** The statuses before each instruction, and after the last. */
  function StraightLineExpected(): seq<RegisterStatus> {
    [map[ArrayRegister(0) := true],
     map[ArrayRegister(0) := true],
     map[ArrayRegister(0) := true, ArrayRegister(1) := false],
     map[ArrayRegister(0) := false, ArrayRegister(1) := false],
     map[ArrayRegister(0) := false, ArrayRegister(1) := false],
     map[ArrayRegister(0) := false, ArrayRegister(1) := false],
     map[ArrayRegister(0) := false, ArrayRegister(1) := false],
     map[ArrayRegister(0) := false, ArrayRegister(1) := false, ArrayRegister(2) := true],
     map[ArrayRegister(0) := true, ArrayRegister(1) := false, ArrayRegister(2) := true]]
  }

  /** The map updates the moves and the null load perform. */
  lemma StraightLineTransitions()
    ensures var a0, a1, a2 := ArrayRegister(0), ArrayRegister(1), ArrayRegister(2);
      map[a0 := true, a1 := false][a0 := false] == map[a0 := false, a1 := false] &&
      map[a0 := false, a1 := false][a1 := false] == map[a0 := false, a1 := false] &&
      map[a0 := false, a1 := false][a2 := true] == map[a0 := false, a1 := false, a2 := true] &&
      map[a0 := false, a1 := false, a2 := true][a0 := true] == map[a0 := true, a1 := false, a2 := true]
  {
    var a0, a1, a2 := ArrayRegister(0), ArrayRegister(1), ArrayRegister(2);
    assert a0 != a1 && a0 != a2 && a1 != a2;
  }

  /** The statuses before each instruction followed by the exit status. */
  function StraightLineTrace(): seq<RegisterStatus> {
    StraightLineExpected() + [StraightLineExpected()[8]]
  }

  /** The allocation and the two moves through the local. */
  lemma StraightLineFirstHalf()
    ensures Run(map[ArrayRegister(0) := true], StraightLineEffects()[..5]) == Some(BlockResult(StraightLineTrace()[..5], StraightLineTrace()[5]))
  {
    var effects, expected := StraightLineEffects(), StraightLineTrace();
    var start := map[ArrayRegister(0) := true];
    assert Run(start, effects[..0]) == Some(BlockResult([], start));
    Advance(start, effects, expected, 0);
    Advance(start, effects, expected, 1);
    StraightLineTransitions();
    Advance(start, effects, expected, 2);
    Advance(start, effects, expected, 3);
    Advance(start, effects, expected, 4);
  }

  /** The element load, the null load and the store of null into the local. */
  lemma StraightLineSecondHalf()
    ensures Run(map[ArrayRegister(0) := true], StraightLineEffects()[..9]) == Some(BlockResult(StraightLineTrace()[..9], StraightLineTrace()[9]))
  {
    var effects, expected := StraightLineEffects(), StraightLineTrace();
    var start := map[ArrayRegister(0) := true];
    StraightLineFirstHalf();
    StraightLineTransitions();
    Advance(start, effects, expected, 5);
    Advance(start, effects, expected, 6);
    Advance(start, effects, expected, 7);
    Advance(start, effects, expected, 8);
  }

  lemma StraightLineRun()
    ensures Run(map[ArrayRegister(0) := true], StraightLineEffects()) == Some(BlockResult(StraightLineExpected(), StraightLineExpected()[8]))
  {
    var effects, expected := StraightLineEffects(), StraightLineTrace();
    StraightLineSecondHalf();
    assert effects[..9] == effects && expected[..9] == StraightLineExpected();
  }

  /**
   * The local starts may-be-null; the allocated array is non-null and so is the local once it is
   * stored there; the null load makes the new register may-be-null, and storing it makes the
   * local may-be-null again.
   */
  lemma StraightLineStatuses()
    ensures NullCheckElision.NullCheckElision([], StraightLine(), [ArrayRegister(0)], StraightLineBlocks(), map[]) == Some(StraightLineExpected())
  {
    StraightLineEffectsAre();
    StraightLineRun();
    assert InitialStatus([ArrayRegister(0)]) == map[ArrayRegister(0) := true];
  }

  /**
   * The compiled form of a function with one array local that compares two constants and, on one
   * path, stores null into the local and, on the other, a new array (`allocateBoth` false), or
   * stores a new array on both paths (`allocateBoth` true); both paths then return the local.
   */
  function TwoPaths(allocateBoth: bool): seq<InstructionMir> {
    var a0, a1, i1, i2 := ArrayRegister(0), ArrayRegister(1), IntRegister(1), IntRegister(2);
    [InstructionMir(0, LoadInt32(i1, 0)),
     InstructionMir(1, LoadInt32(i2, 0)),
     InstructionMir(2, BranchCondition(Program.Equal, Int32, 0, i1, i2))] +
    (if allocateBoth then
       [InstructionMir(3, LoadInt32(i1, 1000)),
        InstructionMir(4, NewArray(Int32, a1, i1)),
        InstructionMir(5, Move(a0, a1)),
        InstructionMir(6, Branch(1))]
     else
       [InstructionMir(3, LoadNull(a1)),
        InstructionMir(4, Move(a0, a1)),
        InstructionMir(5, Branch(1))]) +
    [InstructionMir(7, BranchLabel(0)),
     InstructionMir(7, LoadInt32(i1, 1000)),
     InstructionMir(8, NewArray(Int32, a1, i1)),
     InstructionMir(9, Move(a0, a1)),
     InstructionMir(10, BranchLabel(1)),
     InstructionMir(10, Move(a1, a0)),
     InstructionMir(11, Return(Some(a1)))]
  }

  /** The four blocks: the comparison, the two paths and the join. */
  function TwoPathsBlocks(allocateBoth: bool): seq<BasicBlock> {
    if allocateBoth then [BasicBlock(0, [0, 1, 2]), BasicBlock(3, [3, 4, 5, 6]), BasicBlock(7, [7, 8, 9, 10]), BasicBlock(11, [11, 12, 13])]
    else [BasicBlock(0, [0, 1, 2]), BasicBlock(3, [3, 4, 5]), BasicBlock(6, [6, 7, 8, 9]), BasicBlock(10, [10, 11, 12])]
  }

  /** Each path is entered from the comparison, and the join from both paths. */
  function TwoPathsBackEdges(): map<nat, seq<Edge>> {
    map[1 := [Edge(1, 0)], 2 := [Edge(2, 0)], 3 := [Edge(3, 1), Edge(3, 2)]]
  }

  function Entry(): RegisterStatus { map[ArrayRegister(0) := true] }

  function Both(local: bool, temporary: bool): RegisterStatus { map[ArrayRegister(0) := local, ArrayRegister(1) := temporary] }

  lemma TwoPathsShape(allocateBoth: bool)
    ensures BlocksInCode(TwoPaths(allocateBoth), TwoPathsBlocks(allocateBoth))
  {
  }


  /** The effects of the first path's instructions: a null or a new array into the temporary, moved into the local. */
  function FirstPathEffects(allocateBoth: bool): seq<Effect<RegisterMir>> {
    if allocateBoth then [Keep, NonNull(ArrayRegister(1)), CopyStatus(ArrayRegister(0), ArrayRegister(1)), Keep]
    else [MayBeNull(ArrayRegister(1)), CopyStatus(ArrayRegister(0), ArrayRegister(1)), Keep]
  }

  /** The effects of the second path's instructions: a new array into the temporary, moved into the local. */
  function SecondPathEffects(): seq<Effect<RegisterMir>> {
    [Keep, Keep, NonNull(ArrayRegister(1)), CopyStatus(ArrayRegister(0), ArrayRegister(1))]
  }

  /** The effects of the join's instructions: the local is moved back into the temporary that is returned. */
  function JoinBlockEffects(): seq<Effect<RegisterMir>> {
    [Keep, CopyStatus(ArrayRegister(1), ArrayRegister(0)), Keep]
  }

  function TwoPathsEffects(allocateBoth: bool): seq<seq<Effect<RegisterMir>>> {
    [[Keep, Keep, Keep], FirstPathEffects(allocateBoth), SecondPathEffects(), JoinBlockEffects()]
  }

  lemma FirstBlockEffectsAre(allocateBoth: bool)
    ensures BlockInCode(TwoPaths(allocateBoth), TwoPathsBlocks(allocateBoth)[0])
    ensures BlockEffects([], TwoPaths(allocateBoth), TwoPathsBlocks(allocateBoth)[0]) == [Keep, Keep, Keep]
  {
  }

  lemma FirstPathEffectsAre(allocateBoth: bool)
    ensures BlockInCode(TwoPaths(allocateBoth), TwoPathsBlocks(allocateBoth)[1])
    ensures BlockEffects([], TwoPaths(allocateBoth), TwoPathsBlocks(allocateBoth)[1]) == FirstPathEffects(allocateBoth)
  {
  }

  lemma SecondPathEffectsAre(allocateBoth: bool)
    ensures BlockInCode(TwoPaths(allocateBoth), TwoPathsBlocks(allocateBoth)[2])
    ensures BlockEffects([], TwoPaths(allocateBoth), TwoPathsBlocks(allocateBoth)[2]) == SecondPathEffects()
  {
  }

  lemma JoinEffectsAre(allocateBoth: bool)
    ensures BlockInCode(TwoPaths(allocateBoth), TwoPathsBlocks(allocateBoth)[3])
    ensures BlockEffects([], TwoPaths(allocateBoth), TwoPathsBlocks(allocateBoth)[3]) == JoinBlockEffects()
  {
  }

  /** Only the null load, the allocations and the reference moves act on the statuses. */
  lemma TwoPathsEffectsAre(allocateBoth: bool)
    ensures BlocksInCode(TwoPaths(allocateBoth), TwoPathsBlocks(allocateBoth)) &&
      AllEffects([], TwoPaths(allocateBoth), TwoPathsBlocks(allocateBoth)) == TwoPathsEffects(allocateBoth)
  {
    TwoPathsShape(allocateBoth);
    FirstBlockEffectsAre(allocateBoth);
    FirstPathEffectsAre(allocateBoth);
    SecondPathEffectsAre(allocateBoth);
    JoinEffectsAre(allocateBoth);
    var all := AllEffects([], TwoPaths(allocateBoth), TwoPathsBlocks(allocateBoth));
    assert all[0] == [Keep, Keep, Keep] && all[1] == FirstPathEffects(allocateBoth);
    assert all[2] == SecondPathEffects() && all[3] == JoinBlockEffects();
  }

  /** The map updates along the two paths and at the join. */
  lemma TwoPathsTransitions()
    ensures Entry()[ArrayRegister(1) := true] == Both(true, true)
    ensures Entry()[ArrayRegister(1) := false] == Both(true, false)
    ensures Both(true, false)[ArrayRegister(0) := false] == Both(false, false)
    ensures Both(true, true)[ArrayRegister(0) := true] == Both(true, true)
  {
    assert ArrayRegister(0) != ArrayRegister(1);
  }

  /** The analysis of the first path: from the comparison block's exit, its only predecessor. */
  function FirstPathResult(allocateBoth: bool): BlockResult<RegisterMir> {
    if allocateBoth then BlockResult([Entry(), Entry(), Both(true, false), Both(false, false)], Both(false, false))
    else BlockResult([Entry(), Both(true, true), Both(true, true)], Both(true, true))
  }

  function SecondPathResult(): BlockResult<RegisterMir> {
    BlockResult([Entry(), Entry(), Entry(), Both(true, false)], Both(false, false))
  }

  /** The join: may-be-null after the null path, non-null when both paths allocate. */
  function JoinResult(allocateBoth: bool): BlockResult<RegisterMir> {
    var x := !allocateBoth;
    BlockResult([Both(x, x), Both(x, x), Both(x, x)], Both(x, x))
  }

  function FirstResult(): BlockResult<RegisterMir> { BlockResult([Entry(), Entry(), Entry()], Entry()) }

  /** The comparison block acts on no reference. */
  lemma FirstBlockRun()
    ensures Run(Entry(), [Keep, Keep, Keep]) == Some(FirstResult())
  {
    var effects: seq<Effect<RegisterMir>> := [Keep, Keep, Keep];
    var expected := [Entry(), Entry(), Entry(), Entry()];
    assert Run(Entry(), effects[..0]) == Some(BlockResult([], Entry()));
    Advance(Entry(), effects, expected, 0);
    Advance(Entry(), effects, expected, 1);
    Advance(Entry(), effects, expected, 2);
    assert effects[..3] == effects && expected[..3] == FirstResult().statuses;
  }

  /** The path that stores null leaves both the temporary and the local may-be-null. */
  lemma NullPath()
    ensures Run(Entry(), FirstPathEffects(false)) == Some(FirstPathResult(false))
  {
    var effects := FirstPathEffects(false);
    TwoPathsTransitions();
    var expected := [Entry(), Both(true, true), Both(true, true), Both(true, true)];
    assert Run(Entry(), effects[..0]) == Some(BlockResult([], Entry()));
    Advance(Entry(), effects, expected, 0);
    Advance(Entry(), effects, expected, 1);
    Advance(Entry(), effects, expected, 2);
    assert effects[..3] == effects && expected[..3] == FirstPathResult(false).statuses;
  }

  /** The first path when it allocates: the array is non-null, and so is the local once it is stored. */
  lemma FirstPathAllocating()
    ensures Run(Entry(), FirstPathEffects(true)) == Some(FirstPathResult(true))
  {
    var effects := FirstPathEffects(true);
    TwoPathsTransitions();
    var expected := [Entry(), Entry(), Both(true, false), Both(false, false), Both(false, false)];
    assert Run(Entry(), effects[..0]) == Some(BlockResult([], Entry()));
    Advance(Entry(), effects, expected, 0);
    Advance(Entry(), effects, expected, 1);
    Advance(Entry(), effects, expected, 2);
    Advance(Entry(), effects, expected, 3);
    assert effects[..4] == effects && expected[..4] == FirstPathResult(true).statuses;
  }

  /** The second path, which always allocates, after its label. */
  lemma SecondPath()
    ensures Run(Entry(), SecondPathEffects()) == Some(SecondPathResult())
  {
    var effects := SecondPathEffects();
    TwoPathsTransitions();
    var expected := [Entry(), Entry(), Entry(), Both(true, false), Both(false, false)];
    assert Run(Entry(), effects[..0]) == Some(BlockResult([], Entry()));
    Advance(Entry(), effects, expected, 0);
    Advance(Entry(), effects, expected, 1);
    Advance(Entry(), effects, expected, 2);
    Advance(Entry(), effects, expected, 3);
    assert effects[..4] == effects && expected[..4] == SecondPathResult().statuses;
  }

  /** The join, entered with the local and the temporary at `x` and `y`: the local is copied back into the temporary. */
  lemma JoinRun(x: bool, y: bool)
    ensures Run(Both(x, y), JoinBlockEffects()) == Some(BlockResult([Both(x, y), Both(x, y), Both(x, x)], Both(x, x)))
  {
    var effects := JoinBlockEffects();
    assert ArrayRegister(0) != ArrayRegister(1);
    assert Both(x, y)[ArrayRegister(1) := x] == Both(x, x);
    var expected := [Both(x, y), Both(x, y), Both(x, x), Both(x, x)];
    assert Run(Both(x, y), effects[..0]) == Some(BlockResult([], Both(x, y)));
    Advance(Both(x, y), effects, expected, 0);
    Advance(Both(x, y), effects, expected, 1);
    Advance(Both(x, y), effects, expected, 2);
    assert effects[..3] == effects && expected[..3] == [Both(x, y), Both(x, y), Both(x, x)];
  }

  /** The comparison block has no predecessor and starts from the local, may-be-null. */
  lemma TwoPathsFirst(allocateBoth: bool)
    ensures BlockStep([ArrayRegister(0)], TwoPathsEffects(allocateBoth), TwoPathsBackEdges(), []) == Computed(FirstResult())
  {
    assert InitialStatus([ArrayRegister(0)]) == Entry();
    assert TwoPathsEffects(allocateBoth)[0] == [Keep, Keep, Keep];
    FirstBlockRun();
  }

  /** A block whose only predecessor is the comparison block gets that block's exit run through it. */
  lemma FromFirst(all: seq<seq<Effect<RegisterMir>>>, results: seq<BlockResult<RegisterMir>>, x: BlockResult<RegisterMir>)
    requires 0 < |results| < |all| && |results| in TwoPathsBackEdges() && Preds(TwoPathsBackEdges(), |results|) == {0}
    requires results[0] == FirstResult() && Run(Entry(), all[|results|]) == Some(x)
    ensures BlockStep([ArrayRegister(0)], all, TwoPathsBackEdges(), results) == Computed(x)
  {
    ForwardStep([ArrayRegister(0)], all, TwoPathsBackEdges(), results);
    MergedSingle(0, results, all[|results|]);
  }

  lemma TwoPathsSecondBlock(allocateBoth: bool)
    ensures BlockStep([ArrayRegister(0)], TwoPathsEffects(allocateBoth), TwoPathsBackEdges(), [FirstResult()]) ==
      Computed(FirstPathResult(allocateBoth))
  {
    TwoPathsPreds();
    if allocateBoth {
      FirstPathAllocating();
    } else {
      NullPath();
    }
    FromFirst(TwoPathsEffects(allocateBoth), [FirstResult()], FirstPathResult(allocateBoth));
  }

  lemma TwoPathsThirdBlock(allocateBoth: bool)
    ensures BlockStep([ArrayRegister(0)], TwoPathsEffects(allocateBoth), TwoPathsBackEdges(),
                      [FirstResult(), FirstPathResult(allocateBoth)]) == Computed(SecondPathResult())
  {
    TwoPathsPreds();
    SecondPath();
    FromFirst(TwoPathsEffects(allocateBoth), [FirstResult(), FirstPathResult(allocateBoth)], SecondPathResult());
  }

  lemma TwoPathsLastBlock(allocateBoth: bool)
    ensures BlockStep([ArrayRegister(0)], TwoPathsEffects(allocateBoth), TwoPathsBackEdges(),
                      [FirstResult(), FirstPathResult(allocateBoth), SecondPathResult()]) == Computed(JoinResult(allocateBoth))
  {
    TwoPathsPreds();
    var results := [FirstResult(), FirstPathResult(allocateBoth), SecondPathResult()];
    var all := TwoPathsEffects(allocateBoth);
    assert all[3] == JoinBlockEffects();
    MergeAtJoin(results, !allocateBoth);
    ForwardStep([ArrayRegister(0)], all, TwoPathsBackEdges(), results);
  }

  /** Both analyses of the join, merged: the null path's statuses win, and non-null is kept only when both agree. */
  lemma MergeAtJoin(results: seq<BlockResult<RegisterMir>>, x: bool)
    requires |results| == 3 && results[1].exit == Both(x, x) && results[2].exit == Both(false, false)
    ensures Run(results[1].exit, JoinBlockEffects()).Some? && Run(results[2].exit, JoinBlockEffects()).Some?
    ensures MergedResult({1, 2}, results, JoinBlockEffects()) == BlockResult([Both(x, x), Both(x, x), Both(x, x)], Both(x, x))
  {
    JoinRun(x, x);
    JoinRun(false, false);
    MergeWithNonNull(results, JoinBlockEffects(), x);
  }

  /** Two runs through a three-instruction block, one recording `x` throughout and one non-null throughout, merge to `x`. */
  lemma MergeWithNonNull(results: seq<BlockResult<RegisterMir>>, effects: seq<Effect<RegisterMir>>, x: bool)
    requires |results| == 3 && |effects| == 3
    requires Run(results[1].exit, effects) == Some(BlockResult([Both(x, x), Both(x, x), Both(x, x)], Both(x, x)))
    requires Run(results[2].exit, effects) == Some(BlockResult([Both(false, false), Both(false, false), Both(false, false)], Both(false, false)))
    ensures MergedResult({1, 2}, results, effects) == BlockResult([Both(x, x), Both(x, x), Both(x, x)], Both(x, x))
  {
    JoinWithNonNull(x);
    MergedPair(1, 2, results, effects);
    var merged := MergedResult({1, 2}, results, effects);
    var first, second := Run(results[1].exit, effects).value, Run(results[2].exit, effects).value;
    JoinColumns(first.statuses, second.statuses, merged.statuses, x);
  }

  /** Statuses joined position by position with non-null ones are unchanged. */
  lemma JoinColumns(a: seq<RegisterStatus>, b: seq<RegisterStatus>, merged: seq<RegisterStatus>, x: bool)
    requires a == [Both(x, x), Both(x, x), Both(x, x)] && b == [Both(false, false), Both(false, false), Both(false, false)]
    requires |merged| == 3 && forall k :: 0 <= k < 3 ==> merged[k] == Join(a[k], b[k])
    ensures merged == [Both(x, x), Both(x, x), Both(x, x)]
  {
    JoinWithNonNull(x);
    assert merged[0] == Join(a[0], b[0]) && merged[1] == Join(a[1], b[1]) && merged[2] == Join(a[2], b[2]);
  }

  lemma JoinWithNonNull(x: bool)
    ensures Join(Both(x, x), Both(false, false)) == Both(x, x)
  {
    assert ArrayRegister(0) != ArrayRegister(1);
    assert Join(Both(x, x), Both(false, false)).Keys == Both(x, x).Keys;
  }

  /** The join is entered from both paths, each path from the comparison block. */
  lemma TwoPathsPreds()
    ensures Preds(TwoPathsBackEdges(), 1) == {0} && Preds(TwoPathsBackEdges(), 2) == {0} && Preds(TwoPathsBackEdges(), 3) == {1, 2}
  {
    var backEdges := TwoPathsBackEdges();
    assert Edge(3, 1) in backEdges[3] && Edge(3, 2) in backEdges[3];
    assert Edge(1, 0) in backEdges[1] && Edge(2, 0) in backEdges[2];
  }

  /** Blocks holding consecutive ranges of indices, from 0 on, together hold one range. */
  lemma {:induction false} ConcatRanges(blocks: seq<BasicBlock>, bounds: seq<nat>)
    requires |bounds| == |blocks| + 1 && bounds[0] == 0
    requires forall i :: 0 <= i < |blocks| ==> bounds[i] <= bounds[i + 1] && blocks[i].instructions == Range(bounds[i], bounds[i + 1])
    ensures Concat(blocks) == Range(0, bounds[|blocks|])
    decreases |blocks|
  {
    if |blocks| > 0 {
      var n := |blocks| - 1;
      ConcatRanges(blocks[..n], bounds[..n + 1]);
      RangeSplit(0, bounds[n], bounds[n + 1]);
    }
  }

  lemma TwoPathsConcat(allocateBoth: bool)
    ensures Concat(TwoPathsBlocks(allocateBoth)) == Range(0, if allocateBoth then 14 else 13)
  {
    var blocks := TwoPathsBlocks(allocateBoth);
    var bounds := if allocateBoth then [0, 3, 7, 11, 14] else [0, 3, 6, 10, 13];
    assert blocks[0].instructions == Range(bounds[0], bounds[1]);
    assert blocks[1].instructions == Range(bounds[1], bounds[2]);
    assert blocks[2].instructions == Range(bounds[2], bounds[3]);
    assert blocks[3].instructions == Range(bounds[3], bounds[4]);
    ConcatRanges(blocks, bounds);
  }

  lemma TwoPathsDisjoint(allocateBoth: bool)
    ensures Disjoint(TwoPathsBlocks(allocateBoth))
  {
    TwoPathsConcat(allocateBoth);
    RangeDistinct(0, if allocateBoth then 14 else 13);
    ConcatDistinctDisjoint(TwoPathsBlocks(allocateBoth));
  }

  /** Four steps, each computing its block from the ones before it. */
  lemma FourSteps(locals: seq<RegisterMir>, all: seq<seq<Effect<RegisterMir>>>, backEdges: map<nat, seq<Edge>>,
                  results: seq<BlockResult<RegisterMir>>)
    requires |all| == 4 == |results|
    requires BlockStep(locals, all, backEdges, []) == Computed(results[0])
    requires BlockStep(locals, all, backEdges, [results[0]]) == Computed(results[1])
    requires BlockStep(locals, all, backEdges, [results[0], results[1]]) == Computed(results[2])
    requires BlockStep(locals, all, backEdges, [results[0], results[1], results[2]]) == Computed(results[3])
    ensures forall c {:trigger results[..c]} :: 0 <= c < 4 ==> BlockStep(locals, all, backEdges, results[..c]) == Computed(results[c])
  {
    assert results[..0] == [] && results[..1] == [results[0]] && results[..2] == [results[0], results[1]];
    assert results[..3] == [results[0], results[1], results[2]];
  }

  /** The analysis of each block of the two-path function, in block order. */
  function TwoPathsResults(allocateBoth: bool): seq<BlockResult<RegisterMir>> {
    [FirstResult(), FirstPathResult(allocateBoth), SecondPathResult(), JoinResult(allocateBoth)]
  }

  /** Every block's analysis follows from the analyses of the blocks before it. */
  lemma TwoPathsSteps(allocateBoth: bool)
    ensures forall c {:trigger TwoPathsResults(allocateBoth)[..c]} :: 0 <= c < 4 ==>
      BlockStep([ArrayRegister(0)], TwoPathsEffects(allocateBoth), TwoPathsBackEdges(), TwoPathsResults(allocateBoth)[..c]) ==
      Computed(TwoPathsResults(allocateBoth)[c])
  {
    TwoPathsFirst(allocateBoth);
    TwoPathsSecondBlock(allocateBoth);
    TwoPathsThirdBlock(allocateBoth);
    TwoPathsLastBlock(allocateBoth);
    FourSteps([ArrayRegister(0)], TwoPathsEffects(allocateBoth), TwoPathsBackEdges(), TwoPathsResults(allocateBoth));
  }

  /** Blocks as long as the two-path effects have room for the two-path results. */
  lemma TwoPathsFits(allocateBoth: bool, blocks: seq<BasicBlock>)
    requires |blocks| == 4 && forall b :: 0 <= b < 4 ==> |blocks[b].instructions| == |TwoPathsEffects(allocateBoth)[b]|
    ensures Fits(blocks, TwoPathsResults(allocateBoth)) && |blocks[3].instructions| == 3
  {
    var effects, results := TwoPathsEffects(allocateBoth), TwoPathsResults(allocateBoth);
    assert |blocks[0].instructions| == |effects[0]| && |blocks[1].instructions| == |effects[1]|;
    assert |blocks[2].instructions| == |effects[2]| && |blocks[3].instructions| == |effects[3]|;
  }

  /** The analysis of any code whose four blocks have the two-path effects: the join's statuses are recorded at its instructions. */
  lemma TwoPathsOutcome(allocateBoth: bool, code: seq<InstructionMir>, blocks: seq<BasicBlock>, k: nat)
    requires BlocksInCode(code, blocks) && |blocks| == 4 && Disjoint(blocks)
    requires AllEffects([], code, blocks) == TwoPathsEffects(allocateBoth) && k < 3
    ensures var r := NullCheckElision.NullCheckElision([], code, [ArrayRegister(0)], blocks, TwoPathsBackEdges());
      |blocks[3].instructions| == 3 && r.Some? && |r.value| == |code| && r.value[blocks[3].instructions[k]] == JoinResult(allocateBoth).statuses[k]
  {
    TwoPathsSteps(allocateBoth);
    TwoPathsFits(allocateBoth, blocks);
    StepsMeaning([], code, [ArrayRegister(0)], blocks, TwoPathsBackEdges(), TwoPathsResults(allocateBoth), 3, k);
  }

  /**
   * Before the return at the join, the local may be null when one path stores null into it, and
   * is non-null when both paths store a new array.
   */
  lemma TwoPathsAtReturn(allocateBoth: bool)
    ensures BlocksInCode(TwoPaths(allocateBoth), TwoPathsBlocks(allocateBoth))
    ensures var r := NullCheckElision.NullCheckElision([], TwoPaths(allocateBoth), [ArrayRegister(0)], TwoPathsBlocks(allocateBoth), TwoPathsBackEdges());
      var i := if allocateBoth then 13 else 12;
      r.Some? && |r.value| == |TwoPaths(allocateBoth)| && |r.value[i]| == 2 &&
      ArrayRegister(0) in r.value[i] && r.value[i][ArrayRegister(0)] == !allocateBoth
  {
    TwoPathsEffectsAre(allocateBoth);
    TwoPathsDisjoint(allocateBoth);
    TwoPathsOutcome(allocateBoth, TwoPaths(allocateBoth), TwoPathsBlocks(allocateBoth), 2);
    assert TwoPathsBlocks(allocateBoth)[3].instructions[2] == if allocateBoth then 13 else 12;
    BothKnown(!allocateBoth, !allocateBoth);
  }

  /** A status of the local and the temporary knows exactly those two registers. */
  lemma BothKnown(local: bool, temporary: bool)
    ensures |Both(local, temporary)| == 2 && ArrayRegister(0) in Both(local, temporary) && Both(local, temporary)[ArrayRegister(0)] == local
  {
    assert ArrayRegister(0) != ArrayRegister(1);
  }
}
