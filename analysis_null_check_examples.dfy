/**
 * The older null-check analysis on the compiled forms of small one-block functions: returning
 * null, and reading an element of a freshly allocated array.
 */
module NullCheckAnalysisExamples {
  import opened Wrappers
  import opened TypeIds
  import opened Mid
  import opened BasicBlocks
  import opened NullStatuses
  import opened NullCheckAnalysis

  function IntRegister(n: nat): VirtualRegister { VirtualRegister(n, Int32) }

  /** The compiled form of `ldnull int[]; ret`. */
  function ReturnNull(): seq<MidInstruction> {
    var arrayRef := VirtualRegister(0, Array(Int32));
    [MidInstruction(0, LoadNull(arrayRef)), MidInstruction(1, Return(Some(arrayRef)))]
  }

  /** Before the return, the loaded null is known and may be null. */
  lemma ReturnNullStatuses()
    ensures var r := NullCheckElision([], ReturnNull(), [], [BasicBlock(0, [0, 1])]);
      r == Some([map[], map[VirtualRegister(0, Array(Int32)) := true]])
  {
    var effects := BlockEffects([], ReturnNull(), BasicBlock(0, [0, 1]));
    assert effects == [MayBeNull(VirtualRegister(0, Array(Int32))), Keep];
    var expected: seq<RegisterStatus> := [map[], map[VirtualRegister(0, Array(Int32)) := true], map[VirtualRegister(0, Array(Int32)) := true]];
    assert Run(map[], effects[..0]) == Some(BlockResult([], map[]));
    Advance(map[], effects, expected, 0);
    Advance(map[], effects, expected, 1);
    assert effects[..2] == effects && expected[..2] == [map[], map[VirtualRegister(0, Array(Int32)) := true]];
  }

  /**
   * The compiled form of `ldc 1000; newarr element; ldc 0; ldelem element; ret`: the array and
   * the loaded element share register number 0 but not their type.
   */
  function LoadFromNewArray(element: TypeId): seq<MidInstruction> {
    var arrayRef, loaded := VirtualRegister(0, Array(element)), VirtualRegister(0, element);
    [MidInstruction(0, LoadInt32(IntRegister(0), 1000)),
     MidInstruction(1, NewArray(element, arrayRef, IntRegister(0))),
     MidInstruction(2, LoadInt32(IntRegister(1), 0)),
     MidInstruction(3, LoadElement(element, loaded, arrayRef, IntRegister(1))),
     MidInstruction(4, Return(Some(loaded)))]
  }

  function LoadFromNewArrayBlock(): BasicBlock { BasicBlock(0, [0, 1, 2, 3, 4]) }

  /** The element load writes a reference, which may be null, only when the element type is a reference. */
  function ElementEffect(element: TypeId): Effect<VirtualRegister> {
    if element.IsReference() then MayBeNull(VirtualRegister(0, element)) else Keep
  }

  lemma LoadFromNewArrayEffects(element: TypeId)
    ensures BlockInCode(LoadFromNewArray(element), LoadFromNewArrayBlock())
    ensures BlockEffects([], LoadFromNewArray(element), LoadFromNewArrayBlock()) == LoadFromNewArrayEffectList(element)
  {
  }

  /** The array register non-null, and the loaded element may-be-null when it is a reference. */
  function AfterLoad(element: TypeId): RegisterStatus {
    var known := map[VirtualRegister(0, Array(element)) := false];
    if element.IsReference() then known[VirtualRegister(0, element) := true] else known
  }

  function LoadFromNewArrayTrace(element: TypeId): seq<RegisterStatus> {
    var known := map[VirtualRegister(0, Array(element)) := false];
    [map[], map[], known, known, AfterLoad(element), AfterLoad(element)]
  }

  function LoadFromNewArrayEffectList(element: TypeId): seq<Effect<VirtualRegister>> {
    [Keep, NonNull(VirtualRegister(0, Array(element))), Keep, ElementEffect(element), Keep]
  }

  /** The constant, the allocation and the index constant. */
  lemma LoadFromNewArrayStart(element: TypeId)
    ensures Run(map[], LoadFromNewArrayEffectList(element)[..3]) == Some(BlockResult(LoadFromNewArrayTrace(element)[..3], LoadFromNewArrayTrace(element)[3]))
  {
    var effects, expected := LoadFromNewArrayEffectList(element), LoadFromNewArrayTrace(element);
    assert Run(map[], effects[..0]) == Some(BlockResult([], map[]));
    Advance(map[], effects, expected, 0);
    Advance(map[], effects, expected, 1);
    Advance(map[], effects, expected, 2);
  }

  lemma LoadFromNewArrayRun(element: TypeId)
    ensures Run(map[], LoadFromNewArrayEffectList(element)) == Some(BlockResult(LoadFromNewArrayTrace(element)[..5], AfterLoad(element)))
  {
    var effects, expected := LoadFromNewArrayEffectList(element), LoadFromNewArrayTrace(element);
    LoadFromNewArrayStart(element);
    Advance(map[], effects, expected, 3);
    Advance(map[], effects, expected, 4);
    assert effects[..5] == effects;
  }

  /**
   * Every instruction after the allocation sees the array register non-null. Before the return,
   * an element that is a reference is known and may be null, so the map has two entries;
   * otherwise the array register is the only one known.
   */
  lemma LoadFromNewArrayStatuses(element: TypeId)
    ensures var r := NullCheckElision([], LoadFromNewArray(element), [], [LoadFromNewArrayBlock()]);
      var arrayRef := VirtualRegister(0, Array(element));
      r.Some? && |r.value| == 5 &&
      (forall k :: 2 <= k < 5 ==> arrayRef in r.value[k] && !r.value[k][arrayRef]) &&
      |r.value[2]| == 1 && |r.value[3]| == 1 &&
      |r.value[4]| == (if element.IsReference() then 2 else 1) &&
      (element.IsReference() ==> VirtualRegister(0, element) in r.value[4] && r.value[4][VirtualRegister(0, element)])
  {
    LoadFromNewArrayEffects(element);
    LoadFromNewArrayRun(element);
    assert InitialStatus([]) == map[];
    ElementIsNotItsArray(element);
  }

  /** An array type differs from its element type, so the array and the element registers differ. */
  lemma ElementIsNotItsArray(element: TypeId)
    ensures VirtualRegister(0, Array(element)) != VirtualRegister(0, element)
  {
    assert element < Array(element);
  }
}
