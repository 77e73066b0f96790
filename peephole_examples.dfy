/**
 * The load-local pass on the compiled forms of small one-block functions, and a function on
 * which the pass as written changes the value the function computes. Each lemma takes the pass
 * one instruction further.
 */
module PeepholeExamples {
  import opened Wrappers
  import opened TypeIds
  import opened Mir
  import opened BasicBlocks
  import opened Peephole

  function R(n: nat): RegisterMir { RegisterMir(n, Int32) }

  function I(index: nat, d: MirData): InstructionMir { InstructionMir(index, d) }

  function P(local: nat, load: nat): Pending { Pending(R(local), load) }

  function Start(code: seq<InstructionMir>): Pass { Pass(code, LoadState(map[], {})) }

  /** The compiled form of `ldloc 0; ret` with one local. */
  function LoadReturn(): seq<InstructionMir> {
    [I(0, Move(R(1), R(0))), I(1, Return(Some(R(1))))]
  }

  /** The load of the local is pending. */
  lemma LoadReturnThrough1(version: Version)
    ensures Reached(version, {R(0)}, LoadReturn(), 1,
      Pass(LoadReturn(), LoadState(map[R(1) := P(0, 0)], {})))
  {
    PassStarts(version, {R(0)}, LoadReturn());
    PassRecordsLoad(version, {R(0)}, LoadReturn(), 0,
      Start(LoadReturn()), R(1), R(0));
  }

  /** The return reads it: the checked version forgets it there, and nothing is marked. */
  lemma LoadReturnThrough2(version: Version)
    ensures Reached(version, {R(0)}, LoadReturn(), 2,
      Pass(LoadReturn(), LoadState(if version.Checked? then map[] else map[R(1) := P(0, 0)], {})))
  {
    LoadReturnThrough1(version);
    PassAdvance(version, {R(0)}, LoadReturn(), 1,
      Pass(LoadReturn(), LoadState(map[R(1) := P(0, 0)], {})), Pass(LoadReturn(), LoadState(if version.Checked? then map[] else map[R(1) := P(0, 0)], {})));
  }

  /** The load the return reads is not an addition's operand, so both instructions stay. */
  lemma LoadReturnKept(version: Version)
    ensures LoadLocalRemoval(version, {R(0)}, LoadReturn(), WholeBlock(2)).code == LoadReturn()
  {
    LoadReturnThrough2(version);
    UnremovedNone(2);
    RemovalKeeps(version, {R(0)}, LoadReturn(), Pass(LoadReturn(), LoadState(if version.Checked? then map[] else map[R(1) := P(0, 0)], {})), Positions(2));
    PickAll(LoadReturn());
  }

  /** The compiled form of `ldc 4711; ldloc 0; add; ret` with one local. */
  function ConstantPlusLocal(): seq<InstructionMir> {
    [I(0, LoadInt32(R(1), 4711)), I(1, Move(R(2), R(0))), I(2, AddInt32(R(1), R(1), R(2))), I(3, Return(Some(R(1))))]
  }

  function ConstantPlusLocalRewritten(): seq<InstructionMir> {
    ConstantPlusLocal()[2 := I(2, AddInt32(R(1), R(1), R(0)))]
  }

  /** The constant leaves nothing pending. */
  lemma ConstantPlusLocalThrough1(version: Version)
    ensures Reached(version, {R(0)}, ConstantPlusLocal(), 1,
      Start(ConstantPlusLocal()))
  {
    PassStarts(version, {R(0)}, ConstantPlusLocal());
    PassKeepsLoads(version, {R(0)}, ConstantPlusLocal(), 0,
      Start(ConstantPlusLocal()), LoadInt32(R(1), 4711));
  }

  /** The load of the local is pending. */
  lemma ConstantPlusLocalThrough2(version: Version)
    ensures Reached(version, {R(0)}, ConstantPlusLocal(), 2,
      Pass(ConstantPlusLocal(), LoadState(map[R(2) := P(0, 1)], {})))
  {
    ConstantPlusLocalThrough1(version);
    PassRecordsLoad(version, {R(0)}, ConstantPlusLocal(), 1,
      Start(ConstantPlusLocal()), R(2), R(0));
  }

  /** The addition takes it as its second operand and marks it for removal. */
  lemma ConstantPlusLocalThrough3(version: Version)
    ensures Reached(version, {R(0)}, ConstantPlusLocal(), 3,
      Pass(ConstantPlusLocalRewritten(), LoadState(map[], {1})))
  {
    ConstantPlusLocalThrough2(version);
    ConstantPlusLocalAt2();
    PassTakesOperands(version, {R(0)}, ConstantPlusLocal(), 2,
      Pass(ConstantPlusLocal(), LoadState(map[R(2) := P(0, 1)], {})), AddInt32(R(1), R(1), R(2)));
  }

  /** The return leaves the state alone. */
  lemma ConstantPlusLocalThrough4(version: Version)
    ensures Reached(version, {R(0)}, ConstantPlusLocal(), 4,
      Pass(ConstantPlusLocalRewritten(), LoadState(map[], {1})))
  {
    ConstantPlusLocalThrough3(version);
    ConstantPlusLocalAt3();
    PassKeepsLoads(version, {R(0)}, ConstantPlusLocal(), 3,
      Pass(ConstantPlusLocalRewritten(), LoadState(map[], {1})), Return(Some(R(1))));
  }

  /** The addition reads the local directly and its load is gone. */
  lemma ConstantPlusLocalCombined(version: Version)
    ensures LoadLocalRemoval(version, {R(0)}, ConstantPlusLocal(), WholeBlock(4)).code ==
      [I(0, LoadInt32(R(1), 4711)), I(2, AddInt32(R(1), R(1), R(0))), I(3, Return(Some(R(1))))]
  {
    ConstantPlusLocalThrough4(version);
    KeepsThreeOfFour();
    RemovalKeeps(version, {R(0)}, ConstantPlusLocal(), Pass(ConstantPlusLocalRewritten(), LoadState(map[], {1})), [0, 2, 3]);
    ConstantPlusLocalPicked();
  }

  /** The compiled form of `ldloc 0; ldloc 1; add; ret` with two locals. */
  function LocalPlusLocal(): seq<InstructionMir> {
    [I(0, Move(R(2), R(0))), I(1, Move(R(3), R(1))), I(2, AddInt32(R(2), R(2), R(3))), I(3, Return(Some(R(2))))]
  }

  function LocalPlusLocalRewritten(): seq<InstructionMir> {
    LocalPlusLocal()[2 := I(2, AddInt32(R(2), R(0), R(1)))]
  }

  /** The load of the first local is pending. */
  lemma LocalPlusLocalThrough1(version: Version)
    ensures Reached(version, {R(0), R(1)}, LocalPlusLocal(), 1,
      Pass(LocalPlusLocal(), LoadState(map[R(2) := P(0, 0)], {})))
  {
    PassStarts(version, {R(0), R(1)}, LocalPlusLocal());
    PassRecordsLoad(version, {R(0), R(1)}, LocalPlusLocal(), 0,
      Start(LocalPlusLocal()), R(2), R(0));
  }

  /** So is the load of the second. */
  lemma LocalPlusLocalThrough2(version: Version)
    ensures Reached(version, {R(0), R(1)}, LocalPlusLocal(), 2,
      Pass(LocalPlusLocal(), LoadState(map[R(2) := P(0, 0), R(3) := P(1, 1)], {})))
  {
    LocalPlusLocalThrough1(version);
    PassRecordsLoad(version, {R(0), R(1)}, LocalPlusLocal(), 1,
      Pass(LocalPlusLocal(), LoadState(map[R(2) := P(0, 0)], {})), R(3), R(1));
  }

  /** The addition takes both and marks them for removal. */
  lemma LocalPlusLocalThrough3(version: Version)
    ensures Reached(version, {R(0), R(1)}, LocalPlusLocal(), 3,
      Pass(LocalPlusLocalRewritten(), LoadState(map[], {0, 1})))
  {
    LocalPlusLocalThrough2(version);
    LocalPlusLocalAt2();
    PassTakesOperands(version, {R(0), R(1)}, LocalPlusLocal(), 2,
      Pass(LocalPlusLocal(), LoadState(map[R(2) := P(0, 0), R(3) := P(1, 1)], {})), AddInt32(R(2), R(2), R(3)));
  }

  /** The return leaves the state alone. */
  lemma LocalPlusLocalThrough4(version: Version)
    ensures Reached(version, {R(0), R(1)}, LocalPlusLocal(), 4,
      Pass(LocalPlusLocalRewritten(), LoadState(map[], {0, 1})))
  {
    LocalPlusLocalThrough3(version);
    LocalPlusLocalAt3();
    PassKeepsLoads(version, {R(0), R(1)}, LocalPlusLocal(), 3,
      Pass(LocalPlusLocalRewritten(), LoadState(map[], {0, 1})), Return(Some(R(2))));
  }

  /** Both loads are gone and the addition reads both locals. */
  lemma LocalPlusLocalCombined(version: Version)
    ensures LoadLocalRemoval(version, {R(0), R(1)}, LocalPlusLocal(), WholeBlock(4)).code ==
      [I(2, AddInt32(R(2), R(0), R(1))), I(3, Return(Some(R(2))))]
  {
    LocalPlusLocalThrough4(version);
    KeepsLastTwoOfFour();
    RemovalKeeps(version, {R(0), R(1)}, LocalPlusLocal(), Pass(LocalPlusLocalRewritten(), LoadState(map[], {0, 1})), [2, 3]);
    LocalPlusLocalPicked();
  }

  /** The compiled form of `ldloc 0; ldloc 0; add; ret` with one local. */
  function LocalTwice(): seq<InstructionMir> {
    [I(0, Move(R(1), R(0))), I(1, Move(R(2), R(0))), I(2, AddInt32(R(1), R(1), R(2))), I(3, Return(Some(R(1))))]
  }

  function LocalTwiceRewritten(): seq<InstructionMir> {
    LocalTwice()[2 := I(2, AddInt32(R(1), R(0), R(0)))]
  }

  /** The first load of the local is pending. */
  lemma LocalTwiceThrough1(version: Version)
    ensures Reached(version, {R(0)}, LocalTwice(), 1,
      Pass(LocalTwice(), LoadState(map[R(1) := P(0, 0)], {})))
  {
    PassStarts(version, {R(0)}, LocalTwice());
    PassRecordsLoad(version, {R(0)}, LocalTwice(), 0,
      Start(LocalTwice()), R(1), R(0));
  }

  /** So is the second, into another temporary. */
  lemma LocalTwiceThrough2(version: Version)
    ensures Reached(version, {R(0)}, LocalTwice(), 2,
      Pass(LocalTwice(), LoadState(map[R(1) := P(0, 0), R(2) := P(0, 1)], {})))
  {
    LocalTwiceThrough1(version);
    PassRecordsLoad(version, {R(0)}, LocalTwice(), 1,
      Pass(LocalTwice(), LoadState(map[R(1) := P(0, 0)], {})), R(2), R(0));
  }

  /** The addition takes both and marks them for removal. */
  lemma LocalTwiceThrough3(version: Version)
    ensures Reached(version, {R(0)}, LocalTwice(), 3,
      Pass(LocalTwiceRewritten(), LoadState(map[], {0, 1})))
  {
    LocalTwiceThrough2(version);
    LocalTwiceAt2();
    PassTakesOperands(version, {R(0)}, LocalTwice(), 2,
      Pass(LocalTwice(), LoadState(map[R(1) := P(0, 0), R(2) := P(0, 1)], {})), AddInt32(R(1), R(1), R(2)));
  }

  /** The return leaves the state alone. */
  lemma LocalTwiceThrough4(version: Version)
    ensures Reached(version, {R(0)}, LocalTwice(), 4,
      Pass(LocalTwiceRewritten(), LoadState(map[], {0, 1})))
  {
    LocalTwiceThrough3(version);
    LocalTwiceAt3();
    PassKeepsLoads(version, {R(0)}, LocalTwice(), 3,
      Pass(LocalTwiceRewritten(), LoadState(map[], {0, 1})), Return(Some(R(1))));
  }

  /** Both loads of the same local are gone and the addition reads it twice. */
  lemma LocalTwiceCombined(version: Version)
    ensures LoadLocalRemoval(version, {R(0)}, LocalTwice(), WholeBlock(4)).code ==
      [I(2, AddInt32(R(1), R(0), R(0))), I(3, Return(Some(R(1))))]
  {
    LocalTwiceThrough4(version);
    KeepsLastTwoOfFour();
    RemovalKeeps(version, {R(0)}, LocalTwice(), Pass(LocalTwiceRewritten(), LoadState(map[], {0, 1})), [2, 3]);
    LocalTwicePicked();
  }

  /**
   * The compiled form of `ldc 1337; stloc 0; ldc 4711; stloc 1; ldloc 0; ldloc 1; add; ldloc 0;
   * add; ret` with two locals.
   */
  function StoreThenAdd(): seq<InstructionMir> {
    [I(0, LoadInt32(R(2), 1337)), I(1, Move(R(0), R(2))), I(2, LoadInt32(R(2), 4711)), I(3, Move(R(1), R(2))),
     I(4, Move(R(2), R(0))), I(5, Move(R(3), R(1))), I(6, AddInt32(R(2), R(2), R(3))),
     I(7, Move(R(3), R(0))), I(8, AddInt32(R(2), R(2), R(3))), I(9, Return(Some(R(2))))]
  }

  function StoreThenAddFirstSum(): seq<InstructionMir> {
    StoreThenAdd()[6 := I(6, AddInt32(R(2), R(0), R(1)))]
  }

  function StoreThenAddRewritten(): seq<InstructionMir> {
    StoreThenAddFirstSum()[8 := I(8, AddInt32(R(2), R(2), R(0)))]
  }

  /** The first constant leaves nothing pending. */
  lemma StoreThenAddThrough1(version: Version)
    ensures Reached(version, {R(0), R(1)}, StoreThenAdd(), 1,
      Start(StoreThenAdd()))
  {
    PassStarts(version, {R(0), R(1)}, StoreThenAdd());
    PassKeepsLoads(version, {R(0), R(1)}, StoreThenAdd(), 0,
      Start(StoreThenAdd()), LoadInt32(R(2), 1337));
  }

  /** Neither does its store into the first local. */
  lemma StoreThenAddThrough2(version: Version)
    ensures Reached(version, {R(0), R(1)}, StoreThenAdd(), 2,
      Start(StoreThenAdd()))
  {
    StoreThenAddThrough1(version);
    PassKeepsLoads(version, {R(0), R(1)}, StoreThenAdd(), 1,
      Start(StoreThenAdd()), Move(R(0), R(2)));
  }

  /** Nor the second constant. */
  lemma StoreThenAddThrough3(version: Version)
    ensures Reached(version, {R(0), R(1)}, StoreThenAdd(), 3,
      Start(StoreThenAdd()))
  {
    StoreThenAddThrough2(version);
    PassKeepsLoads(version, {R(0), R(1)}, StoreThenAdd(), 2,
      Start(StoreThenAdd()), LoadInt32(R(2), 4711));
  }

  /** Nor its store into the second local. */
  lemma StoreThenAddThrough4(version: Version)
    ensures Reached(version, {R(0), R(1)}, StoreThenAdd(), 4,
      Start(StoreThenAdd()))
  {
    StoreThenAddThrough3(version);
    PassKeepsLoads(version, {R(0), R(1)}, StoreThenAdd(), 3,
      Start(StoreThenAdd()), Move(R(1), R(2)));
  }

  /** The load of the first local is pending. */
  lemma StoreThenAddThrough5(version: Version)
    ensures Reached(version, {R(0), R(1)}, StoreThenAdd(), 5,
      Pass(StoreThenAdd(), LoadState(map[R(2) := P(0, 4)], {})))
  {
    StoreThenAddThrough4(version);
    PassRecordsLoad(version, {R(0), R(1)}, StoreThenAdd(), 4,
      Start(StoreThenAdd()), R(2), R(0));
  }

  /** So is the load of the second. */
  lemma StoreThenAddThrough6(version: Version)
    ensures Reached(version, {R(0), R(1)}, StoreThenAdd(), 6,
      Pass(StoreThenAdd(), LoadState(map[R(2) := P(0, 4), R(3) := P(1, 5)], {})))
  {
    StoreThenAddThrough5(version);
    PassRecordsLoad(version, {R(0), R(1)}, StoreThenAdd(), 5,
      Pass(StoreThenAdd(), LoadState(map[R(2) := P(0, 4)], {})), R(3), R(1));
  }

  /** The first addition takes both and marks them for removal. */
  lemma StoreThenAddThrough7(version: Version)
    ensures Reached(version, {R(0), R(1)}, StoreThenAdd(), 7,
      Pass(StoreThenAddFirstSum(), LoadState(map[], {4, 5})))
  {
    StoreThenAddThrough6(version);
    StoreThenAddAt6();
    PassTakesOperands(version, {R(0), R(1)}, StoreThenAdd(), 6,
      Pass(StoreThenAdd(), LoadState(map[R(2) := P(0, 4), R(3) := P(1, 5)], {})), AddInt32(R(2), R(2), R(3)));
  }

  /** The first local is loaded again. */
  lemma StoreThenAddThrough8(version: Version)
    ensures Reached(version, {R(0), R(1)}, StoreThenAdd(), 8,
      Pass(StoreThenAddFirstSum(), LoadState(map[R(3) := P(0, 7)], {4, 5})))
  {
    StoreThenAddThrough7(version);
    StoreThenAddAt7();
    PassRecordsLoad(version, {R(0), R(1)}, StoreThenAdd(), 7,
      Pass(StoreThenAddFirstSum(), LoadState(map[], {4, 5})), R(3), R(0));
  }

  /** The second addition takes that load; its first operand is the first sum. */
  lemma StoreThenAddThrough9(version: Version)
    ensures Reached(version, {R(0), R(1)}, StoreThenAdd(), 9,
      Pass(StoreThenAddRewritten(), LoadState(map[], {4, 5, 7})))
  {
    StoreThenAddThrough8(version);
    StoreThenAddAt8();
    PassTakesOperands(version, {R(0), R(1)}, StoreThenAdd(), 8,
      Pass(StoreThenAddFirstSum(), LoadState(map[R(3) := P(0, 7)], {4, 5})), AddInt32(R(2), R(2), R(3)));
  }

  /** The return leaves the state alone. */
  lemma StoreThenAddThrough10(version: Version)
    ensures Reached(version, {R(0), R(1)}, StoreThenAdd(), 10,
      Pass(StoreThenAddRewritten(), LoadState(map[], {4, 5, 7})))
  {
    StoreThenAddThrough9(version);
    StoreThenAddAt9();
    PassKeepsLoads(version, {R(0), R(1)}, StoreThenAdd(), 9,
      Pass(StoreThenAddRewritten(), LoadState(map[], {4, 5, 7})), Return(Some(R(2))));
  }

  /** The three loads are gone; the constants, the stores and both additions stay, the additions reading the locals. */
  lemma StoreThenAddCombined(version: Version)
    ensures LoadLocalRemoval(version, {R(0), R(1)}, StoreThenAdd(), WholeBlock(10)).code ==
      [I(0, LoadInt32(R(2), 1337)), I(1, Move(R(0), R(2))), I(2, LoadInt32(R(2), 4711)), I(3, Move(R(1), R(2))),
       I(6, AddInt32(R(2), R(0), R(1))), I(8, AddInt32(R(2), R(2), R(0))), I(9, Return(Some(R(2))))]
  {
    StoreThenAddThrough10(version);
    KeepsSevenOfTen();
    RemovalKeeps(version, {R(0), R(1)}, StoreThenAdd(), Pass(StoreThenAddRewritten(), LoadState(map[], {4, 5, 7})), [0, 1, 2, 3, 6, 8, 9]);
    StoreThenAddPicked();
  }

  /**
   * The compiled form of `ldloc 0; ldc 1; stloc 0; ldc 2; add; ret` with one local: the
   * addition's first operand is the local's value before the store.
   */
  function AddAfterStore(): seq<InstructionMir> {
    [I(0, Move(R(1), R(0))), I(1, LoadInt32(R(2), 1)), I(2, Move(R(0), R(2))), I(3, LoadInt32(R(2), 2)),
     I(4, AddInt32(R(1), R(1), R(2))), I(5, Return(Some(R(1))))]
  }

  function AddAfterStoreRewritten(): seq<InstructionMir> {
    AddAfterStore()[4 := I(4, AddInt32(R(1), R(0), R(2)))]
  }

  /** The load of the local is pending. */
  lemma AddAfterStoreThrough1(version: Version)
    ensures Reached(version, {R(0)}, AddAfterStore(), 1,
      Pass(AddAfterStore(), LoadState(map[R(1) := P(0, 0)], {})))
  {
    PassStarts(version, {R(0)}, AddAfterStore());
    PassRecordsLoad(version, {R(0)}, AddAfterStore(), 0,
      Start(AddAfterStore()), R(1), R(0));
  }

  /** The constant leaves it pending. */
  lemma AddAfterStoreThrough2(version: Version)
    ensures Reached(version, {R(0)}, AddAfterStore(), 2,
      Pass(AddAfterStore(), LoadState(map[R(1) := P(0, 0)], {})))
  {
    AddAfterStoreThrough1(version);
    PassKeepsLoads(version, {R(0)}, AddAfterStore(), 1,
      Pass(AddAfterStore(), LoadState(map[R(1) := P(0, 0)], {})), LoadInt32(R(2), 1));
  }

  /** As written, the store into the local leaves the load pending. */
  lemma AddAfterStoreAsWrittenThrough3()
    ensures Reached(AsWritten, {R(0)}, AddAfterStore(), 3,
      Pass(AddAfterStore(), LoadState(map[R(1) := P(0, 0)], {})))
  {
    AddAfterStoreThrough2(AsWritten);
    PassAdvance(AsWritten, {R(0)}, AddAfterStore(), 2,
      Pass(AddAfterStore(), LoadState(map[R(1) := P(0, 0)], {})), Pass(AddAfterStore(), LoadState(map[R(1) := P(0, 0)], {})));
  }

  /** So does the second constant. */
  lemma AddAfterStoreAsWrittenThrough4()
    ensures Reached(AsWritten, {R(0)}, AddAfterStore(), 4,
      Pass(AddAfterStore(), LoadState(map[R(1) := P(0, 0)], {})))
  {
    AddAfterStoreAsWrittenThrough3();
    PassKeepsLoads(AsWritten, {R(0)}, AddAfterStore(), 3,
      Pass(AddAfterStore(), LoadState(map[R(1) := P(0, 0)], {})), LoadInt32(R(2), 2));
  }

  /** The addition takes the load, reading the local after the store. */
  lemma AddAfterStoreAsWrittenThrough5()
    ensures Reached(AsWritten, {R(0)}, AddAfterStore(), 5,
      Pass(AddAfterStoreRewritten(), LoadState(map[], {0})))
  {
    AddAfterStoreAsWrittenThrough4();
    AddAfterStoreAsWrittenAt4();
    PassTakesOperands(AsWritten, {R(0)}, AddAfterStore(), 4,
      Pass(AddAfterStore(), LoadState(map[R(1) := P(0, 0)], {})), AddInt32(R(1), R(1), R(2)));
  }

  /** The return leaves the state alone. */
  lemma AddAfterStoreAsWrittenThrough6()
    ensures Reached(AsWritten, {R(0)}, AddAfterStore(), 6,
      Pass(AddAfterStoreRewritten(), LoadState(map[], {0})))
  {
    AddAfterStoreAsWrittenThrough5();
    AddAfterStoreAsWrittenAt5();
    PassKeepsLoads(AsWritten, {R(0)}, AddAfterStore(), 5,
      Pass(AddAfterStoreRewritten(), LoadState(map[], {0})), Return(Some(R(1))));
  }

  /** The checked pass forgets the load at the store into its local. */
  lemma AddAfterStoreCheckedThrough3()
    ensures Reached(Checked, {R(0)}, AddAfterStore(), 3,
      Start(AddAfterStore()))
  {
    AddAfterStoreThrough2(Checked);
    PassAdvance(Checked, {R(0)}, AddAfterStore(), 2,
      Pass(AddAfterStore(), LoadState(map[R(1) := P(0, 0)], {})), Start(AddAfterStore()));
  }

  /** The second constant leaves nothing pending. */
  lemma AddAfterStoreCheckedThrough4()
    ensures Reached(Checked, {R(0)}, AddAfterStore(), 4,
      Start(AddAfterStore()))
  {
    AddAfterStoreCheckedThrough3();
    PassKeepsLoads(Checked, {R(0)}, AddAfterStore(), 3,
      Start(AddAfterStore()), LoadInt32(R(2), 2));
  }

  /** So the addition keeps its operands. */
  lemma AddAfterStoreCheckedThrough5()
    ensures Reached(Checked, {R(0)}, AddAfterStore(), 5,
      Start(AddAfterStore()))
  {
    AddAfterStoreCheckedThrough4();
    AddAfterStoreCheckedAt4();
    PassTakesOperands(Checked, {R(0)}, AddAfterStore(), 4,
      Start(AddAfterStore()), AddInt32(R(1), R(1), R(2)));
  }

  /** The return leaves the state alone. */
  lemma AddAfterStoreCheckedThrough6()
    ensures Reached(Checked, {R(0)}, AddAfterStore(), 6,
      Start(AddAfterStore()))
  {
    AddAfterStoreCheckedThrough5();
    PassKeepsLoads(Checked, {R(0)}, AddAfterStore(), 5,
      Start(AddAfterStore()), Return(Some(R(1))));
  }

  /**
   * As written, the pass removes the load and leaves the rest, with the addition reading the
   * local after the store.
   */
  lemma AddAfterStoreAsWritten()
    ensures LoadLocalRemoval(AsWritten, {R(0)}, AddAfterStore(), WholeBlock(6)).code == AddAfterStoreRewritten()[1..]
  {
    AddAfterStoreAsWrittenThrough6();
    KeepsLastFiveOfSix();
    RemovalKeeps(AsWritten, {R(0)}, AddAfterStore(), Pass(AddAfterStoreRewritten(), LoadState(map[], {0})), [1, 2, 3, 4, 5]);
    AddAfterStorePicked();
  }

  /** The checked pass leaves the function as it is. */
  lemma AddAfterStoreChecked()
    ensures LoadLocalRemoval(Checked, {R(0)}, AddAfterStore(), WholeBlock(6)).code == AddAfterStore()
  {
    AddAfterStoreCheckedThrough6();
    UnremovedNone(6);
    RemovalKeeps(Checked, {R(0)}, AddAfterStore(), Start(AddAfterStore()), Positions(6));
    PickAll(AddAfterStore());
  }

  // Which positions the removal keeps

  lemma KeepsLastFiveOfSix() ensures Unremoved(6, {0}) == [1, 2, 3, 4, 5] {}

  lemma KeepsThreeOfFour() ensures Unremoved(4, {1}) == [0, 2, 3] {}

  lemma KeepsLastTwoOfFour() ensures Unremoved(4, {0, 1}) == [2, 3] {}

  lemma KeepsSevenOfTen() ensures Unremoved(10, {4, 5, 7}) == [0, 1, 2, 3, 6, 8, 9] {}

  // The instructions the steps above rewrite, or read from rewritten code

  lemma ConstantPlusLocalAt2()
    ensures Adds(Pass(ConstantPlusLocal(), LoadState(map[R(2) := P(0, 1)], {})), 2, AddInt32(R(1), R(1), R(2))) &&
      Taking(Pass(ConstantPlusLocal(), LoadState(map[R(2) := P(0, 1)], {})), 2, AddInt32(R(1), R(1), R(2))) == Pass(ConstantPlusLocalRewritten(), LoadState(map[], {1}))
  {
  }

  lemma ConstantPlusLocalAt3()
    ensures Quiet({R(0)}, Pass(ConstantPlusLocalRewritten(), LoadState(map[], {1})), 3, Return(Some(R(1))))
  {
  }

  lemma LocalPlusLocalAt2()
    ensures Adds(Pass(LocalPlusLocal(), LoadState(map[R(2) := P(0, 0), R(3) := P(1, 1)], {})), 2, AddInt32(R(2), R(2), R(3))) &&
      Taking(Pass(LocalPlusLocal(), LoadState(map[R(2) := P(0, 0), R(3) := P(1, 1)], {})), 2, AddInt32(R(2), R(2), R(3))) == Pass(LocalPlusLocalRewritten(), LoadState(map[], {0, 1}))
  {
  }

  lemma LocalPlusLocalAt3()
    ensures Quiet({R(0), R(1)}, Pass(LocalPlusLocalRewritten(), LoadState(map[], {0, 1})), 3, Return(Some(R(2))))
  {
  }

  lemma LocalTwiceAt2()
    ensures Adds(Pass(LocalTwice(), LoadState(map[R(1) := P(0, 0), R(2) := P(0, 1)], {})), 2, AddInt32(R(1), R(1), R(2))) &&
      Taking(Pass(LocalTwice(), LoadState(map[R(1) := P(0, 0), R(2) := P(0, 1)], {})), 2, AddInt32(R(1), R(1), R(2))) == Pass(LocalTwiceRewritten(), LoadState(map[], {0, 1}))
  {
  }

  lemma LocalTwiceAt3()
    ensures Quiet({R(0)}, Pass(LocalTwiceRewritten(), LoadState(map[], {0, 1})), 3, Return(Some(R(1))))
  {
  }

  lemma StoreThenAddAt6()
    ensures Adds(Pass(StoreThenAdd(), LoadState(map[R(2) := P(0, 4), R(3) := P(1, 5)], {})), 6, AddInt32(R(2), R(2), R(3))) &&
      Taking(Pass(StoreThenAdd(), LoadState(map[R(2) := P(0, 4), R(3) := P(1, 5)], {})), 6, AddInt32(R(2), R(2), R(3))) == Pass(StoreThenAddFirstSum(), LoadState(map[], {4, 5}))
  {
  }

  lemma StoreThenAddAt7()
    ensures LoadsLocal({R(0), R(1)}, Pass(StoreThenAddFirstSum(), LoadState(map[], {4, 5})), 7, R(3), R(0))
  {
  }

  lemma StoreThenAddAt8()
    ensures Adds(Pass(StoreThenAddFirstSum(), LoadState(map[R(3) := P(0, 7)], {4, 5})), 8, AddInt32(R(2), R(2), R(3))) &&
      Taking(Pass(StoreThenAddFirstSum(), LoadState(map[R(3) := P(0, 7)], {4, 5})), 8, AddInt32(R(2), R(2), R(3))) == Pass(StoreThenAddRewritten(), LoadState(map[], {4, 5, 7}))
  {
  }

  lemma StoreThenAddAt9()
    ensures Quiet({R(0), R(1)}, Pass(StoreThenAddRewritten(), LoadState(map[], {4, 5, 7})), 9, Return(Some(R(2))))
  {
  }

  lemma AddAfterStoreAsWrittenAt4()
    ensures Adds(Pass(AddAfterStore(), LoadState(map[R(1) := P(0, 0)], {})), 4, AddInt32(R(1), R(1), R(2))) &&
      Taking(Pass(AddAfterStore(), LoadState(map[R(1) := P(0, 0)], {})), 4, AddInt32(R(1), R(1), R(2))) == Pass(AddAfterStoreRewritten(), LoadState(map[], {0}))
  {
  }

  lemma AddAfterStoreAsWrittenAt5()
    ensures Quiet({R(0)}, Pass(AddAfterStoreRewritten(), LoadState(map[], {0})), 5, Return(Some(R(1))))
  {
  }

  lemma AddAfterStoreCheckedAt4()
    ensures Adds(Start(AddAfterStore()), 4, AddInt32(R(1), R(1), R(2))) &&
      Taking(Start(AddAfterStore()), 4, AddInt32(R(1), R(1), R(2))) == Start(AddAfterStore())
  {
  }

  // The kept instructions

  lemma ConstantPlusLocalPicked()
    ensures Pick(ConstantPlusLocalRewritten(), [0, 2, 3]) ==
      [I(0, LoadInt32(R(1), 4711)), I(2, AddInt32(R(1), R(1), R(0))), I(3, Return(Some(R(1))))]
  {
  }

  lemma LocalPlusLocalPicked()
    ensures Pick(LocalPlusLocalRewritten(), [2, 3]) == [I(2, AddInt32(R(2), R(0), R(1))), I(3, Return(Some(R(2))))]
  {
  }

  lemma LocalTwicePicked()
    ensures Pick(LocalTwiceRewritten(), [2, 3]) == [I(2, AddInt32(R(1), R(0), R(0))), I(3, Return(Some(R(1))))]
  {
  }

  lemma StoreThenAddPicked()
    ensures Pick(StoreThenAddRewritten(), [0, 1, 2, 3, 6, 8, 9]) ==
      [I(0, LoadInt32(R(2), 1337)), I(1, Move(R(0), R(2))), I(2, LoadInt32(R(2), 4711)), I(3, Move(R(1), R(2))),
       I(6, AddInt32(R(2), R(0), R(1))), I(8, AddInt32(R(2), R(2), R(0))), I(9, Return(Some(R(2))))]
  {
  }

  lemma AddAfterStorePicked()
    ensures Pick(AddAfterStoreRewritten(), [1, 2, 3, 4, 5]) == AddAfterStoreRewritten()[1..]
  {
  }

  /** Starting from `R(0) == 0`, the registers before the addition: the local now holds the stored 1. */
  lemma AddAfterStoreValues()
    ensures var e := EnvAt(BlockData(AddAfterStore(), Positions(6)), map[R(0) := 0], [0, 0, 0, 0, 0, 0], 4);
      Get(e, R(0)) == 1 && Get(e, R(1)) == 0 && Get(e, R(2)) == 2
  {
    var ds := BlockData(AddAfterStore(), Positions(6));
    assert ds == [Move(R(1), R(0)), LoadInt32(R(2), 1), Move(R(0), R(2)), LoadInt32(R(2), 2), AddInt32(R(1), R(1), R(2)),
                  Return(Some(R(1)))];
  }

  /**
   * As written, the pass makes the addition read the local, which the store overwrote, instead
   * of the temporary loaded before the store: the rewritten operand holds 1 where the original
   * one holds 0, so the function returns 3 instead of 2.
   */
  lemma AddAfterStoreReadsStore()
    ensures var e := EnvAt(BlockData(AddAfterStore(), Positions(6)), map[R(0) := 0], [0, 0, 0, 0, 0, 0], 4);
      var original := AddAfterStore()[4].data;
      var rewritten := PassUpTo(AsWritten, {R(0)}, AddAfterStore(), Positions(6), 5).code[4].data;
      rewritten.AddInt32? && Get(e, rewritten.op1) == 1 && Get(e, original.op1) == 0 &&
      Get(e, rewritten.op1) + Get(e, rewritten.op2) == 3 && Get(e, original.op1) + Get(e, original.op2) == 2
  {
    AddAfterStoreAsWrittenThrough5();
    AddAfterStoreValues();
  }
}
