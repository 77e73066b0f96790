/**
 * The linear-scan allocator on the live intervals of the allocator's own small programs, and
 * on a pair of intervals of different classes that shows the capacity check counting both.
 */
module LinearScanExamples {
  import opened Wrappers
  import opened TypeIds
  import opened Liveness
  import opened LinearScan
  import Mir

  function Interval(start: nat, end: nat, number: nat, t: TypeId): LiveInterval {
    LiveInterval(start, end, Mir.VirtualRegister(number, t))
  }

  /** One register of the class of `t` and none of the other. */
  function OneRegister(t: TypeId): Settings {
    if IsFloat(t) then Settings(0, 1) else Settings(1, 0)
  }

  /**
   * The intervals of a chain of four additions: the accumulator lives from the first load to
   * the return, the operand register from the second load to the last addition.
   */
  function ChainIntervals(t: TypeId): seq<LiveInterval> {
    [Interval(0, 9, 0, t), Interval(1, 8, 1, t)]
  }

  /** The first interval of a class with one free register takes it. */
  lemma FirstTakesRegister(t: TypeId, x: LiveInterval)
    requires TypeOf(x) == t
    ensures Step(AsWritten, OneRegister(t), Initial(OneRegister(t)), x) ==
      Some(ScanState(Tables(map[x := 0], [], [x]), Free({}, {})))
  {
    var s := Initial(OneRegister(t));
    assert Expire(s, x) == Some(s);
    var c := IsFloat(t);
    assert s.free.ForClass(c) == {0};
    StepTakesFree(AsWritten, OneRegister(t), s, x, s, Some(0));
    var a := Assign(s, x, 0);
    assert a.free.intRegisters == {} && a.free.floatRegisters == {};
  }

  /** The scan of one more interval is the turn on it from the scan so far. */
  lemma ScanThen(version: Version, settings: Settings, xs: seq<LiveInterval>, k: nat, s: ScanState, next: ScanState)
    requires k < |xs| && Scan(version, settings, xs[..k]) == Some(s) && Step(version, settings, s, xs[k]) == Some(next)
    ensures Scan(version, settings, xs[..k + 1]) == Some(next)
  {
    ScanStep(version, settings, xs, k);
  }

  /** The later, shorter interval of a full class takes the register of the only active one, which is spilled. */
  lemma ShorterTakesOver(t: TypeId, x0: LiveInterval, x1: LiveInterval, spilled: seq<LiveInterval>)
    requires TypeOf(x0) == t && TypeOf(x1) == t && x0.start <= x1.start <= x1.end < x0.end
    ensures Step(AsWritten, OneRegister(t), ScanState(Tables(map[x0 := 0], spilled, [x0]), Free({}, {})), x1) ==
      Some(ScanState(Tables(map[x1 := 0], spilled + [x0], [x1]), Free({}, {})))
  {
    var s1 := ScanState(Tables(map[x0 := 0], spilled, [x0]), Free({}, {}));
    assert Expire(s1, x1) == Some(s1) by {
      assert ExpiredCount(s1.tables.active, x1.start) == 0;
      assert s1.tables.active[0..] == s1.tables.active;
    }
    assert LastMatching(AsWritten, [x0], t) == Some(x0);
    var v := SpillVictim(s1.tables, x1, x0);
    assert v.registers == map[x1 := 0];
    assert InsertByEndPoint(RemoveFrom([x0], x0), x1) == [x1];
    assert ActiveCount(AsWritten, s1.tables.active, t) == MaxForClass(OneRegister(t), IsFloat(t));
    assert Split(AsWritten, s1.tables, x1) == Some(v);
    StepSplits(AsWritten, OneRegister(t), s1, x1, s1, Some(v));
    assert v == Tables(map[x1 := 0], spilled + [x0], [x1]);
  }

  /** An interval that starts after the only active one ends gets the register that one gives back. */
  lemma ExpiredHandsOver(t: TypeId, x0: LiveInterval, x1: LiveInterval, spilled: seq<LiveInterval>)
    requires TypeOf(x0) == t && TypeOf(x1) == t && x0.end < x1.start
    ensures Step(AsWritten, OneRegister(t), ScanState(Tables(map[x0 := 0], spilled, [x0]), Free({}, {})), x1) ==
      Some(ScanState(Tables(map[x0 := 0, x1 := 0], spilled, [x1]), Free({}, {})))
  {
    var s := ScanState(Tables(map[x0 := 0], spilled, [x0]), Free({}, {}));
    var c := IsFloat(t);
    assert ExpiredCount(s.tables.active, x1.start) == 1;
    assert s.tables.active[..1] == [x0] && s.tables.active[1..] == [];
    assert [x0][..0] == [];
    assert Release(s.free, [], s.tables.registers) == Some(s.free);
    assert x0 in s.tables.registers && s.tables.registers[x0] == 0;
    var released := Release(s.free, [x0], s.tables.registers);
    assert released.Some? && released.value.ForClass(c) == {0} && released.value.ForClass(!c) == {};
    var e := Expire(s, x1).value;
    assert e.tables == Tables(map[x0 := 0], spilled, []);
    assert e.free.ForClass(c) == {0} && e.free.ForClass(!c) == {};
    StepTakesFree(AsWritten, OneRegister(t), s, x1, e, Some(0));
    var a := Assign(e, x1, 0);
    assert a.free.intRegisters == {} && a.free.floatRegisters == {};
    assert a.tables.active == [x1];
    assert a.tables.registers == map[x0 := 0, x1 := 0];
  }

  /** With one register, the operand takes it from the longer-lived accumulator, which is spilled. */
  lemma ChainAllocation(t: TypeId)
    ensures AllocateSpec(AsWritten, ChainIntervals(t), OneRegister(t)) ==
      Some(Tables(map[Interval(1, 8, 1, t) := 0], [Interval(0, 9, 0, t)], [Interval(1, 8, 1, t)]))
  {
    var xs := ChainIntervals(t);
    var settings := OneRegister(t);
    var x0, x1 := xs[0], xs[1];
    assert SortByStart(xs) == xs;
    assert xs[..0] == [] && xs[..2] == xs;
    FirstTakesRegister(t, x0);
    var s1 := ScanState(Tables(map[x0 := 0], [], [x0]), Free({}, {}));
    ScanThen(AsWritten, settings, xs, 0, Initial(settings), s1);
    ShorterTakesOver(t, x0, x1, []);
    assert [] + [x0] == [x0];
    ScanThen(AsWritten, settings, xs, 1, s1, ScanState(Tables(map[x1 := 0], [x0], [x1]), Free({}, {})));
  }

  /**
   * The intervals of two locals and an addition: local 1 stored first and read by the return,
   * the two operands, and local 0 written by the addition's store (numbered in register order).
   */
  function LocalsIntervals(t: TypeId): seq<LiveInterval> {
    [Interval(5, 5, 0, t), Interval(1, 6, 1, t), Interval(0, 7, 2, t), Interval(3, 4, 3, t)]
  }

  /** `sort_by_key(start)` on the locals' intervals. */
  lemma LocalsSorted(t: TypeId)
    ensures SortByStart(LocalsIntervals(t)) == LocalsInStartOrder(t)
  {
    var r0, r1, r2, r3 := Interval(5, 5, 0, t), Interval(1, 6, 1, t), Interval(0, 7, 2, t), Interval(3, 4, 3, t);
    assert SortByStart([r3]) == [r3];
    assert SortByStart([r2, r3]) == [r2, r3];
    assert InsertByStart(r1, [r3]) == [r1, r3];
    assert [r2, r3][1..] == [r3] && [r1, r2, r3][1..] == [r2, r3];
    assert SortByStart([r1, r2, r3]) == [r2, r1, r3];
    assert LocalsIntervals(t)[1..] == [r1, r2, r3];
    assert InsertByStart(r0, [r3]) == [r3, r0];
    assert InsertByStart(r0, [r1, r3]) == [r1, r3, r0];
    assert InsertByStart(r0, [r2, r1, r3]) == [r2, r1, r3, r0];
  }

  function LocalsInStartOrder(t: TypeId): seq<LiveInterval> {
    [Interval(0, 7, 2, t), Interval(1, 6, 1, t), Interval(3, 4, 3, t), Interval(5, 5, 0, t)]
  }

  /** The two operands each take the register over from the interval before them. */
  lemma LocalsFirstThree(t: TypeId)
    ensures Scan(AsWritten, OneRegister(t), LocalsInStartOrder(t)[..3]) ==
      Some(ScanState(Tables(map[Interval(3, 4, 3, t) := 0], [Interval(0, 7, 2, t), Interval(1, 6, 1, t)], [Interval(3, 4, 3, t)]), Free({}, {})))
  {
    var settings := OneRegister(t);
    var xs := LocalsInStartOrder(t);
    var r1, r2, r3 := xs[1], xs[0], xs[2];
    assert xs[..0] == [];
    FirstTakesRegister(t, r2);
    var s1 := ScanState(Tables(map[r2 := 0], [], [r2]), Free({}, {}));
    ScanThen(AsWritten, settings, xs, 0, Initial(settings), s1);
    ShorterTakesOver(t, r2, r1, []);
    assert [] + [r2] == [r2];
    var s2 := ScanState(Tables(map[r1 := 0], [r2], [r1]), Free({}, {}));
    ScanThen(AsWritten, settings, xs, 1, s1, s2);
    ShorterTakesOver(t, r1, r3, [r2]);
    assert [r2] + [r1] == [r2, r1];
    ScanThen(AsWritten, settings, xs, 2, s2, ScanState(Tables(map[r3 := 0], [r2, r1], [r3]), Free({}, {})));
  }

  /**
   * With one register, each shorter operand takes it over and the last interval gets it back
   * once the operand before it has ended: two intervals hold the register and two are spilled.
   */
  lemma LocalsAllocation(t: TypeId)
    ensures AllocateSpec(AsWritten, LocalsIntervals(t), OneRegister(t)) ==
      Some(Tables(map[Interval(3, 4, 3, t) := 0, Interval(5, 5, 0, t) := 0],
                  [Interval(0, 7, 2, t), Interval(1, 6, 1, t)], [Interval(5, 5, 0, t)]))
  {
    var settings := OneRegister(t);
    var xs := LocalsInStartOrder(t);
    var r0, r1, r2, r3 := xs[3], xs[1], xs[0], xs[2];
    LocalsSorted(t);
    LocalsFirstThree(t);
    ExpiredHandsOver(t, r3, r0, [r2, r1]);
    var s3 := ScanState(Tables(map[r3 := 0], [r2, r1], [r3]), Free({}, {}));
    ScanThen(AsWritten, settings, xs, 3, s3, ScanState(Tables(map[r3 := 0, r0 := 0], [r2, r1], [r0]), Free({}, {})));
    assert xs[..4] == xs;
  }

  // The capacity check counting the other class

  /** An integer interval and a shorter floating-point one that starts while it is live. */
  function MixedIntervals(): seq<LiveInterval> {
    [Interval(0, 5, 0, Int32), Interval(1, 3, 1, Float32)]
  }

  /** The integer interval takes the integer register. */
  lemma MixedFirst(version: Version) returns (s1: ScanState)
    ensures Scan(version, Settings(1, 1), MixedIntervals()[..1]) == Some(s1)
    ensures s1.tables == Tables(map[Interval(0, 5, 0, Int32) := 0], [], [Interval(0, 5, 0, Int32)])
    ensures s1.free.intRegisters == {} && s1.free.floatRegisters == {0}
  {
    var settings := Settings(1, 1);
    var xs := MixedIntervals();
    var s := Initial(settings);
    assert xs[..0] == [];
    assert Expire(s, xs[0]) == Some(s);
    assert s.free.ForClass(false) == {0};
    StepTakesFree(version, settings, s, xs[0], s, Some(0));
    s1 := Assign(s, xs[0], 0);
    ScanThen(version, settings, xs, 0, s, s1);
  }

  /** As written, the floating-point interval finds the class full and no victim of its type: `allocate` panics. */
  lemma MixedAsWrittenPanics()
    ensures AllocateSpec(AsWritten, MixedIntervals(), Settings(1, 1)).None?
  {
    var settings := Settings(1, 1);
    var xs := MixedIntervals();
    assert SortByStart(xs) == xs;
    var s1 := MixedFirst(AsWritten);
    assert Expire(s1, xs[1]) == Some(s1) by {
      assert ExpiredCount(s1.tables.active, xs[1].start) == 0;
      assert s1.tables.active[0..] == s1.tables.active;
    }
    assert LastMatching(AsWritten, s1.tables.active, Float32).None?;
    StepSplits(AsWritten, settings, s1, xs[1], s1, None);
    ScanStep(AsWritten, settings, xs, 1);
    assert xs[..2] == xs;
  }

  /** Corrected, each interval takes the register of its own class. */
  lemma MixedCorrectedAllocates()
    ensures AllocateSpec(Corrected, MixedIntervals(), Settings(1, 1)) ==
      Some(Tables(map[Interval(0, 5, 0, Int32) := 0, Interval(1, 3, 1, Float32) := 0], [],
                  [Interval(1, 3, 1, Float32), Interval(0, 5, 0, Int32)]))
  {
    var settings := Settings(1, 1);
    var xs := MixedIntervals();
    assert SortByStart(xs) == xs;
    var s1 := MixedFirst(Corrected);
    assert Expire(s1, xs[1]) == Some(s1) by {
      assert ExpiredCount(s1.tables.active, xs[1].start) == 0;
      assert s1.tables.active[0..] == s1.tables.active;
    }
    assert CountClass(s1.tables.active, true) == 0;
    StepTakesFree(Corrected, settings, s1, xs[1], s1, Some(0));
    var s2 := Assign(s1, xs[1], 0);
    assert s2.tables.active == [xs[1], xs[0]];
    ScanThen(Corrected, settings, xs, 1, s1, s2);
    assert xs[..2] == xs;
  }
}
